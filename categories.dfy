/** The dashboard's categoriser (app.py, `categorize`): ordered substring
    rules on the lower-cased description, the first match winning. */
module Categories {
  import opened Text

  /** `categorize(desc)` for a description already turned into text by
      `str()`. */
  function Categorize(desc: string): (r: string)
    ensures r in Labels
  {
    var d := Lower(desc);
    if Contains(d, "airtime") || Contains(d, "data") then "Airtime & Data"
    else if Contains(d, "cold stone") || Contains(d, "food") || Contains(d, "restaurant") then "Food & Lifestyle"
    else if Contains(d, "transfer") then "Transfers"
    else if Contains(d, "auto-save") || Contains(d, "owallet") || Contains(d, "piggy") || Contains(d, "save") then "Savings"
    else if Contains(d, "bet") || Contains(d, "sporty") then "Gaming & Betting"
    else if Contains(d, "atm") || Contains(d, "pos") || Contains(d, "withdrawal") then "Cash Withdrawal"
    else "Other"
  }

  /** One rule: any of its keywords selects its category. */
  datatype Rule = Rule(keywords: seq<string>, category: string)

  /** The rules of `categorize`, in the order they are tried. */
  const Rules: seq<Rule> := [
    Rule(["airtime", "data"], "Airtime & Data"),
    Rule(["cold stone", "food", "restaurant"], "Food & Lifestyle"),
    Rule(["transfer"], "Transfers"),
    Rule(["auto-save", "owallet", "piggy", "save"], "Savings"),
    Rule(["bet", "sporty"], "Gaming & Betting"),
    Rule(["atm", "pos", "withdrawal"], "Cash Withdrawal")
  ]

  /** The seven labels the dashboard can show. */
  const Labels: seq<string> := ["Airtime & Data", "Food & Lifestyle", "Transfers", "Savings",
                                "Gaming & Betting", "Cash Withdrawal", "Other"]

  /** Python's `k1 in d or k2 in d or ...`. */
  predicate AnyIn(d: string, keywords: seq<string>)
  {
    |keywords| > 0 && (Contains(d, keywords[0]) || AnyIn(d, keywords[1..]))
  }

  lemma {:induction false} AnyInMeans(d: string, keywords: seq<string>)
    ensures AnyIn(d, keywords) <==> exists k :: 0 <= k < |keywords| && Contains(d, keywords[k])
  {
    if |keywords| > 0 {
      AnyInMeans(d, keywords[1..]);
      if Contains(d, keywords[0]) {
        assert 0 < |keywords| && Contains(d, keywords[0]);
      }
      forall k | 1 <= k < |keywords| && Contains(d, keywords[k])
        ensures 0 <= k - 1 < |keywords[1..]| && Contains(d, keywords[1..][k - 1])
      {
      }
    }
  }

  /** The category of the first rule with a keyword in `d`, else "Other". */
  function FirstMatch(d: string, rules: seq<Rule>): string
  {
    if |rules| == 0 then "Other"
    else if AnyIn(d, rules[0].keywords) then rules[0].category
    else FirstMatch(d, rules[1..])
  }

  lemma {:induction false} RulesTable()
    ensures |Rules| == 6
    ensures Rules[0].keywords == ["airtime", "data"] && Rules[0].category == "Airtime & Data"
    ensures Rules[1].keywords == ["cold stone", "food", "restaurant"] && Rules[1].category == "Food & Lifestyle"
    ensures Rules[2].keywords == ["transfer"] && Rules[2].category == "Transfers"
    ensures Rules[3].keywords == ["auto-save", "owallet", "piggy", "save"] && Rules[3].category == "Savings"
    ensures Rules[4].keywords == ["bet", "sporty"] && Rules[4].category == "Gaming & Betting"
    ensures Rules[5].keywords == ["atm", "pos", "withdrawal"] && Rules[5].category == "Cash Withdrawal"
  {
  }

  /** The if-chain is the rule table tried in order. */
  lemma {:induction false} CategorizeIsFirstMatch(desc: string)
    ensures Categorize(desc) == FirstMatch(Lower(desc), Rules)
  {
    var d := Lower(desc);
    RulesTable();
    forall k | 0 <= k < 6
      ensures FirstMatch(d, Rules[k..])
        == if AnyIn(d, Rules[k].keywords) then Rules[k].category else FirstMatch(d, Rules[k + 1..])
    {
      assert Rules[k..][0] == Rules[k] && Rules[k..][1..] == Rules[k + 1..];
    }
    assert Rules[0..] == Rules && Rules[6..] == [];
    AnyIn2(d, "airtime", "data");
    AnyIn3(d, "cold stone", "food", "restaurant");
    AnyIn1(d, "transfer");
    AnyIn4(d, "auto-save", "owallet", "piggy", "save");
    AnyIn2(d, "bet", "sporty");
    AnyIn3(d, "atm", "pos", "withdrawal");
  }

  lemma {:induction false} AnyIn1(d: string, a: string)
    ensures AnyIn(d, [a]) <==> Contains(d, a)
  {
    assert [a][1..] == [];
  }

  lemma {:induction false} AnyIn2(d: string, a: string, b: string)
    ensures AnyIn(d, [a, b]) <==> Contains(d, a) || Contains(d, b)
  {
    assert [a, b][1..] == [b];
    AnyIn1(d, b);
  }

  lemma {:induction false} AnyIn3(d: string, a: string, b: string, c: string)
    ensures AnyIn(d, [a, b, c]) <==> Contains(d, a) || Contains(d, b) || Contains(d, c)
  {
    assert [a, b, c][1..] == [b, c];
    AnyIn2(d, b, c);
  }

  lemma {:induction false} AnyIn4(d: string, a: string, b: string, c: string, e: string)
    ensures AnyIn(d, [a, b, c, e]) <==> Contains(d, a) || Contains(d, b) || Contains(d, c) || Contains(d, e)
  {
    assert [a, b, c, e][1..] == [b, c, e];
    AnyIn3(d, b, c, e);
  }

  /** The first rule with a matching keyword decides, whatever later rules
      would also match. */
  lemma {:induction false} FirstMatchAt(d: string, rules: seq<Rule>, k: nat)
    requires k < |rules| && AnyIn(d, rules[k].keywords)
    requires forall j :: 0 <= j < k ==> !AnyIn(d, rules[j].keywords)
    ensures FirstMatch(d, rules) == rules[k].category
  {
    if k > 0 {
      assert !AnyIn(d, rules[0].keywords);
      forall j | 0 <= j < k - 1
        ensures !AnyIn(d, rules[1..][j].keywords)
      {
        assert rules[1..][j] == rules[j + 1];
      }
      FirstMatchAt(d, rules[1..], k - 1);
    }
  }

  /** With no rule named "Other", the fallback is reached exactly when no
      rule matches. */
  lemma {:induction false} FirstMatchOther(d: string, rules: seq<Rule>)
    requires forall j :: 0 <= j < |rules| ==> rules[j].category != "Other"
    ensures FirstMatch(d, rules) == "Other" <==> forall j :: 0 <= j < |rules| ==> !AnyIn(d, rules[j].keywords)
  {
    if |rules| > 0 {
      forall j | 0 <= j < |rules| - 1
        ensures rules[1..][j] == rules[j + 1]
      {
      }
      FirstMatchOther(d, rules[1..]);
      if !AnyIn(d, rules[0].keywords) {
        forall j | 0 <= j < |rules| && j != 0
          ensures AnyIn(d, rules[j].keywords) == AnyIn(d, rules[1..][j - 1].keywords)
        {
        }
      }
    }
  }

  /** When the rules name distinct categories, a rule's category comes out
      exactly when that rule matches and no earlier one does. */
  lemma {:induction false} FirstMatchIs(d: string, rules: seq<Rule>, k: nat)
    requires k < |rules|
    requires forall i, j :: 0 <= i < j < |rules| ==> rules[i].category != rules[j].category
    requires forall j :: 0 <= j < |rules| ==> rules[j].category != "Other"
    ensures FirstMatch(d, rules) == rules[k].category
        <==> AnyIn(d, rules[k].keywords) && forall j :: 0 <= j < k ==> !AnyIn(d, rules[j].keywords)
  {
    if AnyIn(d, rules[k].keywords) && forall j :: 0 <= j < k ==> !AnyIn(d, rules[j].keywords) {
      FirstMatchAt(d, rules, k);
    } else if AnyIn(d, rules[0].keywords) {
      assert FirstMatch(d, rules) == rules[0].category;
      assert k != 0 && rules[0].category != rules[k].category;
    } else if k > 0 {
      forall i, j | 0 <= i < j < |rules| - 1
        ensures rules[1..][i].category != rules[1..][j].category
      {
        assert rules[1..][i] == rules[i + 1] && rules[1..][j] == rules[j + 1];
      }
      forall j | 0 <= j < |rules| - 1
        ensures rules[1..][j] == rules[j + 1]
      {
      }
      FirstMatchIs(d, rules[1..], k - 1);
      assert AnyIn(d, rules[k].keywords) == AnyIn(d, rules[1..][k - 1].keywords);
      if AnyIn(d, rules[k].keywords) {
        var j :| 0 <= j < k && AnyIn(d, rules[j].keywords);
        assert j != 0 && AnyIn(d, rules[1..][j - 1].keywords);
      }
      assert FirstMatch(d, rules) == FirstMatch(d, rules[1..]);
      assert rules[1..][k - 1] == rules[k];
    } else {
      FirstMatchFrom(d, rules[1..]);
      if FirstMatch(d, rules[1..]) != "Other" {
        var j :| 0 <= j < |rules[1..]| && FirstMatch(d, rules[1..]) == rules[1..][j].category;
        assert rules[1..][j] == rules[j + 1];
      }
    }
  }

  /** The result is "Other" or the category of one of the rules. */
  lemma {:induction false} FirstMatchFrom(d: string, rules: seq<Rule>)
    ensures FirstMatch(d, rules) == "Other"
         || exists j :: 0 <= j < |rules| && FirstMatch(d, rules) == rules[j].category
  {
    if |rules| > 0 && !AnyIn(d, rules[0].keywords) {
      FirstMatchFrom(d, rules[1..]);
      if FirstMatch(d, rules[1..]) != "Other" {
        var j :| 0 <= j < |rules[1..]| && FirstMatch(d, rules[1..]) == rules[1..][j].category;
        assert rules[1..][j] == rules[j + 1];
      }
    }
  }

  lemma {:induction false} RulesDistinct()
    ensures forall i, j :: 0 <= i < j < |Rules| ==> Rules[i].category != Rules[j].category
    ensures forall j :: 0 <= j < |Rules| ==> Rules[j].category != "Other"
  {
    RulesTable();
  }

  /** `categorize` returns "Other" exactly when no keyword of any rule is a
      substring of the lower-cased description. */
  lemma {:induction false} CategorizeOther(desc: string)
    ensures Categorize(desc) == "Other"
        <==> forall j, k :: 0 <= j < |Rules| && 0 <= k < |Rules[j].keywords| ==> !Contains(Lower(desc), Rules[j].keywords[k])
  {
    var d := Lower(desc);
    CategorizeIsFirstMatch(desc);
    RulesDistinct();
    FirstMatchOther(d, Rules);
    forall j | 0 <= j < |Rules|
      ensures AnyIn(d, Rules[j].keywords) <==> exists k :: 0 <= k < |Rules[j].keywords| && Contains(d, Rules[j].keywords[k])
    {
      AnyInMeans(d, Rules[j].keywords);
    }
  }

  /** Rule `k` decides exactly when one of its keywords occurs and no keyword
      of an earlier rule does. */
  lemma {:induction false} CategorizePrecedence(desc: string, k: nat)
    requires k < |Rules|
    ensures Categorize(desc) == Rules[k].category
        <==> AnyIn(Lower(desc), Rules[k].keywords) && forall j :: 0 <= j < k ==> !AnyIn(Lower(desc), Rules[j].keywords)
  {
    CategorizeIsFirstMatch(desc);
    RulesDistinct();
    FirstMatchIs(Lower(desc), Rules, k);
  }

  /** "airtime" or "data" anywhere wins over every other keyword. */
  lemma {:induction false} AirtimeWins(desc: string)
    requires Contains(Lower(desc), "airtime") || Contains(Lower(desc), "data")
    ensures Categorize(desc) == "Airtime & Data"
  {
  }

  /** A transfer containing "bet" (or any later keyword) is a transfer, unless
      an airtime or food keyword occurs too. */
  lemma {:induction false} TransferBeatsBetting(desc: string)
    requires Contains(Lower(desc), "transfer") && Contains(Lower(desc), "bet")
    requires !AnyIn(Lower(desc), Rules[0].keywords) && !AnyIn(Lower(desc), Rules[1].keywords)
    ensures Categorize(desc) == "Transfers"
  {
    RulesTable();
    AnyIn1(Lower(desc), "transfer");
    CategorizePrecedence(desc, 2);
  }

  /** A description mentioning "transfer" never lands in a later category. */
  lemma {:induction false} TransferNeverLater(desc: string)
    requires Contains(Lower(desc), "transfer")
    ensures Categorize(desc) in ["Airtime & Data", "Food & Lifestyle", "Transfers"]
  {
  }

  /** Case does not matter: upper- or lower-casing the description first
      gives the same category. */
  lemma {:induction false} CategorizeIgnoresCase(desc: string)
    ensures Categorize(Upper(desc)) == Categorize(desc)
    ensures Categorize(Lower(desc)) == Categorize(desc)
  {
    CaseMappings(desc);
    SameLowerSameCategory(Upper(desc), desc);
    SameLowerSameCategory(Lower(desc), desc);
  }

  /** The category depends on the lower-cased text only. */
  lemma {:induction false} SameLowerSameCategory(a: string, b: string)
    requires Lower(a) == Lower(b)
    ensures Categorize(a) == Categorize(b)
  {
    CategorizeIsFirstMatch(a);
    CategorizeIsFirstMatch(b);
  }

  /** A keyword lacking from the text is detected by one missing character. */
  lemma {:induction false} MissingChar(d: string, kw: string, k: nat)
    requires k < |kw| && kw[k] !in d
    ensures !Contains(d, kw)
  {
    if Contains(d, kw) {
      ContainsHasChar(d, kw, k);
    }
  }

  /** No character of `s` is one of `cs`. */
  predicate NoneOf(s: string, cs: string)
  {
    forall i :: 0 <= i < |s| ==> s[i] !in cs
  }

  /** A keyword with a character from `cs` cannot occur in text free of them. */
  lemma {:induction false} MissingCharOf(d: string, cs: string, kw: string, k: nat)
    requires NoneOf(d, cs) && k < |kw| && kw[k] in cs
    ensures !Contains(d, kw)
  {
    assert kw[k] !in d;
    MissingChar(d, kw, k);
  }

  // Worked examples: each rule is checked against the keywords it must not
  // meet through one absent character per keyword.

  lemma {:induction false} SavingsWhen(desc: string, d: string)
    requires Lower(desc) == d
    requires !Contains(d, "airtime") && !Contains(d, "data")
    requires !Contains(d, "cold stone") && !Contains(d, "food") && !Contains(d, "restaurant")
    requires !Contains(d, "transfer")
    requires Contains(d, "auto-save") || Contains(d, "owallet") || Contains(d, "piggy") || Contains(d, "save")
    ensures Categorize(desc) == "Savings"
  {
  }

  lemma {:induction false} PiggyVestKeywords(d: string, a: string, b: string)
    requires NoneOf(d, "rdcf") && d == a + "auto-save" + b
    ensures !Contains(d, "airtime") && !Contains(d, "data")
    ensures !Contains(d, "cold stone") && !Contains(d, "food") && !Contains(d, "restaurant")
    ensures !Contains(d, "transfer") && Contains(d, "auto-save")
  {
    MissingCharOf(d, "rdcf", "airtime", 2);
    MissingCharOf(d, "rdcf", "data", 0);
    MissingCharOf(d, "rdcf", "cold stone", 0);
    MissingCharOf(d, "rdcf", "food", 0);
    MissingCharOf(d, "rdcf", "restaurant", 0);
    MissingCharOf(d, "rdcf", "transfer", 1);
    ContainsSplice(a, "auto-save", b);
  }

  lemma {:induction false} PiggyVestLowered()
    ensures Lower("Monthly Auto-Save to PiggyVest") == "monthly auto-save to piggyvest"
  {
  }

  lemma {:induction false} PiggyVestChars()
    ensures NoneOf("monthly auto-save to piggyvest", "rdcf")
  {
  }

  lemma {:induction false} PiggyVestSplit()
    ensures "monthly auto-save to piggyvest" == "monthly " + "auto-save" + " to piggyvest"
  {
  }

  /** "Monthly Auto-Save to PiggyVest" is a saving. */
  lemma {:induction false} PiggyVestExample()
    ensures Categorize("Monthly Auto-Save to PiggyVest") == "Savings"
  {
    PiggyVestLowered();
    PiggyVestChars();
    PiggyVestSplit();
    PiggyVestKeywords("monthly auto-save to piggyvest", "monthly ", " to piggyvest");
    SavingsWhen("Monthly Auto-Save to PiggyVest", "monthly auto-save to piggyvest");
  }

  lemma {:induction false} TransferWhen(desc: string, d: string)
    requires Lower(desc) == d
    requires !Contains(d, "airtime") && !Contains(d, "data")
    requires !Contains(d, "cold stone") && !Contains(d, "food") && !Contains(d, "restaurant")
    requires Contains(d, "transfer")
    ensures Categorize(desc) == "Transfers"
  {
  }

  lemma {:induction false} JohnKeywords(d: string, b: string)
    requires NoneOf(d, "idu") && d == "transfer" + b
    ensures !Contains(d, "airtime") && !Contains(d, "data")
    ensures !Contains(d, "cold stone") && !Contains(d, "food") && !Contains(d, "restaurant")
    ensures Contains(d, "transfer")
  {
    MissingCharOf(d, "idu", "airtime", 1);
    MissingCharOf(d, "idu", "data", 0);
    MissingCharOf(d, "idu", "cold stone", 3);
    MissingCharOf(d, "idu", "food", 3);
    MissingCharOf(d, "idu", "restaurant", 5);
    assert d == "" + "transfer" + b;
    ContainsSplice("", "transfer", b);
  }

  lemma {:induction false} JohnLowered()
    ensures Lower("Transfer to John") == "transfer to john"
  {
  }

  lemma {:induction false} JohnChars()
    ensures NoneOf("transfer to john", "idu")
    ensures "transfer to john" == "transfer" + " to john"
  {
  }

  /** "Transfer to John" is a transfer. */
  lemma {:induction false} TransferExample()
    ensures Categorize("Transfer to John") == "Transfers"
  {
    JohnLowered();
    JohnChars();
    JohnKeywords("transfer to john", " to john");
    TransferWhen("Transfer to John", "transfer to john");
  }

  lemma {:induction false} CashWhen(desc: string, d: string)
    requires Lower(desc) == d
    requires !Contains(d, "airtime") && !Contains(d, "data")
    requires !Contains(d, "cold stone") && !Contains(d, "food") && !Contains(d, "restaurant")
    requires !Contains(d, "transfer")
    requires !Contains(d, "auto-save") && !Contains(d, "owallet") && !Contains(d, "piggy") && !Contains(d, "save")
    requires !Contains(d, "bet") && !Contains(d, "sporty")
    requires Contains(d, "atm") || Contains(d, "pos") || Contains(d, "withdrawal")
    ensures Categorize(desc) == "Cash Withdrawal"
  {
  }

  lemma {:induction false} ShopriteKeywords(d: string, b: string)
    requires NoneOf(d, "mdlfn") && NoneOf(d, "-wgvby") && d == "pos" + b
    ensures !Contains(d, "airtime") && !Contains(d, "data")
    ensures !Contains(d, "cold stone") && !Contains(d, "food") && !Contains(d, "restaurant")
    ensures !Contains(d, "transfer")
    ensures !Contains(d, "auto-save") && !Contains(d, "owallet") && !Contains(d, "piggy") && !Contains(d, "save")
    ensures !Contains(d, "bet") && !Contains(d, "sporty")
    ensures Contains(d, "pos")
  {
    NoEarlyKeywords(d);
    NoSavingOrBetting(d);
    assert d == "" + "pos" + b;
    ContainsSplice("", "pos", b);
  }

  lemma {:induction false} NoEarlyKeywords(d: string)
    requires NoneOf(d, "mdlfn")
    ensures !Contains(d, "airtime") && !Contains(d, "data")
    ensures !Contains(d, "cold stone") && !Contains(d, "food") && !Contains(d, "restaurant")
    ensures !Contains(d, "transfer")
  {
    MissingCharOf(d, "mdlfn", "airtime", 5);
    MissingCharOf(d, "mdlfn", "data", 0);
    MissingCharOf(d, "mdlfn", "cold stone", 2);
    MissingCharOf(d, "mdlfn", "food", 0);
    MissingCharOf(d, "mdlfn", "restaurant", 8);
    MissingCharOf(d, "mdlfn", "transfer", 3);
  }

  lemma {:induction false} NoSavingOrBetting(d: string)
    requires NoneOf(d, "-wgvby")
    ensures !Contains(d, "auto-save") && !Contains(d, "owallet") && !Contains(d, "piggy") && !Contains(d, "save")
    ensures !Contains(d, "bet") && !Contains(d, "sporty")
  {
    MissingCharOf(d, "-wgvby", "auto-save", 4);
    MissingCharOf(d, "-wgvby", "owallet", 1);
    MissingCharOf(d, "-wgvby", "piggy", 2);
    MissingCharOf(d, "-wgvby", "save", 2);
    MissingCharOf(d, "-wgvby", "bet", 0);
    MissingCharOf(d, "-wgvby", "sporty", 5);
  }

  lemma {:induction false} ShopriteLowered()
    ensures Lower("POS Purchase at Shoprite") == "pos purchase at shoprite"
  {
  }

  lemma {:induction false} ShopriteChars()
    ensures NoneOf("pos purchase at shoprite", "mdlfn")
  {
  }

  lemma {:induction false} ShopriteMoreChars()
    ensures NoneOf("pos purchase at shoprite", "-wgvby")
  {
  }

  lemma {:induction false} ShopriteSplit()
    ensures "pos purchase at shoprite" == "pos" + " purchase at shoprite"
  {
  }

  /** "POS Purchase at Shoprite" is a cash withdrawal. */
  lemma {:induction false} ShopriteExample()
    ensures Categorize("POS Purchase at Shoprite") == "Cash Withdrawal"
  {
    ShopriteLowered();
    ShopriteChars();
    ShopriteMoreChars();
    ShopriteSplit();
    ShopriteKeywords("pos purchase at shoprite", " purchase at shoprite");
    CashWhen("POS Purchase at Shoprite", "pos purchase at shoprite");
  }

  lemma {:induction false} OtherWhen(desc: string, d: string)
    requires Lower(desc) == d
    requires !Contains(d, "airtime") && !Contains(d, "data")
    requires !Contains(d, "cold stone") && !Contains(d, "food") && !Contains(d, "restaurant")
    requires !Contains(d, "transfer")
    requires !Contains(d, "auto-save") && !Contains(d, "owallet") && !Contains(d, "piggy") && !Contains(d, "save")
    requires !Contains(d, "bet") && !Contains(d, "sporty")
    requires !Contains(d, "atm") && !Contains(d, "pos") && !Contains(d, "withdrawal")
    ensures Categorize(desc) == "Other"
  {
  }

  lemma {:induction false} RentKeywords(d: string)
    requires NoneOf(d, "adcfsopbw")
    ensures !Contains(d, "airtime") && !Contains(d, "data")
    ensures !Contains(d, "cold stone") && !Contains(d, "food") && !Contains(d, "restaurant")
    ensures !Contains(d, "transfer")
    ensures !Contains(d, "auto-save") && !Contains(d, "owallet") && !Contains(d, "piggy") && !Contains(d, "save")
    ensures !Contains(d, "bet") && !Contains(d, "sporty")
    ensures !Contains(d, "atm") && !Contains(d, "pos") && !Contains(d, "withdrawal")
  {
    MissingCharOf(d, "adcfsopbw", "airtime", 0);
    MissingCharOf(d, "adcfsopbw", "data", 0);
    MissingCharOf(d, "adcfsopbw", "cold stone", 0);
    MissingCharOf(d, "adcfsopbw", "food", 0);
    MissingCharOf(d, "adcfsopbw", "restaurant", 2);
    MissingCharOf(d, "adcfsopbw", "transfer", 2);
    MissingCharOf(d, "adcfsopbw", "auto-save", 0);
    MissingCharOf(d, "adcfsopbw", "owallet", 0);
    MissingCharOf(d, "adcfsopbw", "piggy", 0);
    MissingCharOf(d, "adcfsopbw", "save", 0);
    MissingCharOf(d, "adcfsopbw", "bet", 0);
    MissingCharOf(d, "adcfsopbw", "sporty", 0);
    MissingCharOf(d, "adcfsopbw", "atm", 0);
    MissingCharOf(d, "adcfsopbw", "pos", 0);
    MissingCharOf(d, "adcfsopbw", "withdrawal", 0);
  }

  lemma {:induction false} RentChars()
    ensures Lower("Rent") == "rent" && NoneOf("rent", "adcfsopbw")
  {
  }

  /** A description with no keyword at all falls through to "Other". */
  lemma {:induction false} RentExample()
    ensures Categorize("Rent") == "Other"
  {
    RentChars();
    RentKeywords("rent");
    OtherWhen("Rent", "rent");
  }
  /** A keyword whose first two characters never occur next to each other
      in the text does not occur in it. */
  lemma {:induction false} MissingPair(d: string, kw: string)
    requires |kw| >= 2
    requires forall i :: 0 <= i < |d| - 1 ==> !(d[i] == kw[0] && d[i + 1] == kw[1])
    ensures !Contains(d, kw)
    decreases |d|
  {
    if StartsWith(d, kw) {
      StartsWithAt(d, kw, 0);
      StartsWithAt(d, kw, 1);
      assert false;
    }
    if |d| > 0 {
      var e := d[1..];
      forall i | 0 <= i < |e| - 1
        ensures !(e[i] == kw[0] && e[i + 1] == kw[1])
      {
        assert e[i] == d[i + 1] && e[i + 1] == d[i + 2];
      }
      MissingPair(e, kw);
    }
  }

  lemma {:induction false} RandomPairs()
    ensures forall i :: 0 <= i < 10 ==> !("random text"[i] == 'd' && "random text"[i + 1] == 'a')
    ensures forall i :: 0 <= i < 10 ==> !("random text"[i] == 'a' && "random text"[i + 1] == 't')
  {
  }

  lemma {:induction false} RandomKeywords(d: string)
    requires NoneOf(d, "icfsuwpb")
    requires forall i :: 0 <= i < |d| - 1 ==> !(d[i] == 'd' && d[i + 1] == 'a')
    requires forall i :: 0 <= i < |d| - 1 ==> !(d[i] == 'a' && d[i + 1] == 't')
    ensures !Contains(d, "airtime") && !Contains(d, "data")
    ensures !Contains(d, "cold stone") && !Contains(d, "food") && !Contains(d, "restaurant")
    ensures !Contains(d, "transfer")
    ensures !Contains(d, "auto-save") && !Contains(d, "owallet") && !Contains(d, "piggy") && !Contains(d, "save")
    ensures !Contains(d, "bet") && !Contains(d, "sporty")
    ensures !Contains(d, "atm") && !Contains(d, "pos") && !Contains(d, "withdrawal")
  {
    MissingCharOf(d, "icfsuwpb", "airtime", 1);
    MissingPair(d, "data");
    MissingCharOf(d, "icfsuwpb", "cold stone", 0);
    MissingCharOf(d, "icfsuwpb", "food", 0);
    MissingCharOf(d, "icfsuwpb", "restaurant", 2);
    MissingCharOf(d, "icfsuwpb", "transfer", 4);
    MissingCharOf(d, "icfsuwpb", "auto-save", 1);
    MissingCharOf(d, "icfsuwpb", "owallet", 1);
    MissingCharOf(d, "icfsuwpb", "piggy", 0);
    MissingCharOf(d, "icfsuwpb", "save", 0);
    MissingCharOf(d, "icfsuwpb", "bet", 0);
    MissingCharOf(d, "icfsuwpb", "sporty", 0);
    MissingPair(d, "atm");
    MissingCharOf(d, "icfsuwpb", "pos", 0);
    MissingCharOf(d, "icfsuwpb", "withdrawal", 0);
  }

  lemma {:induction false} RandomChars()
    ensures Lower("Random text") == "random text" && NoneOf("random text", "icfsuwpb")
  {
  }

  /** "Random text" contains every letter of "data" and of "atm", but
      neither word, so it is "Other". */
  lemma {:induction false} RandomTextExample()
    ensures Categorize("Random text") == "Other"
  {
    RandomChars();
    RandomPairs();
    RandomKeywords("random text");
    OtherWhen("Random text", "random text");
  }
}
