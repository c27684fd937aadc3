/** The figures of the Streamlit dashboard (app.py): the category column,
    the month selector and filter, the KPI sums, the per-category and
    per-channel spending summaries and the monthly trend.  Each is a
    function over the loaded rows; the dataframe is a sequence of `Txn`. */
module Dashboard {
  import opened Text
  import opened Seqs
  import opened Categories

  /** One loaded transaction, with the `category` column the dashboard adds.
      `monthKey` is the `month_year` text the loader derives from the date. */
  datatype Txn = Txn(desc: string, debit: real, credit: real, channel: string,
                     monthKey: string, category: string)

  function MonthOf(t: Txn): string { t.monthKey }
  function CategoryOf(t: Txn): string { t.category }
  function ChannelOf(t: Txn): string { t.channel }
  function DebitOf(t: Txn): real { t.debit }
  function CreditOf(t: Txn): real { t.credit }

  // ---------------------------------------------------------------------
  // The category column

  /** Every row carries the category of its description. */
  predicate Categorized(ts: seq<Txn>)
  {
    forall i :: 0 <= i < |ts| ==> ts[i].category == Categorize(ts[i].desc)
  }

  /** `df["category"] = df["description"].apply(categorize)`: the column is
      written into every row in place; nothing else in a row changes. */
  method AddCategories(a: array<Txn>)
    modifies a
    ensures forall i :: 0 <= i < a.Length ==> a[i] == old(a[i]).(category := Categorize(old(a[i]).desc))
    ensures Categorized(a[..])
  {
    for k := 0 to a.Length
      invariant forall i :: 0 <= i < k ==> a[i] == old(a[i]).(category := Categorize(old(a[i]).desc))
      invariant forall i :: k <= i < a.Length ==> a[i] == old(a[i])
    {
      a[k] := a[k].(category := Categorize(a[k].desc));
    }
  }

  // ---------------------------------------------------------------------
  // Keys: `unique()`, `sorted()` and Python's string order

  /** Python's `a <= b` on strings. */
  predicate Le(a: string, b: string)
  {
    !Less(b, a)
  }

  lemma {:induction false} LeTransitive(a: string, b: string, c: string)
    requires Le(a, b) && Le(b, c)
    ensures Le(a, c)
  {
    if Less(c, a) {
      if a == b {
      } else if b == c {
      } else {
        LessTotal(a, b);
        LessTotal(b, c);
        LessTransitive(a, b, c);
        LessAsymmetric(a, c);
      }
    }
  }

  predicate NoDup<T(==)>(s: seq<T>)
  {
    forall i, j :: 0 <= i < j < |s| ==> s[i] != s[j]
  }

  /** `Series.unique()`: the distinct values in order of first appearance. */
  function Distinct<T(==)>(s: seq<T>): seq<T>
  {
    if |s| == 0 then []
    else if s[|s| - 1] in s[..|s| - 1] then Distinct(s[..|s| - 1])
    else Distinct(s[..|s| - 1]) + [s[|s| - 1]]
  }

  /** `unique()` keeps every value once and invents none. */
  lemma {:induction false} DistinctSpec<T>(s: seq<T>)
    ensures NoDup(Distinct(s))
    ensures forall x :: x in Distinct(s) <==> x in s
  {
    if |s| > 0 {
      var init := s[..|s| - 1];
      DistinctSpec(init);
      assert s == init + [s[|s| - 1]];
    }
  }

  predicate Ascending(s: seq<string>)
  {
    forall i, j :: 0 <= i < j < |s| ==> Le(s[i], s[j])
  }

  /** Inserts `x` before the first element not below it. */
  function Insert(x: string, s: seq<string>): seq<string>
  {
    if |s| == 0 then [x]
    else if Le(x, s[0]) then [x] + s
    else [s[0]] + Insert(x, s[1..])
  }

  lemma {:induction false} InsertSpec(x: string, s: seq<string>)
    requires Ascending(s)
    ensures Ascending(Insert(x, s))
    ensures multiset(Insert(x, s)) == multiset(s) + multiset{x}
    decreases |s|, 1
  {
    if |s| == 0 {
    } else if Le(x, s[0]) {
      forall j | 0 <= j < |s|
        ensures Le(x, s[j])
      {
        if j > 0 {
          LeTransitive(x, s[0], s[j]);
        }
      }
      assert multiset([x] + s) == multiset{x} + multiset(s);
    } else {
      InsertLater(x, s);
    }
  }

  lemma {:induction false} InsertLater(x: string, s: seq<string>)
    requires Ascending(s) && |s| > 0 && !Le(x, s[0])
    ensures Ascending(Insert(x, s))
    ensures multiset(Insert(x, s)) == multiset(s) + multiset{x}
    decreases |s|, 0
  {
    var t := s[1..];
    assert Ascending(t) by {
      forall i, j | 0 <= i < j < |t|
        ensures Le(t[i], t[j])
      {
        assert t[i] == s[i + 1] && t[j] == s[j + 1];
      }
    }
    InsertSpec(x, t);
    var r := Insert(x, t);
    assert Le(s[0], x) by {
      LessAsymmetric(s[0], x);
    }
    assert forall j :: 0 <= j < |t| ==> Le(s[0], t[j]) by {
      forall j | 0 <= j < |t|
        ensures Le(s[0], t[j])
      {
        assert t[j] == s[j + 1];
      }
    }
    BoundStaysBelow(s[0], x, t, r);
    PrependAscending(s[0], r);
    assert s == [s[0]] + t;
    assert multiset([s[0]] + r) == multiset{s[0]} + multiset(r);
  }

  /** A lower bound of `t` and of `x` bounds any rearrangement of `t + [x]`. */
  lemma {:induction false} BoundStaysBelow(a: string, x: string, t: seq<string>, r: seq<string>)
    requires Le(a, x) && forall j :: 0 <= j < |t| ==> Le(a, t[j])
    requires multiset(r) == multiset(t) + multiset{x}
    ensures forall j :: 0 <= j < |r| ==> Le(a, r[j])
  {
    forall j | 0 <= j < |r|
      ensures Le(a, r[j])
    {
      var y := r[j];
      assert y in multiset(r);
      assert y == x || y in multiset(t);
      if y != x {
        var k :| 0 <= k < |t| && t[k] == y;
      }
    }
  }

  /** A lower bound put in front of an ascending sequence keeps it ascending. */
  lemma {:induction false} PrependAscending(a: string, r: seq<string>)
    requires Ascending(r) && forall j :: 0 <= j < |r| ==> Le(a, r[j])
    ensures Ascending([a] + r)
  {
    var u := [a] + r;
    forall i, j | 0 <= i < j < |u|
      ensures Le(u[i], u[j])
    {
      assert u[j] == r[j - 1];
      if i > 0 {
        assert u[i] == r[i - 1];
      }
    }
  }

  /** Python's `sorted()` on strings: an insertion sort. */
  function SortAsc(s: seq<string>): seq<string>
  {
    if |s| == 0 then [] else Insert(s[0], SortAsc(s[1..]))
  }

  /** `sorted()` returns its argument in ascending order, as a permutation. */
  lemma {:induction false} SortAscSpec(s: seq<string>)
    ensures Ascending(SortAsc(s))
    ensures multiset(SortAsc(s)) == multiset(s)
  {
    if |s| > 0 {
      SortAscSpec(s[1..]);
      InsertSpec(s[0], SortAsc(s[1..]));
      assert s == [s[0]] + s[1..];
    }
  }

  /** Sorting distinct keys gives each exactly once, in strictly ascending
      order. */
  lemma {:induction false} SortDistinct(s: seq<string>)
    requires NoDup(s)
    ensures var r := SortAsc(s);
      NoDup(r) && (forall x :: x in r <==> x in s)
      && forall i, j :: 0 <= i < j < |r| ==> Less(r[i], r[j])
  {
    var r := SortAsc(s);
    SortAscSpec(s);
    forall x
      ensures x in r <==> x in s
    {
      assert x in r <==> x in multiset(r);
      assert x in s <==> x in multiset(s);
    }
    NoDupMultiset(s);
    NoDupMultiset(r);
    forall i, j | 0 <= i < j < |r|
      ensures Less(r[i], r[j])
    {
      LessTotal(r[i], r[j]);
    }
  }

  /** No duplicates means every element occurs at most once. */
  lemma {:induction false} NoDupMultiset<T>(s: seq<T>)
    ensures NoDup(s) <==> forall x :: multiset(s)[x] <= 1
  {
    if |s| > 0 {
      var t := s[1..];
      NoDupMultiset(t);
      assert s == [s[0]] + t;
      assert multiset(s) == multiset{s[0]} + multiset(t);
      if NoDup(s) {
        assert NoDup(t) by {
          forall i, j | 0 <= i < j < |t|
            ensures t[i] != t[j]
          {
            assert t[i] == s[i + 1] && t[j] == s[j + 1];
          }
        }
        forall j | 0 <= j < |t|
          ensures t[j] != s[0]
        {
          assert t[j] == s[j + 1];
        }
      }
      if forall x :: multiset(s)[x] <= 1 {
        assert multiset(s)[s[0]] <= 1;
        assert s[0] !in multiset(t);
        forall x
          ensures multiset(t)[x] <= 1
        {
          assert multiset(s)[x] <= 1;
        }
        forall i, j | 0 <= i < j < |s|
          ensures s[i] != s[j]
        {
          if i == 0 {
            assert s[j] == t[j - 1];
          } else {
            assert s[i] == t[i - 1] && s[j] == t[j - 1];
          }
        }
      }
    }
  }

  function Reverse<T>(s: seq<T>): (r: seq<T>)
    ensures |r| == |s|
    ensures forall i :: 0 <= i < |s| ==> r[i] == s[|s| - 1 - i]
  {
    if |s| == 0 then [] else Reverse(s[1..]) + [s[0]]
  }

  /** `df[key].unique().tolist()`. */
  function KeysOf(ts: seq<Txn>, key: Txn -> string): (r: seq<string>)
    ensures |r| == |ts|
  {
    seq(|ts|, i requires 0 <= i < |ts| => key(ts[i]))
  }

  // ---------------------------------------------------------------------
  // Month selector and filter

  /** `["All"] + sorted(df["month_year"].unique().tolist(), reverse=True)`. */
  function MonthOptions(ts: seq<Txn>): seq<string>
  {
    ["All"] + Reverse(SortedKeys(ts, MonthOf))
  }

  /** A value is a key of the column exactly when some row has it. */
  lemma {:induction false} KeysOfMembers(ts: seq<Txn>, key: Txn -> string, k: string)
    ensures k in KeysOf(ts, key) <==> exists t :: t in ts && key(t) == k
  {
    var keys := KeysOf(ts, key);
    if k in keys {
      var n :| 0 <= n < |keys| && keys[n] == k;
      assert ts[n] in ts && key(ts[n]) == k;
    }
    if exists t :: t in ts && key(t) == k {
      var t :| t in ts && key(t) == k;
      var n :| 0 <= n < |ts| && ts[n] == t;
      assert keys[n] == k;
    }
  }

  /** The sorted distinct keys of a column, as `groupby` and the selector
      use them. */
  function SortedKeys(ts: seq<Txn>, key: Txn -> string): seq<string>
  {
    SortAsc(Distinct(KeysOf(ts, key)))
  }

  /** Each key of the column occurs once, in strictly ascending order, and
      only keys of the column occur. */
  lemma {:induction false} SortedKeysSpec(ts: seq<Txn>, key: Txn -> string)
    ensures var r := SortedKeys(ts, key);
      NoDup(r) && (forall i, j :: 0 <= i < j < |r| ==> Less(r[i], r[j]))
      && forall k :: k in r <==> exists t :: t in ts && key(t) == k
  {
    var keys := KeysOf(ts, key);
    DistinctSpec(keys);
    SortDistinct(Distinct(keys));
    forall k
      ensures k in SortedKeys(ts, key) <==> exists t :: t in ts && key(t) == k
    {
      KeysOfMembers(ts, key, k);
    }
  }

  /** The selector offers "All" first, then every month key of the data
      exactly once, newest (largest) first. */
  lemma {:induction false} MonthOptionsShape(ts: seq<Txn>)
    ensures var m := MonthOptions(ts);
      |m| >= 1 && m[0] == "All"
      && NoDup(m[1..])
      && (forall i, j :: 1 <= i < j < |m| ==> Less(m[j], m[i]))
      && (forall k :: k in m[1..] <==> exists t :: t in ts && t.monthKey == k)
  {
    var r := SortedKeys(ts, MonthOf);
    SortedKeysSpec(ts, MonthOf);
    var m := MonthOptions(ts);
    assert m[1..] == Reverse(r);
    ReverseStrict(r);
    forall k
      ensures k in m[1..] <==> exists t :: t in ts && t.monthKey == k
    {
      assert MonthOf.requires(Txn("", 0.0, 0.0, "", k, ""));
      assert (exists t :: t in ts && MonthOf(t) == k) <==> exists t :: t in ts && t.monthKey == k;
      ReverseMembers(r, k);
    }
    forall i, j | 1 <= i < j < |m|
      ensures Less(m[j], m[i])
    {
      assert m[i] == m[1..][i - 1] && m[j] == m[1..][j - 1];
    }
  }

  lemma {:induction false} ReverseMembers<T>(s: seq<T>, x: T)
    ensures x in Reverse(s) <==> x in s
  {
    if x in s {
      var i :| 0 <= i < |s| && s[i] == x;
      assert Reverse(s)[|s| - 1 - i] == x;
    }
  }

  /** Reversing a strictly ascending, duplicate-free list gives a strictly
      descending, duplicate-free one. */
  lemma {:induction false} ReverseStrict(r: seq<string>)
    requires NoDup(r) && forall i, j :: 0 <= i < j < |r| ==> Less(r[i], r[j])
    ensures var v := Reverse(r);
      NoDup(v) && forall i, j :: 0 <= i < j < |v| ==> Less(v[j], v[i])
  {
    var v := Reverse(r);
    forall i, j | 0 <= i < j < |v|
      ensures Less(v[j], v[i]) && v[i] != v[j]
    {
      assert v[i] == r[|r| - 1 - i] && v[j] == r[|r| - 1 - j];
    }
  }

  /** The row mask `df[key] == k`. */
  function KeyIs(key: Txn -> string, k: string): Txn -> bool
  {
    (t: Txn) => key(t) == k
  }

  /** The selected rows: all of them for "All", otherwise those of the
      selected month. */
  function FilterMonth(ts: seq<Txn>, sel: string): seq<Txn>
  {
    if sel == "All" then ts else Filter(ts, KeyIs(MonthOf, sel))
  }

  /** A row is kept exactly when "All" is selected or it belongs to the
      selected month, with all its occurrences. */
  lemma {:induction false} FilterMonthKeeps(ts: seq<Txn>, sel: string, x: Txn)
    ensures x in FilterMonth(ts, sel) <==> x in ts && (sel == "All" || x.monthKey == sel)
    ensures multiset(FilterMonth(ts, sel))[x]
         == if sel == "All" || x.monthKey == sel then multiset(ts)[x] else 0
  {
    if sel != "All" {
      FilterMembers(ts, KeyIs(MonthOf, sel), x);
      FilterMultiset(ts, KeyIs(MonthOf, sel), x);
    }
  }

  /** Filtering commutes with concatenation, so kept rows stay in their
      original order. */
  lemma {:induction false} FilterMonthOrder(a: seq<Txn>, b: seq<Txn>, sel: string)
    ensures FilterMonth(a + b, sel) == FilterMonth(a, sel) + FilterMonth(b, sel)
  {
    if sel != "All" {
      FilterConcat(a, b, KeyIs(MonthOf, sel));
    }
  }

  // ---------------------------------------------------------------------
  // KPI metrics

  /** `series.sum()` of one amount column. */
  function Total(ts: seq<Txn>, amount: Txn -> real): real
  {
    if |ts| == 0 then 0.0 else amount(ts[0]) + Total(ts[1..], amount)
  }

  lemma {:induction false} TotalConcat(a: seq<Txn>, b: seq<Txn>, amount: Txn -> real)
    ensures Total(a + b, amount) == Total(a, amount) + Total(b, amount)
  {
    if |a| > 0 {
      assert (a + b)[1..] == a[1..] + b;
      TotalConcat(a[1..], b, amount);
    } else {
      assert a + b == b;
    }
  }

  function TotalSpent(ts: seq<Txn>): real { Total(ts, DebitOf) }

  function TotalIncome(ts: seq<Txn>): real { Total(ts, CreditOf) }

  /** `net_flow = total_income - total_spent` over the selected rows. */
  function NetFlow(ts: seq<Txn>): real { TotalIncome(ts) - TotalSpent(ts) }

  /** Net flow adds up over consecutive stretches of rows. */
  lemma {:induction false} NetFlowConcat(a: seq<Txn>, b: seq<Txn>)
    ensures NetFlow(a + b) == NetFlow(a) + NetFlow(b)
  {
    TotalConcat(a, b, DebitOf);
    TotalConcat(a, b, CreditOf);
  }

  /** Net flow is income minus spending, row by row. */
  lemma {:induction false} NetFlowRows(ts: seq<Txn>)
    ensures NetFlow(ts) == Total(ts, (t: Txn) => t.credit - t.debit)
  {
    if |ts| > 0 {
      NetFlowRows(ts[1..]);
    }
  }

  predicate IsSaving(t: Txn) { t.category == "Savings" }
  predicate SavingOut(t: Txn) { IsSaving(t) && t.debit > 0.0 }
  predicate SavingIn(t: Txn) { IsSaving(t) && t.credit > 0.0 }

  /** Savings-category debits, over the whole dataset. */
  function SavingsOut(df: seq<Txn>): real { Total(Filter(df, SavingOut), DebitOf) }

  /** Savings-category credits, over the whole dataset. */
  function SavingsIn(df: seq<Txn>): real { Total(Filter(df, SavingIn), CreditOf) }

  /** `total_saved`: computed from the whole dataset, never from the month
      selection. */
  function TotalSaved(df: seq<Txn>): real { SavingsOut(df) - SavingsIn(df) }

  /** Keeping only positive amounts changes no sum of non-negative ones. */
  lemma {:induction false} PositiveGuardHarmless(ts: seq<Txn>, amount: Txn -> real, guarded: Txn -> bool)
    requires forall i :: 0 <= i < |ts| ==> amount(ts[i]) >= 0.0
    requires forall i :: 0 <= i < |ts| ==> (guarded(ts[i]) <==> IsSaving(ts[i]) && amount(ts[i]) > 0.0)
    ensures Total(Filter(ts, guarded), amount) == Total(Filter(ts, IsSaving), amount)
  {
    if |ts| > 0 {
      PositiveGuardHarmless(ts[1..], amount, guarded);
      var h := if guarded(ts[0]) then [ts[0]] else [];
      var g := if IsSaving(ts[0]) then [ts[0]] else [];
      TotalConcat(h, Filter(ts[1..], guarded), amount);
      TotalConcat(g, Filter(ts[1..], IsSaving), amount);
    }
  }

  /** With non-negative amounts, `total_saved` is the Savings debits minus
      the Savings credits: the `> 0` guards change neither sum. */
  lemma {:induction false} TotalSavedUnguarded(df: seq<Txn>)
    requires forall i :: 0 <= i < |df| ==> df[i].debit >= 0.0 && df[i].credit >= 0.0
    ensures TotalSaved(df) == Total(Filter(df, IsSaving), DebitOf) - Total(Filter(df, IsSaving), CreditOf)
  {
    PositiveGuardHarmless(df, DebitOf, SavingOut);
    PositiveGuardHarmless(df, CreditOf, SavingIn);
  }

  /** The debit guard never matters, since the loader's debits are never
      negative; the credit guard drops a negative credit such as "+-5". */
  lemma {:induction false} SavingsOutUnguarded(df: seq<Txn>)
    requires forall i :: 0 <= i < |df| ==> df[i].debit >= 0.0
    ensures SavingsOut(df) == Total(Filter(df, IsSaving), DebitOf)
  {
    PositiveGuardHarmless(df, DebitOf, SavingOut);
  }

  lemma {:induction false} NegativeCreditIgnored()
    ensures var t := Txn("Auto-save reversal", 0.0, -5.0, "APP", "2024-01", "Savings");
      SavingsIn([t]) == 0.0 && Total(Filter([t], IsSaving), CreditOf) == -5.0
  {
  }

  /** Spending 100 and earning 40 is a net flow of -60. */
  lemma {:induction false} NetFlowExample()
    ensures NetFlow([Txn("Transfer to John", 100.0, 0.0, "APP", "2024-01", "Transfers"),
                     Txn("Salary", 0.0, 40.0, "APP", "2024-01", "Other")]) == -60.0
  {
  }

  /** Saving 100 and withdrawing 40 from savings is a savings net of 60. */
  lemma {:induction false} TotalSavedExample()
    ensures TotalSaved([Txn("Auto-save to PiggyVest", 100.0, 0.0, "APP", "2024-01", "Savings"),
                        Txn("PiggyVest withdrawal", 0.0, 40.0, "APP", "2024-02", "Savings"),
                        Txn("Salary", 0.0, 500.0, "APP", "2024-02", "Other")]) == 60.0
  {
    var a := Txn("Auto-save to PiggyVest", 100.0, 0.0, "APP", "2024-01", "Savings");
    var b := Txn("PiggyVest withdrawal", 0.0, 40.0, "APP", "2024-02", "Savings");
    var c := Txn("Salary", 0.0, 500.0, "APP", "2024-02", "Other");
    var df := [a, b, c];
    assert df[1..] == [b, c] && [b, c][1..] == [c] && [c][1..] == [];
    assert SavingOut(a) && !SavingOut(b) && !SavingOut(c);
    assert !SavingIn(a) && SavingIn(b) && !SavingIn(c);
    assert Filter([c], SavingOut) == [] && Filter([c], SavingIn) == [];
    assert Filter([b, c], SavingOut) == [] && Filter([b, c], SavingIn) == [b];
    assert Filter(df, SavingOut) == [a] && Filter(df, SavingIn) == [b];
    assert [a][1..] == [] && [b][1..] == [];
    assert Total([a], DebitOf) == 100.0 && Total([b], CreditOf) == 40.0;
  }

  // ---------------------------------------------------------------------
  // Spending by category and by channel

  /** One row of a `groupby(key)[amount].sum()` result. */
  datatype Group = Group(key: string, total: real)

  /** The sum of `amount` over the rows whose key is `k`. */
  function SumFor(ts: seq<Txn>, key: Txn -> string, k: string, amount: Txn -> real): real
  {
    if |ts| == 0 then 0.0
    else (if key(ts[0]) == k then amount(ts[0]) else 0.0) + SumFor(ts[1..], key, k, amount)
  }

  /** A group's sum is the total of the rows a mask on the key selects. */
  lemma {:induction false} SumForIsMaskedTotal(ts: seq<Txn>, key: Txn -> string, k: string, amount: Txn -> real)
    ensures SumFor(ts, key, k, amount) == Total(Filter(ts, KeyIs(key, k)), amount)
  {
    if |ts| > 0 {
      SumForIsMaskedTotal(ts[1..], key, k, amount);
      var h := if key(ts[0]) == k then [ts[0]] else [];
      TotalConcat(h, Filter(ts[1..], KeyIs(key, k)), amount);
    }
  }

  /** The groups of the keys `ks`, in the order of `ks`. */
  function Grouped(ks: seq<string>, ts: seq<Txn>, key: Txn -> string, amount: Txn -> real): (r: seq<Group>)
    ensures |r| == |ks|
  {
    if |ks| == 0 then []
    else [Group(ks[0], SumFor(ts, key, ks[0], amount))] + Grouped(ks[1..], ts, key, amount)
  }

  function KeysOfGroups(gs: seq<Group>): (r: seq<string>)
    ensures |r| == |gs|
  {
    seq(|gs|, i requires 0 <= i < |gs| => gs[i].key)
  }

  /** The sum of a total column. */
  function TotalOfGroups(gs: seq<Group>): real
  {
    if |gs| == 0 then 0.0 else gs[0].total + TotalOfGroups(gs[1..])
  }

  /** Group `i` carries key `ks[i]` and the sum of that key's rows. */
  lemma {:induction false} GroupedEntries(ks: seq<string>, ts: seq<Txn>, key: Txn -> string, amount: Txn -> real)
    ensures forall i :: 0 <= i < |ks| ==>
      Grouped(ks, ts, key, amount)[i] == Group(ks[i], SumFor(ts, key, ks[i], amount))
  {
    if |ks| > 0 {
      GroupedEntries(ks[1..], ts, key, amount);
    }
  }

  lemma {:induction false} NoDupTail<T>(s: seq<T>)
    requires |s| > 0 && NoDup(s)
    ensures NoDup(s[1..]) && s[0] !in s[1..]
  {
    forall j | 0 <= j < |s| - 1
      ensures s[1..][j] != s[0]
    {
      assert s[1..][j] == s[j + 1];
    }
  }

  lemma {:induction false} GroupedNoRows(ks: seq<string>, key: Txn -> string, amount: Txn -> real)
    ensures TotalOfGroups(Grouped(ks, [], key, amount)) == 0.0
  {
    if |ks| > 0 {
      GroupedNoRows(ks[1..], key, amount);
    }
  }

  /** One more row adds its amount to exactly the one group of its key, if
      that key is listed. */
  lemma {:induction false} GroupedOneMore(ks: seq<string>, ts: seq<Txn>, key: Txn -> string, amount: Txn -> real)
    requires |ts| > 0 && NoDup(ks)
    ensures TotalOfGroups(Grouped(ks, ts, key, amount))
         == (if key(ts[0]) in ks then amount(ts[0]) else 0.0) + TotalOfGroups(Grouped(ks, ts[1..], key, amount))
  {
    if |ks| > 0 {
      NoDupTail(ks);
      GroupedOneMore(ks[1..], ts, key, amount);
    }
  }

  /** With every row's key listed exactly once, the group totals add up to
      the column total. */
  lemma {:induction false} GroupedTotal(ks: seq<string>, ts: seq<Txn>, key: Txn -> string, amount: Txn -> real)
    requires NoDup(ks) && forall i :: 0 <= i < |ts| ==> key(ts[i]) in ks
    ensures TotalOfGroups(Grouped(ks, ts, key, amount)) == Total(ts, amount)
  {
    if |ts| == 0 {
      GroupedNoRows(ks, key, amount);
    } else {
      GroupedOneMore(ks, ts, key, amount);
      GroupedTotal(ks, ts[1..], key, amount);
    }
  }

  predicate NonIncreasing(gs: seq<Group>)
  {
    forall i, j :: 0 <= i < j < |gs| ==> gs[i].total >= gs[j].total
  }

  /** Places `g` before the first group whose total is not above its own. */
  function InsertGroup(g: Group, gs: seq<Group>): seq<Group>
  {
    if |gs| == 0 then [g]
    else if g.total >= gs[0].total then [g] + gs
    else [gs[0]] + InsertGroup(g, gs[1..])
  }

  lemma {:induction false} InsertGroupSpec(g: Group, gs: seq<Group>)
    requires NonIncreasing(gs)
    ensures NonIncreasing(InsertGroup(g, gs))
    ensures multiset(InsertGroup(g, gs)) == multiset(gs) + multiset{g}
    decreases |gs|, 1
  {
    if |gs| > 0 && g.total < gs[0].total {
      InsertGroupLater(g, gs);
    } else if |gs| > 0 {
      assert multiset([g] + gs) == multiset{g} + multiset(gs);
    }
  }

  lemma {:induction false} InsertGroupLater(g: Group, gs: seq<Group>)
    requires NonIncreasing(gs) && |gs| > 0 && g.total < gs[0].total
    ensures NonIncreasing(InsertGroup(g, gs))
    ensures multiset(InsertGroup(g, gs)) == multiset(gs) + multiset{g}
    decreases |gs|, 0
  {
    var t := gs[1..];
    assert NonIncreasing(t) by {
      forall i, j | 0 <= i < j < |t|
        ensures t[i].total >= t[j].total
      {
        assert t[i] == gs[i + 1] && t[j] == gs[j + 1];
      }
    }
    InsertGroupSpec(g, t);
    var r := InsertGroup(g, t);
    assert forall j :: 0 <= j < |r| ==> gs[0].total >= r[j].total by {
      forall j | 0 <= j < |r|
        ensures gs[0].total >= r[j].total
      {
        BoundedByHead(gs, g, r, j);
      }
    }
    PrependNonIncreasing(gs[0], r);
    assert gs == [gs[0]] + t;
    assert multiset([gs[0]] + r) == multiset{gs[0]} + multiset(r);
  }

  lemma {:induction false} BoundedByHead(gs: seq<Group>, g: Group, r: seq<Group>, j: nat)
    requires NonIncreasing(gs) && |gs| > 0 && g.total < gs[0].total
    requires multiset(r) == multiset(gs[1..]) + multiset{g} && j < |r|
    ensures gs[0].total >= r[j].total
  {
    assert r[j] in multiset(r);
    if r[j] != g {
      assert r[j] in multiset(gs[1..]);
      var k :| 0 <= k < |gs[1..]| && gs[1..][k] == r[j];
      assert gs[k + 1] == r[j];
    }
  }

  lemma {:induction false} PrependNonIncreasing(h: Group, r: seq<Group>)
    requires NonIncreasing(r) && forall j :: 0 <= j < |r| ==> h.total >= r[j].total
    ensures NonIncreasing([h] + r)
  {
    var s := [h] + r;
    forall i, j | 0 <= i < j < |s|
      ensures s[i].total >= s[j].total
    {
      if i > 0 {
        assert s[i] == r[i - 1] && s[j] == r[j - 1];
      } else {
        assert s[j] == r[j - 1];
      }
    }
  }

  /** `sort_values(ascending=False)` on the total column. */
  function SortByTotal(gs: seq<Group>): seq<Group>
  {
    if |gs| == 0 then [] else InsertGroup(gs[0], SortByTotal(gs[1..]))
  }

  /** The sort returns its groups with totals in non-increasing order, as a
      permutation. */
  lemma {:induction false} SortByTotalSpec(gs: seq<Group>)
    ensures NonIncreasing(SortByTotal(gs))
    ensures multiset(SortByTotal(gs)) == multiset(gs)
  {
    if |gs| > 0 {
      SortByTotalSpec(gs[1..]);
      InsertGroupSpec(gs[0], SortByTotal(gs[1..]));
      assert gs == [gs[0]] + gs[1..];
    }
  }

  /** Rearranging the groups changes neither their keys nor their total. */
  lemma {:induction false} PermutedGroups(a: seq<Group>, b: seq<Group>)
    requires multiset(a) == multiset(b)
    ensures TotalOfGroups(a) == TotalOfGroups(b)
    ensures multiset(KeysOfGroups(a)) == multiset(KeysOfGroups(b))
    decreases |a|
  {
    if |a| > 0 {
      assert a[0] in multiset(b);
      var j :| 0 <= j < |b| && b[j] == a[0];
      var x, y := b[..j], b[j + 1..];
      SplitAt(b, j);
      CancelFirst(a, x, y);
      PermutedGroups(a[1..], x + y);
      RemoveGroupTotal(x, b[j], y);
      RemoveGroupKey(x, b[j], y);
      KeysOfGroupsFirst(a);
    } else {
      assert |multiset(b)| == 0;
    }
  }

  lemma {:induction false} SplitAt<T>(b: seq<T>, j: nat)
    requires j < |b|
    ensures b == b[..j] + ([b[j]] + b[j + 1..])
  {
  }

  lemma {:induction false} KeysOfGroupsFirst(a: seq<Group>)
    requires |a| > 0
    ensures multiset(KeysOfGroups(a)) == multiset{a[0].key} + multiset(KeysOfGroups(a[1..]))
  {
    assert KeysOfGroups(a) == [a[0].key] + KeysOfGroups(a[1..]);
  }

  /** Dropping the same element from both sides of a permutation. */
  lemma {:induction false} CancelFirst<T>(a: seq<T>, x: seq<T>, y: seq<T>)
    requires |a| > 0 && multiset(a) == multiset(x + ([a[0]] + y))
    ensures multiset(a[1..]) == multiset(x + y)
  {
    var m1, m2 := multiset(a[1..]), multiset(x + y);
    assert a == [a[0]] + a[1..];
    assert multiset(a) == multiset{a[0]} + m1;
    assert m2 == multiset(x) + multiset(y);
    assert multiset(x + ([a[0]] + y)) == multiset(x) + (multiset{a[0]} + multiset(y));
    forall z
      ensures m1[z] == m2[z]
    {
      assert multiset(a)[z] == multiset{a[0]}[z] + m1[z];
      assert multiset(a)[z] == multiset(x)[z] + multiset{a[0]}[z] + multiset(y)[z];
    }
  }

  /** Taking one group out of the middle removes its total and its key. */
  lemma {:induction false} RemoveGroupTotal(x: seq<Group>, g: Group, y: seq<Group>)
    ensures TotalOfGroups(x + ([g] + y)) == g.total + TotalOfGroups(x + y)
  {
    TotalOfGroupsConcat(x, [g] + y);
    TotalOfGroupsConcat(x, y);
    assert ([g] + y)[1..] == y;
  }

  lemma {:induction false} RemoveGroupKey(x: seq<Group>, g: Group, y: seq<Group>)
    ensures multiset(KeysOfGroups(x + ([g] + y))) == multiset{g.key} + multiset(KeysOfGroups(x + y))
  {
    KeysOfGroupsConcat(x, [g] + y);
    KeysOfGroupsConcat(x, y);
    KeysOfGroupsConcat([g], y);
    var kx, ky := KeysOfGroups(x), KeysOfGroups(y);
    assert KeysOfGroups([g]) == [g.key];
    assert multiset(kx + ([g.key] + ky)) == multiset(kx) + (multiset{g.key} + multiset(ky));
    assert multiset(kx + ky) == multiset(kx) + multiset(ky);
  }

  lemma {:induction false} KeysOfGroupsConcat(a: seq<Group>, b: seq<Group>)
    ensures KeysOfGroups(a + b) == KeysOfGroups(a) + KeysOfGroups(b)
  {
  }

  lemma {:induction false} TotalOfGroupsConcat(a: seq<Group>, b: seq<Group>)
    ensures TotalOfGroups(a + b) == TotalOfGroups(a) + TotalOfGroups(b)
  {
    if |a| > 0 {
      assert (a + b)[1..] == a[1..] + b;
      TotalOfGroupsConcat(a[1..], b);
    } else {
      assert a + b == b;
    }
  }

  /** `selection.groupby(key)["debit"].sum().sort_values(ascending=False)`. */
  function Summary(ts: seq<Txn>, key: Txn -> string): seq<Group>
  {
    SortByTotal(Grouped(SortedKeys(ts, key), ts, key, DebitOf))
  }

  function CategorySummary(ts: seq<Txn>): seq<Group> { Summary(ts, CategoryOf) }

  function ChannelSummary(ts: seq<Txn>): seq<Group> { Summary(ts, ChannelOf) }

  /** A summary has one entry per key of the selection, each holding the
      debits of that key's rows, in non-increasing order of total, and the
      totals add up to the selection's `total_spent`. */
  lemma {:induction false} SummarySpec(ts: seq<Txn>, key: Txn -> string)
    ensures var s := Summary(ts, key);
      NoDup(KeysOfGroups(s))
      && (forall k :: k in KeysOfGroups(s) <==> exists t :: t in ts && key(t) == k)
      && (forall i :: 0 <= i < |s| ==> s[i].total == SumFor(ts, key, s[i].key, DebitOf))
      && NonIncreasing(s)
      && TotalOfGroups(s) == TotalSpent(ts)
  {
    var ks := SortedKeys(ts, key);
    var g := Grouped(ks, ts, key, DebitOf);
    var s := Summary(ts, key);
    SortedKeysSpec(ts, key);
    SortByTotalSpec(g);
    PermutedGroups(s, g);
    GroupedEntries(ks, ts, key, DebitOf);
    assert KeysOfGroups(g) == ks;
    NoDupMultiset(ks);
    NoDupMultiset(KeysOfGroups(s));
    forall k
      ensures k in KeysOfGroups(s) <==> k in ks
    {
      assert k in KeysOfGroups(s) <==> k in multiset(KeysOfGroups(s));
      assert k in ks <==> k in multiset(ks);
    }
    forall i | 0 <= i < |s|
      ensures s[i].total == SumFor(ts, key, s[i].key, DebitOf)
    {
      assert s[i] in multiset(g);
      var j :| 0 <= j < |g| && g[j] == s[i];
    }
    forall i | 0 <= i < |ts|
      ensures key(ts[i]) in ks
    {
      assert ts[i] in ts;
    }
    GroupedTotal(ks, ts, key, DebitOf);
  }

  // ---------------------------------------------------------------------
  // Monthly trend

  /** One row of `df.groupby("month_year")[["debit", "credit"]].sum()`. */
  datatype Point = Point(month: string, debit: real, credit: real)

  function TrendRows(ks: seq<string>, df: seq<Txn>): (r: seq<Point>)
    ensures |r| == |ks|
    ensures forall i :: 0 <= i < |ks| ==>
      r[i] == Point(ks[i], SumFor(df, MonthOf, ks[i], DebitOf), SumFor(df, MonthOf, ks[i], CreditOf))
  {
    if |ks| == 0 then []
    else
      var p := Point(ks[0], SumFor(df, MonthOf, ks[0], DebitOf), SumFor(df, MonthOf, ks[0], CreditOf));
      [p] + TrendRows(ks[1..], df)
  }

  /** The trend of the whole dataset, in ascending month order. */
  function Trend(df: seq<Txn>): seq<Point>
  {
    TrendRows(SortedKeys(df, MonthOf), df)
  }

  function MonthsOf(ps: seq<Point>): (r: seq<string>)
    ensures |r| == |ps|
  {
    seq(|ps|, i requires 0 <= i < |ps| => ps[i].month)
  }

  function DebitColumn(ps: seq<Point>): real
  {
    if |ps| == 0 then 0.0 else ps[0].debit + DebitColumn(ps[1..])
  }

  function CreditColumn(ps: seq<Point>): real
  {
    if |ps| == 0 then 0.0 else ps[0].credit + CreditColumn(ps[1..])
  }

  lemma {:induction false} TrendColumns(ks: seq<string>, df: seq<Txn>)
    ensures DebitColumn(TrendRows(ks, df)) == TotalOfGroups(Grouped(ks, df, MonthOf, DebitOf))
    ensures CreditColumn(TrendRows(ks, df)) == TotalOfGroups(Grouped(ks, df, MonthOf, CreditOf))
  {
    if |ks| > 0 {
      TrendColumns(ks[1..], df);
    }
  }

  /** The trend has one point per month key of the dataset, months strictly
      ascending, and its columns add up to the dataset's total debit and
      total credit. */
  lemma {:induction false} TrendSpec(df: seq<Txn>)
    ensures var p := Trend(df);
      (forall i, j :: 0 <= i < j < |p| ==> Less(p[i].month, p[j].month))
      && (forall k :: k in MonthsOf(p) <==> exists t :: t in df && t.monthKey == k)
      && DebitColumn(p) == TotalSpent(df)
      && CreditColumn(p) == TotalIncome(df)
  {
    var ks := SortedKeys(df, MonthOf);
    var p := Trend(df);
    SortedKeysSpec(df, MonthOf);
    assert MonthsOf(p) == ks;
    forall k
      ensures k in ks <==> exists t :: t in df && t.monthKey == k
    {
      assert (exists t :: t in df && MonthOf(t) == k) <==> exists t :: t in df && t.monthKey == k;
    }
    forall i | 0 <= i < |df|
      ensures MonthOf(df[i]) in ks
    {
      assert df[i] in df;
    }
    TrendColumns(ks, df);
    GroupedTotal(ks, df, MonthOf, DebitOf);
    GroupedTotal(ks, df, MonthOf, CreditOf);
  }

  /** A trend point shows what the KPI row shows when its month is
      selected. */
  lemma {:induction false} TrendMatchesSelection(df: seq<Txn>, i: nat)
    requires i < |Trend(df)| && Trend(df)[i].month != "All"
    ensures var p := Trend(df)[i];
      p.debit == TotalSpent(FilterMonth(df, p.month)) && p.credit == TotalIncome(FilterMonth(df, p.month))
  {
    var m := Trend(df)[i].month;
    SumForIsMaskedTotal(df, MonthOf, m, DebitOf);
    SumForIsMaskedTotal(df, MonthOf, m, CreditOf);
  }
}
