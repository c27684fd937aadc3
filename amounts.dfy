/** Parsing of the signed "Debit/Credit" amount column and of the balance
    text (src/load_bank_data.py, steps 6 and 7). Amounts are exact decimals. */
module Amounts {
  import opened Text
  import opened Options

  predicate IsDigit(c: char)
  {
    '0' <= c <= '9'
  }

  predicate AllDigits(s: string)
  {
    forall i :: 0 <= i < |s| ==> IsDigit(s[i])
  }

  /** The number written by `ds` (most significant digit first), continuing
      from the value `acc` of the digits already read. */
  function Horner(acc: nat, ds: string): nat
    requires AllDigits(ds)
    decreases |ds|
  {
    if |ds| == 0 then acc else Horner(acc * 10 + (ds[0] as int - '0' as int), ds[1..])
  }

  function DigitsValue(ds: string): nat
    requires AllDigits(ds)
  {
    Horner(0, ds)
  }

  function Pow10(n: nat): (p: nat)
    ensures p >= 1
  {
    if n == 0 then 1 else 10 * Pow10(n - 1)
  }

  /** Scaling by 10^a and then by 10^b is scaling by 10^(a+b). */
  lemma {:induction false} Pow10Add(a: nat, b: nat)
    ensures Pow10(a + b) == Pow10(a) * Pow10(b)
    decreases a
  {
    if a > 0 {
      Pow10Add(a - 1, b);
    }
  }

  /** Position of the first '.', or the length when there is none. */
  function FindDot(s: string): (k: nat)
    ensures k <= |s| && (k < |s| ==> s[k] == '.')
    ensures forall i :: 0 <= i < k ==> s[i] != '.'
  {
    if |s| == 0 || s[0] == '.' then 0 else 1 + FindDot(s[1..])
  }

  /** The value of the numeral with integer digits `whole` and fraction
      digits `frac`. */
  function DecimalValue(whole: string, frac: string): (m: real)
    requires AllDigits(whole) && AllDigits(frac)
    ensures m >= 0.0
  {
    DigitsValue(whole) as real + DigitsValue(frac) as real / Pow10(|frac|) as real
  }

  /** An unsigned decimal numeral: digits with at most one '.', and at least
      one digit (so "5." and ".5" are numbers, "" and "." are not). */
  function ParseUnsigned(body: string): (r: Option<real>)
    ensures r.Some? ==> r.value >= 0.0
  {
    var k := FindDot(body);
    var whole := body[..k];
    var frac := if k < |body| then body[k + 1..] else [];
    if AllDigits(whole) && AllDigits(frac) && |whole| + |frac| > 0 then
      Some(DecimalValue(whole, frac))
    else
      None
  }

  /** Python's `float()` restricted to plain decimal numerals with an
      optional sign. Exponents, "inf", "nan" and '_' separators are not part
      of the model. */
  function ParseDecimal(s: string): (r: Option<real>)
    ensures r.Some? ==> |s| > 0
    ensures r.Some? && s[0] == '-' ==> r.value <= 0.0
    ensures r.Some? && s[0] != '-' ==> r.value >= 0.0
  {
    if |s| > 0 && s[0] == '-' then
      match ParseUnsigned(s[1..])
      case Some(m) => Some(-m)
      case None => None
    else if |s| > 0 && s[0] == '+' then
      ParseUnsigned(s[1..])
    else
      ParseUnsigned(s)
  }

  /** `float(v)`: Python strips surrounding whitespace itself. */
  function ParseFloat(v: string): Option<real>
  {
    ParseDecimal(Strip(v))
  }

  /** `str(x).replace(",", "").replace("₦", "").strip()` */
  function CleanAmountText(x: string): string
  {
    Strip(RemoveChar(RemoveChar(x, ','), Naira))
  }

  function Abs(f: real): real
  {
    if f < 0.0 then -f else f
  }

  /** `extract_debit`: the magnitude of a '-'-prefixed amount, otherwise 0;
      a value that does not parse yields 0. */
  function ExtractDebit(x: string): (r: real)
    ensures r >= 0.0
    ensures r != 0.0 ==> StartsWith(CleanAmountText(x), "-")
    ensures ParseFloat(CleanAmountText(x)).None? ==> r == 0.0
  {
    var v := CleanAmountText(x);
    if StartsWith(v, "-") then
      match ParseFloat(v)
      case Some(f) => Abs(f)
      case None => 0.0
    else
      0.0
  }

  /** `extract_credit`: a '+'-prefixed amount parsed after deleting EVERY '+'
      in it, otherwise 0; a value that does not parse yields 0. */
  function ExtractCredit(x: string): (r: real)
    ensures r != 0.0 ==> StartsWith(CleanAmountText(x), "+")
    ensures ParseFloat(RemoveChar(CleanAmountText(x), '+')).None? ==> r == 0.0
  {
    var v := CleanAmountText(x);
    if StartsWith(v, "+") then
      match ParseFloat(RemoveChar(v, '+'))
      case Some(f) => f
      case None => 0.0
    else
      0.0
  }

  /** No cell is both a debit and a credit. */
  lemma {:induction false} DebitCreditExclusive(x: string)
    ensures ExtractDebit(x) == 0.0 || ExtractCredit(x) == 0.0
  {
  }

  /** The debit is the negation of the parsed value, which is never positive. */
  lemma {:induction false} DebitIsMagnitude(x: string)
    requires StartsWith(CleanAmountText(x), "-") && ParseFloat(CleanAmountText(x)).Some?
    ensures ParseFloat(CleanAmountText(x)).value <= 0.0
    ensures ExtractDebit(x) == -ParseFloat(CleanAmountText(x)).value
  {
    var v := CleanAmountText(x);
    StripIdempotent(RemoveChar(RemoveChar(x, ','), Naira));
    assert Strip(v) == v;
  }

  // The examples below evaluate the parser on literals one step per lemma,
  // which keeps each proof obligation small.

  lemma {:induction false} SplitDigitsExample()
    ensures FindDot("1234.56") == 4 && "1234.56"[..4] == "1234" && "1234.56"[5..] == "56"
  {
  }

  lemma {:induction false} ValueExample()
    ensures DecimalValue("1234", "56") == 1234.56
  {
    assert DigitsValue("1234") == 1234 && DigitsValue("56") == 56 && Pow10(2) == 100;
  }

  lemma {:induction false} UnsignedExample()
    ensures ParseUnsigned("1234.56") == Some(1234.56)
  {
    SplitDigitsExample();
    ValueExample();
  }

  /** `float()` of text with no surrounding whitespace reads it as it is. */
  lemma {:induction false} ParseTrimmed(v: string)
    requires |v| > 0 && !IsSpace(v[0]) && !IsSpace(v[|v| - 1])
    ensures ParseFloat(v) == ParseDecimal(v)
  {
    StripOfTrimmed(v);
  }

  lemma {:induction false} MinusShape()
    ensures |"-1234.56"| == 8 && "-1234.56"[1..] == "1234.56" && StartsWith("-1234.56", "-")
    ensures !IsSpace("-1234.56"[0]) && !IsSpace("-1234.56"[7]) && Naira !in "-1234.56"
  {
  }

  lemma {:induction false} SignedExample()
    ensures ParseFloat("-1234.56") == Some(-1234.56)
  {
    MinusShape();
    assert ParseDecimal("-1234.56") == Some(-1234.56) by {
      UnsignedExample();
    }
    ParseTrimmed("-1234.56");
  }

  /** Deleting the one occurrence of a character. */
  lemma {:induction false} RemoveOneChar(a: string, c: char, b: string)
    requires c !in a && c !in b
    ensures RemoveChar(a + [c] + b, c) == a + b
  {
    assert RemoveChar(a + [c], c) == a by {
      RemoveCharConcat(a, [c], c);
      RemoveAbsentChar(a, c);
      assert RemoveChar([c], c) == [] by {
        assert [c][1..] == [];
      }
      assert a + [] == a;
    }
    assert RemoveChar(a + [c] + b, c) == RemoveChar(a + [c], c) + RemoveChar(b, c) by {
      RemoveCharConcat(a + [c], b, c);
    }
    RemoveAbsentChar(b, c);
  }

  lemma {:induction false} CommaShape()
    ensures "-1,234.56" == "-1" + [','] + "234.56" && "-1" + "234.56" == "-1234.56"
    ensures ',' !in "-1" && ',' !in "234.56"
  {
  }

  lemma {:induction false} RemoveCommaExample()
    ensures RemoveChar("-1,234.56", ',') == "-1234.56"
  {
    CommaShape();
    RemoveOneChar("-1", ',', "234.56");
  }

  /** Cleaning text whose only separators are commas. */
  lemma {:induction false} CleanOf(x: string, y: string)
    requires RemoveChar(x, ',') == y && Naira !in y
    requires |y| > 0 ==> !IsSpace(y[0]) && !IsSpace(y[|y| - 1])
    ensures CleanAmountText(x) == y
  {
    RemoveAbsentChar(y, Naira);
    StripOfTrimmed(y);
  }

  /** Cleaning: the thousands separator goes, the sign stays. */
  lemma {:induction false} CleanDebitExample()
    ensures CleanAmountText("-1,234.56") == "-1234.56"
  {
    RemoveCommaExample();
    MinusShape();
    CleanOf("-1,234.56", "-1234.56");
  }

  /** A '-'-prefixed cleaned text that parses gives its magnitude. */
  lemma {:induction false} DebitOfParsed(x: string, v: string, f: real)
    requires CleanAmountText(x) == v && StartsWith(v, "-") && ParseFloat(v) == Some(f)
    ensures ExtractDebit(x) == Abs(f)
  {
  }

  lemma {:induction false} DebitExample()
    ensures ExtractDebit("-1,234.56") == 1234.56
  {
    CleanDebitExample();
    SignedExample();
    MinusShape();
    DebitOfParsed("-1,234.56", "-1234.56", -1234.56);
  }

  lemma {:induction false} CleanUnchanged(x: string)
    requires ',' !in x && Naira !in x && (|x| > 0 ==> !IsSpace(x[0]) && !IsSpace(x[|x| - 1]))
    ensures CleanAmountText(x) == x
  {
    RemoveAbsentChar(x, ',');
    RemoveAbsentChar(x, Naira);
    StripOfTrimmed(x);
  }

  lemma {:induction false} ParseFiveHundredExample()
    ensures ParseFloat("500") == Some(500.0)
  {
    assert ParseUnsigned("500") == Some(500.0) by {
      assert FindDot("500") == 3 && "500"[..3] == "500" && DigitsValue("500") == 500;
    }
    StripOfTrimmed("500");
  }

  lemma {:induction false} RemovePlusExample(p: string, s: string)
    requires p == "+" && '+' !in s
    ensures RemoveChar(p + s, '+') == s
  {
    RemoveCharConcat(p, s, '+');
    RemoveAbsentChar(s, '+');
  }

  /** A credit cell whose text is already clean: the credit is the parse of
      the text with its '+' signs deleted. */
  lemma {:induction false} CreditOfClean(x: string, body: string, f: real)
    requires x == ['+'] + body && '+' !in body
    requires ',' !in x && Naira !in x && !IsSpace(x[|x| - 1])
    requires ParseFloat(body) == Some(f)
    ensures ExtractCredit(x) == f
  {
    CleanUnchanged(x);
    assert StartsWith(x, "+") by {
      assert x[0] == '+' && |"+"[1..]| == 0;
    }
    assert RemoveChar(x, '+') == body by {
      RemovePlusExample("+", body);
    }
  }

  lemma {:induction false} PlusFiveHundredShape()
    ensures "+500" == ['+'] + "500" && '+' !in "500" && ',' !in "+500" && Naira !in "+500"
    ensures !IsSpace("+500"[3])
  {
  }

  lemma {:induction false} CreditExample()
    ensures ExtractCredit("+500") == 500.0
  {
    PlusFiveHundredShape();
    ParseFiveHundredExample();
    CreditOfClean("+500", "500", 500.0);
  }

  lemma {:induction false} GarbageExample()
    ensures ExtractDebit("garbage") == 0.0 && ExtractCredit("garbage") == 0.0
  {
    CleanUnchanged("garbage");
  }

  lemma {:induction false} ParseMinusFiveExample()
    ensures ParseFloat("-5") == Some(-5.0)
  {
    assert ParseUnsigned("5") == Some(5.0) by {
      assert FindDot("5") == 1 && "5"[..1] == "5" && DigitsValue("5") == 5;
    }
    assert "-5"[1..] == "5";
    StripOfTrimmed("-5");
  }

  /** Deleting every '+' lets a "+-" prefix through as a negative credit. */
  lemma {:induction false} PlusMinusFiveShape()
    ensures "+-5" == ['+'] + "-5" && '+' !in "-5" && ',' !in "+-5" && Naira !in "+-5"
    ensures !IsSpace("+-5"[2])
  {
  }

  lemma {:induction false} NegativeCreditExample()
    ensures ExtractCredit("+-5") == -5.0
  {
    PlusMinusFiveShape();
    ParseMinusFiveExample();
    CreditOfClean("+-5", "-5", -5.0);
  }

  // Rendering amounts as the export writes them, and parsing them back.

  function Digit(d: nat): (c: char)
    requires d < 10
    ensures IsDigit(c)
  {
    ('0' as int + d) as char
  }

  /** The decimal numeral of `n`, without leading zeros. */
  function ShowNat(n: nat): (s: string)
    ensures |s| > 0 && AllDigits(s)
    decreases n
  {
    if n < 10 then [Digit(n)] else ShowNat(n / 10) + [Digit(n % 10)]
  }

  /** An amount of `c` kobo written with two fraction digits, e.g. "1234.56". */
  function ShowCents(c: nat): string
  {
    var r := c % 100;
    ShowNat(c / 100) + "." + [Digit(r / 10), Digit(r % 10)]
  }

  lemma {:induction false} HornerSnoc(acc: nat, ds: string, c: char)
    requires AllDigits(ds) && IsDigit(c)
    ensures Horner(acc, ds + [c]) == Horner(acc, ds) * 10 + (c as int - '0' as int)
    decreases |ds|
  {
    if |ds| > 0 {
      assert (ds + [c])[1..] == ds[1..] + [c];
      HornerSnoc(acc * 10 + (ds[0] as int - '0' as int), ds[1..], c);
    } else {
      assert ds + [c] == [c];
      assert [c][1..] == [];
    }
  }

  /** Reading a rendered natural number gives the number back. */
  lemma {:induction false} ShowNatValue(n: nat)
    ensures DigitsValue(ShowNat(n)) == n
    decreases n
  {
    var d := Digit(n % 10);
    assert d as int - '0' as int == n % 10;
    if n >= 10 {
      ShowNatValue(n / 10);
      assert ShowNat(n) == ShowNat(n / 10) + [d];
      HornerSnoc(0, ShowNat(n / 10), d);
      assert (n / 10) * 10 + n % 10 == n;
    } else {
      assert ShowNat(n) == [d] && [d][1..] == [];
      assert Horner(0, [d]) == Horner(n, []);
    }
  }

  lemma {:induction false} TwoDigitsValue(r: nat)
    requires r < 100
    ensures DigitsValue([Digit(r / 10), Digit(r % 10)]) == r
  {
    var a, b := Digit(r / 10), Digit(r % 10);
    assert a as int - '0' as int == r / 10 && b as int - '0' as int == r % 10;
    assert [a, b][1..] == [b] && [b][1..] == [];
    assert Horner(0, [a, b]) == Horner(r / 10, [b]) == Horner((r / 10) * 10 + r % 10, []);
  }

  lemma {:induction false} FindDotConcat(a: string, b: string)
    requires forall i :: 0 <= i < |a| ==> a[i] != '.'
    ensures FindDot(a + "." + b) == |a|
  {
    if |a| > 0 {
      assert (a + "." + b)[1..] == a[1..] + "." + b;
      FindDotConcat(a[1..], b);
    } else {
      assert (a + "." + b)[0] == '.';
    }
  }

  /** A rendered amount parses back to the amount. */
  lemma {:induction false} ParseShowCents(c: nat)
    ensures ParseUnsigned(ShowCents(c)) == Some(c as real / 100.0)
  {
    var r := c % 100;
    var w, f := ShowNat(c / 100), [Digit(r / 10), Digit(r % 10)];
    var s := ShowCents(c);
    assert s == w + "." + f;
    FindDotConcat(w, f);
    assert s[..|w|] == w && s[|w| + 1..] == f;
    ShowNatValue(c / 100);
    TwoDigitsValue(r);
    assert Pow10(|f|) == 100;
    assert c == 100 * (c / 100) + r;
  }

  /** A rendered amount is digits and one '.', first and last a digit. */
  lemma {:induction false} ShowCentsShape(c: nat)
    ensures var s := ShowCents(c);
      |s| > 0 && IsDigit(s[0]) && IsDigit(s[|s| - 1])
      && forall i :: 0 <= i < |s| ==> s[i] == '.' || IsDigit(s[i])
  {
  }

  /** A sign followed by a rendered amount survives cleaning unchanged. */
  lemma {:induction false} SignedCentsClean(sign: char, c: nat)
    requires sign == '-' || sign == '+'
    ensures CleanAmountText([sign] + ShowCents(c)) == [sign] + ShowCents(c)
  {
    var s := ShowCents(c);
    var x := [sign] + s;
    ShowCentsShape(c);
    assert forall i :: 1 <= i < |x| ==> x[i] == s[i - 1];
    assert ',' !in x && Naira !in x;
    CleanUnchanged(x);
  }

  /** A '-' followed by an unsigned number parses to its negation. */
  lemma {:induction false} NegativeDecimal(s: string, f: real)
    requires |s| > 0 && s[0] == '-' && ParseUnsigned(s[1..]) == Some(f)
    ensures ParseDecimal(s) == Some(-f)
  {
  }

  /** A debit cell whose text is already clean: the debit is the magnitude
      of the parsed remainder after the sign. */
  lemma {:induction false} DebitOfClean(x: string, body: string, f: real)
    requires x == ['-'] + body && CleanAmountText(x) == x
    requires ParseUnsigned(body) == Some(f)
    ensures ExtractDebit(x) == f
  {
    assert StartsWith(x, "-") by {
      assert x[0] == '-' && |"-"[1..]| == 0;
    }
    assert ParseFloat(x) == Some(-f) by {
      assert Strip(x) == x by {
        StripIdempotent(RemoveChar(RemoveChar(x, ','), Naira));
      }
      assert x[1..] == body;
      NegativeDecimal(x, f);
    }
    DebitOfParsed(x, x, -f);
  }

  /** `extract_debit` recovers the amount of any rendered outflow. */
  lemma {:induction false} DebitRoundTrip(c: nat)
    ensures ExtractDebit("-" + ShowCents(c)) == c as real / 100.0
  {
    var s := ShowCents(c);
    assert "-" + s == ['-'] + s;
    SignedCentsClean('-', c);
    ParseShowCents(c);
    DebitOfClean("-" + s, s, c as real / 100.0);
  }

  /** `extract_credit` recovers the amount of any rendered inflow. */
  lemma {:induction false} CreditRoundTrip(c: nat)
    ensures ExtractCredit("+" + ShowCents(c)) == c as real / 100.0
  {
    var s := ShowCents(c);
    var x := "+" + s;
    var f := c as real / 100.0;
    assert x == ['+'] + s;
    assert ',' !in x && Naira !in x && !IsSpace(x[|x| - 1]) && '+' !in s by {
      ShowCentsShape(c);
      assert forall i :: 1 <= i < |x| ==> x[i] == s[i - 1];
    }
    assert ParseFloat(s) == Some(f) by {
      ShowCentsShape(c);
      StripOfTrimmed(s);
      ParseShowCents(c);
    }
    CreditOfClean(x, s, f);
  }
}
