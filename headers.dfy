/** Column-header normalisation of the bank export
    (src/load_bank_data.py, step 3): strip, lower-case, then replace every
    maximal run of whitespace, '/', '₦', '(' or ')' by one '_'. */
module Headers {
  import opened Text
  import opened Seqs

  /** The characters of the class `[\s/₦()]`. */
  predicate IsSep(c: char)
  {
    IsSpace(c) || c == '/' || c == Naira || c == '(' || c == ')'
  }

  predicate NoSep(s: string)
  {
    forall i :: 0 <= i < |s| ==> !IsSep(s[i])
  }

  /** `r` is made of separators only. */
  predicate AllSeps(r: string)
  {
    |r| == 0 || (IsSep(r[0]) && AllSeps(r[1..]))
  }

  /** Drops the leading run of separators. */
  function SkipSeps(s: string): (r: string)
    ensures |r| <= |s|
    ensures |r| > 0 ==> !IsSep(r[0])
  {
    if |s| > 0 && IsSep(s[0]) then SkipSeps(s[1..]) else s
  }

  /** What is left is a suffix of the text. */
  lemma {:induction false} SkipSepsSuffix(s: string)
    ensures SkipSeps(s) == s[|s| - |SkipSeps(s)|..]
  {
    if |s| > 0 && IsSep(s[0]) {
      SkipSepsSuffix(s[1..]);
    }
  }

  /** `re.sub(r"[\s/₦()]+", "_", s)`: each maximal run of separators becomes
      a single underscore. */
  function Collapse(s: string): string
    decreases |s|
  {
    if |s| == 0 then []
    else if IsSep(s[0]) then "_" + Collapse(SkipSeps(s[1..]))
    else [s[0]] + Collapse(s[1..])
  }

  /** The normalised form of one header. */
  function NormalizeHeader(h: string): string
  {
    Collapse(Lower(Strip(h)))
  }

  /** No separator survives the substitution. */
  lemma {:induction false} CollapseNoSep(s: string)
    ensures NoSep(Collapse(s))
    decreases |s|
  {
    if |s| > 0 {
      if IsSep(s[0]) {
        CollapseNoSep(SkipSeps(s[1..]));
      } else {
        CollapseNoSep(s[1..]);
      }
    }
  }

  /** Text without separators is left alone. */
  lemma {:induction false} CollapseFixed(s: string)
    requires NoSep(s)
    ensures Collapse(s) == s
  {
    if |s| > 0 {
      CollapseFixed(s[1..]);
    }
  }

  /** The substitution introduces no capital letter. */
  lemma {:induction false} CollapseKeepsLower(s: string)
    requires IsLower(s)
    ensures IsLower(Collapse(s))
    decreases |s|
  {
    if |s| > 0 {
      if IsSep(s[0]) {
        SkipSepsSuffix(s[1..]);
        CollapseKeepsLower(SkipSeps(s[1..]));
      } else {
        CollapseKeepsLower(s[1..]);
      }
    }
  }

  lemma {:induction false} SkipSepsConcat(x: string, y: string)
    requires |x| > 0 && !IsSep(x[|x| - 1])
    ensures SkipSeps(x + y) == SkipSeps(x) + y
  {
    if IsSep(x[0]) {
      assert (x + y)[1..] == x[1..] + y;
      SkipSepsConcat(x[1..], y);
    }
  }

  /** Skipping a leading run never reaches a final character that is not a
      separator. */
  lemma {:induction false} SkipSepsKeepsLast(s: string)
    requires |s| > 0 && !IsSep(s[|s| - 1])
    ensures |SkipSeps(s)| > 0 && SkipSeps(s)[|SkipSeps(s)| - 1] == s[|s| - 1]
  {
    if IsSep(s[0]) {
      assert |s| > 1;
      SkipSepsKeepsLast(s[1..]);
    }
  }

  /** Text that ends outside a separator run is normalised independently of
      what follows it. */
  lemma {:induction false} CollapseConcat(x: string, y: string)
    requires |x| > 0 && !IsSep(x[|x| - 1])
    ensures Collapse(x + y) == Collapse(x) + Collapse(y)
    decreases |x|
  {
    assert (x + y)[0] == x[0] && (x + y)[1..] == x[1..] + y;
    if IsSep(x[0]) {
      var t := SkipSeps(x[1..]);
      assert |x| > 1;
      SkipSepsKeepsLast(x[1..]);
      assert Collapse(x) == "_" + Collapse(t);
      SkipSepsConcat(x[1..], y);
      assert Collapse(x + y) == "_" + Collapse(t + y);
      CollapseConcat(t, y);
      Associative("_", Collapse(t), Collapse(y));
    } else if |x| == 1 {
      assert x[1..] == [] && x[1..] + y == y;
    } else {
      CollapseConcat(x[1..], y);
      Associative([x[0]], Collapse(x[1..]), Collapse(y));
    }
  }

  /** One maximal run of separators between two stretches of text becomes
      exactly one underscore, and the text on either side is normalised on
      its own. */
  lemma {:induction false} CollapseRun(a: string, r: string, b: string)
    requires |r| > 0 && AllSeps(r)
    requires |a| > 0 ==> !IsSep(a[|a| - 1])
    requires |b| > 0 ==> !IsSep(b[0])
    ensures Collapse(a + r + b) == Collapse(a) + ("_" + Collapse(b))
  {
    CollapseRunFirst(r, b);
    if |a| == 0 {
      assert a + r + b == r + b;
    } else {
      assert a + r + b == a + (r + b);
      CollapseConcat(a, r + b);
    }
  }

  lemma {:induction false} CollapseRunFirst(r: string, b: string)
    requires |r| > 0 && AllSeps(r)
    requires |b| > 0 ==> !IsSep(b[0])
    ensures Collapse(r + b) == "_" + Collapse(b)
  {
    var s := r + b;
    assert IsSep(s[0]) && AllSeps(r[1..]) by {
      assert s[0] == r[0];
    }
    assert Collapse(s) == "_" + Collapse(SkipSeps(s[1..]));
    assert s[1..] == r[1..] + b;
    SkipSepsAll(r[1..], b);
  }

  lemma {:induction false} SkipSepsAll(r: string, b: string)
    requires AllSeps(r)
    requires |b| > 0 ==> !IsSep(b[0])
    ensures SkipSeps(r + b) == b
  {
    if |r| > 0 {
      assert (r + b)[1..] == r[1..] + b;
      SkipSepsAll(r[1..], b);
    } else {
      assert r + b == b;
    }
  }

  /** A normalised header is lower-case and free of separators. */
  lemma {:induction false} NormalizedShape(h: string)
    ensures NoSep(NormalizeHeader(h)) && IsLower(NormalizeHeader(h))
  {
    CollapseNoSep(Lower(Strip(h)));
    CaseMappings(Strip(h));
    CollapseKeepsLower(Lower(Strip(h)));
  }

  /** Normalising twice gives the same header as normalising once. */
  lemma {:induction false} NormalizeIdempotent(h: string)
    ensures NormalizeHeader(NormalizeHeader(h)) == NormalizeHeader(h)
  {
    var n := NormalizeHeader(h);
    NormalizedShape(h);
    StripOfTrimmed(n);
    CaseMappings(n);
    CollapseFixed(n);
  }

  // The two headers of the bank export that the loader later relies on,
  // evaluated one step per lemma.

  lemma {:induction false} DebitCreditStripped()
    ensures Strip("Debit/Credit (\U{20A6})") == "Debit/Credit (\U{20A6})"
  {
    StripOfTrimmed("Debit/Credit (\U{20A6})");
  }

  lemma {:induction false} DebitCreditLowered()
    ensures Lower("Debit/Credit (\U{20A6})") == "debit/credit (\U{20A6})"
  {
  }

  /** Text, one separator run and more text. */
  lemma {:induction false} CollapseOneRun(a: string, r: string, b: string)
    requires |a| > 0 && NoSep(a) && NoSep(b)
    requires |r| > 0 && AllSeps(r)
    ensures Collapse(a + r + b) == a + "_" + b
  {
    assert Collapse(a + r + b) == Collapse(a) + ("_" + Collapse(b)) by {
      CollapseRun(a, r, b);
    }
    CollapseFixed(a);
    CollapseFixed(b);
  }

  /** Text, a separator run, more text and a trailing separator run. */
  lemma {:induction false} CollapseTwoRuns(a: string, r1: string, b: string, r2: string)
    requires |a| > 0 && |b| > 0 && NoSep(a) && NoSep(b)
    requires |r1| > 0 && AllSeps(r1) && |r2| > 0 && AllSeps(r2)
    ensures Collapse(a + r1 + (b + r2)) == a + "_" + b + "_"
  {
    assert Collapse(b + r2) == b + "_" by {
      assert b + r2 == b + r2 + "";
      CollapseOneRun(b, r2, "");
    }
    assert Collapse(a + r1 + (b + r2)) == Collapse(a) + ("_" + Collapse(b + r2)) by {
      CollapseRun(a, r1, b + r2);
    }
    CollapseFixed(a);
  }

  lemma {:induction false} DebitCreditPieces()
    ensures "debit/credit (\U{20A6})" == "debit" + "/" + ("credit" + " (\U{20A6})")
    ensures AllSeps("/") && AllSeps(" (\U{20A6})")
    ensures NoSep("debit") && NoSep("credit")
    ensures "debit" + "_" + "credit" + "_" == "debit_credit_"
  {
  }

  lemma {:induction false} DebitCreditHeader()
    ensures NormalizeHeader("Debit/Credit (\U{20A6})") == "debit_credit_"
  {
    DebitCreditStripped();
    DebitCreditLowered();
    DebitCreditPieces();
    CollapseTwoRuns("debit", "/", "credit", " (\U{20A6})");
  }

  lemma {:induction false} TransDateStripped()
    ensures Strip("Trans. Date") == "Trans. Date"
  {
    StripOfTrimmed("Trans. Date");
  }

  lemma {:induction false} TransDateLowered()
    ensures Lower("Trans. Date") == "trans. date"
  {
  }

  lemma {:induction false} TransDatePieces()
    ensures "trans. date" == "trans." + " " + "date"
    ensures AllSeps(" ") && NoSep("trans.") && NoSep("date")
    ensures "trans." + "_" + "date" == "trans._date"
  {
  }

  lemma {:induction false} TransDateHeader()
    ensures NormalizeHeader("Trans. Date") == "trans._date"
  {
    TransDateStripped();
    TransDateLowered();
    TransDatePieces();
    CollapseOneRun("trans.", " ", "date");
  }
}
