/** String primitives shared by the loader and the dashboard, following
    Python's `str` methods on the subset of characters the model covers. */
module Text {

  /** The naira sign the bank export writes in headers and amounts. */
  const Naira: char := '\U{20A6}'

  /** Python's `str.isspace()`: the characters `str.strip()` removes and the
      regular-expression class `\s` matches. */
  predicate IsSpace(c: char)
  {
    ('\t' <= c <= '\r') || ('\U{1C}' <= c <= ' ') || c == '\U{85}' || c == '\U{A0}'
    || c == '\U{1680}' || ('\U{2000}' <= c <= '\U{200A}') || c == '\U{2028}' || c == '\U{2029}'
    || c == '\U{202F}' || c == '\U{205F}' || c == '\U{3000}'
  }

  /** Drops the leading whitespace. */
  function TrimLeft(s: string): (r: string)
    ensures |r| <= |s| && r == s[|s| - |r|..]
    ensures forall i :: 0 <= i < |s| - |r| ==> IsSpace(s[i])
    ensures |r| > 0 ==> !IsSpace(r[0])
  {
    if |s| > 0 && IsSpace(s[0]) then TrimLeft(s[1..]) else s
  }

  /** Drops the trailing whitespace. */
  function TrimRight(s: string): (r: string)
    ensures |r| <= |s| && r == s[..|r|]
    ensures forall i :: |r| <= i < |s| ==> IsSpace(s[i])
    ensures |r| > 0 ==> !IsSpace(r[|r| - 1])
  {
    if |s| > 0 && IsSpace(s[|s| - 1]) then TrimRight(s[..|s| - 1]) else s
  }

  /** Python's `str.strip()` with no argument. */
  function Strip(s: string): string
  {
    TrimRight(TrimLeft(s))
  }

  predicate NoSpace(s: string)
  {
    forall i :: 0 <= i < |s| ==> !IsSpace(s[i])
  }

  /** What `strip()` returns is a slice of its input with no whitespace at
      either end, and everything cut away is whitespace. */
  lemma {:induction false} StripShape(s: string)
    ensures var k, r := |s| - |TrimLeft(s)|, Strip(s);
      k + |r| <= |s| && r == s[k..k + |r|]
      && (forall i :: 0 <= i < k ==> IsSpace(s[i]))
      && (forall i :: k + |r| <= i < |s| ==> IsSpace(s[i]))
    ensures |Strip(s)| > 0 ==> !IsSpace(Strip(s)[0]) && !IsSpace(Strip(s)[|Strip(s)| - 1])
  {
    var l := TrimLeft(s);
    var k := |s| - |l|;
    assert Strip(s) == l[..|Strip(s)|];
    assert l[..|Strip(s)|] == s[k..k + |Strip(s)|];
  }

  /** A string with no whitespace at either end is left alone by `strip()`. */
  lemma {:induction false} StripOfTrimmed(s: string)
    requires |s| > 0 ==> !IsSpace(s[0]) && !IsSpace(s[|s| - 1])
    ensures Strip(s) == s
  {
  }

  /** `strip()` is idempotent. */
  lemma {:induction false} StripIdempotent(s: string)
    ensures Strip(Strip(s)) == Strip(s)
  {
    StripEnds(s);
    StripOfTrimmed(Strip(s));
  }

  /** What `strip()` returns has no whitespace at either end. */
  lemma {:induction false} StripEnds(s: string)
    ensures |Strip(s)| > 0 ==> !IsSpace(Strip(s)[0]) && !IsSpace(Strip(s)[|Strip(s)| - 1])
  {
    var l := TrimLeft(s);
    var r := TrimRight(l);
    if |r| > 0 {
      assert r[0] == l[0];
    }
  }

  /** ASCII case mapping; other scripts are left unchanged. */
  function LowerChar(c: char): char
  {
    if 'A' <= c <= 'Z' then (c as int + 32) as char else c
  }

  function UpperChar(c: char): char
  {
    if 'a' <= c <= 'z' then (c as int - 32) as char else c
  }

  /** Python's `str.lower()` on ASCII letters. */
  function Lower(s: string): (r: string)
    ensures |r| == |s|
  {
    seq(|s|, i requires 0 <= i < |s| => LowerChar(s[i]))
  }

  /** Python's `str.upper()` on ASCII letters. */
  function Upper(s: string): (r: string)
    ensures |r| == |s|
  {
    seq(|s|, i requires 0 <= i < |s| => UpperChar(s[i]))
  }

  predicate IsLower(s: string)
  {
    forall i :: 0 <= i < |s| ==> !('A' <= s[i] <= 'Z')
  }

  predicate IsUpper(s: string)
  {
    forall i :: 0 <= i < |s| ==> !('a' <= s[i] <= 'z')
  }

  /** Lower-casing leaves no upper-case letter, and lower-cased text is a
      fixed point; the same holds for upper-casing. */
  lemma {:induction false} CaseMappings(s: string)
    ensures IsLower(Lower(s)) && Lower(Lower(s)) == Lower(s)
    ensures IsUpper(Upper(s)) && Upper(Upper(s)) == Upper(s)
    ensures IsLower(s) ==> Lower(s) == s
    ensures IsUpper(s) ==> Upper(s) == s
    ensures Lower(Upper(s)) == Lower(s) && Upper(Lower(s)) == Upper(s)
  {
  }

  /** Case mapping never turns a non-space into whitespace or back. */
  lemma {:induction false} CaseKeepsSpaces(s: string)
    ensures forall i :: 0 <= i < |s| ==> (IsSpace(Upper(s)[i]) <==> IsSpace(s[i]))
    ensures forall i :: 0 <= i < |s| ==> (IsSpace(Lower(s)[i]) <==> IsSpace(s[i]))
  {
  }

  /** Python's `s.startswith(p)`. */
  predicate StartsWith(s: string, p: string)
  {
    |p| == 0 || (|s| > 0 && s[0] == p[0] && StartsWith(s[1..], p[1..]))
  }

  /** Python's `p in s` for strings: `p` is a substring of `s`. */
  predicate Contains(s: string, p: string)
  {
    StartsWith(s, p) || (|s| > 0 && Contains(s[1..], p))
  }

  lemma {:induction false} StartsWithAt(s: string, p: string, k: nat)
    requires StartsWith(s, p) && k < |p|
    ensures k < |s| && s[k] == p[k]
  {
    if k > 0 {
      StartsWithAt(s[1..], p[1..], k - 1);
    }
  }

  lemma {:induction false} StartsWithConcat(p: string, b: string)
    ensures StartsWith(p + b, p)
  {
    if |p| > 0 {
      assert (p + b)[1..] == p[1..] + b;
      StartsWithConcat(p[1..], b);
    }
  }

  /** Every character of a substring occurs in the string: a description
      lacking one letter of a keyword cannot contain the keyword. */
  lemma {:induction false} ContainsHasChar(s: string, p: string, k: nat)
    requires k < |p| && Contains(s, p)
    ensures p[k] in s
  {
    if StartsWith(s, p) {
      StartsWithAt(s, p, k);
    } else {
      ContainsHasChar(s[1..], p, k);
    }
  }

  /** A string contains whatever is spliced into it. */
  lemma {:induction false} ContainsSplice(a: string, p: string, b: string)
    ensures Contains(a + p + b, p)
  {
    if |a| == 0 {
      assert a + p + b == p + b;
      StartsWithConcat(p, b);
    } else {
      assert (a + p + b)[1..] == a[1..] + p + b;
      ContainsSplice(a[1..], p, b);
    }
  }

  /** Python's `s.replace(c, "")` for a one-character pattern. */
  function RemoveChar(s: string, c: char): string
  {
    if |s| == 0 then [] else (if s[0] == c then [] else [s[0]]) + RemoveChar(s[1..], c)
  }

  /** Removing a character that is not there changes nothing. */
  lemma {:induction false} RemoveAbsentChar(s: string, c: char)
    requires c !in s
    ensures RemoveChar(s, c) == s
  {
    if |s| > 0 {
      assert c !in s[1..];
      RemoveAbsentChar(s[1..], c);
      assert s == [s[0]] + s[1..];
    }
  }

  lemma {:induction false} RemoveCharConcat(a: string, b: string, c: char)
    ensures RemoveChar(a + b, c) == RemoveChar(a, c) + RemoveChar(b, c)
  {
    if |a| > 0 {
      assert (a + b)[1..] == a[1..] + b;
      RemoveCharConcat(a[1..], b, c);
    } else {
      assert a + b == b;
    }
  }

  /** Python's `<` on `str`: code-point lexicographic order. */
  predicate Less(a: string, b: string)
  {
    if |a| == 0 then |b| > 0
    else if |b| == 0 then false
    else a[0] < b[0] || (a[0] == b[0] && Less(a[1..], b[1..]))
  }

  lemma {:induction false} LessIrreflexive(a: string)
    ensures !Less(a, a)
  {
    if |a| > 0 {
      LessIrreflexive(a[1..]);
    }
  }

  lemma {:induction false} LessTransitive(a: string, b: string, c: string)
    requires Less(a, b) && Less(b, c)
    ensures Less(a, c)
  {
    if |a| > 0 && |b| > 0 && |c| > 0 && a[0] == b[0] == c[0] {
      LessTransitive(a[1..], b[1..], c[1..]);
    }
  }

  /** Two different strings are always ordered one way or the other. */
  lemma {:induction false} LessTotal(a: string, b: string)
    requires a != b
    ensures Less(a, b) || Less(b, a)
  {
    if |a| > 0 && |b| > 0 && a[0] == b[0] {
      assert a == [a[0]] + a[1..] && b == [b[0]] + b[1..];
      LessTotal(a[1..], b[1..]);
    }
  }

  lemma {:induction false} LessAsymmetric(a: string, b: string)
    requires Less(a, b)
    ensures !Less(b, a)
  {
    if |a| > 0 && |b| > 0 && a[0] == b[0] {
      LessAsymmetric(a[1..], b[1..]);
    }
  }
}
