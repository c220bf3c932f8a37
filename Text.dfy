/**
 * The string operations the SQL builders and the log-file rule are made of:
 * Python's `sep.join`, `str.split`, substring search (`in` on strings) and the
 * decimal rendering of numbers (`str(n)`, zero-padded date fields).
 */
module Text {
  import opened Wrappers

  /** Python's `sep.join(parts)`. */
  function Join(parts: seq<string>, sep: string): string
    decreases |parts|
  {
    if |parts| == 0 then ""
    else if |parts| == 1 then parts[0]
    else parts[0] + sep + Join(parts[1..], sep)
  }

  /** Joining one more part appends the separator and that part. */
  lemma {:induction false} JoinSnoc(parts: seq<string>, x: string, sep: string)
    requires |parts| > 0
    ensures Join(parts + [x], sep) == Join(parts, sep) + sep + x
    decreases |parts|
  {
    if |parts| == 1 {
      assert parts + [x] == [parts[0], x];
      assert [parts[0], x][1..] == [x];
    } else {
      assert (parts + [x])[1..] == parts[1..] + [x];
      JoinSnoc(parts[1..], x, sep);
    }
  }

  /** Joining three parts. */
  lemma JoinThree(a: string, b: string, c: string, sep: string)
    ensures Join([a, b, c], sep) == a + sep + b + sep + c
  {
    assert [a, b, c][1..] == [b, c];
    assert [b, c][1..] == [c];
    assert Join([b, c], sep) == b + sep + c;
    assert a + sep + (b + sep + c) == a + sep + b + sep + c;
  }

  /** Joining two more parts appends each after a separator. */
  lemma JoinAppendTwo(parts: seq<string>, x: string, y: string, sep: string)
    requires |parts| > 0
    ensures Join(parts + [x, y], sep) == Join(parts, sep) + sep + x + sep + y
  {
    JoinSnoc(parts, x, sep);
    JoinSnoc(parts + [x], y, sep);
    assert parts + [x, y] == parts + [x] + [y];
  }

  /** `pat` occurs in `s` starting at position `j`. */
  predicate MatchAt(s: string, pat: string, j: int)
  {
    0 <= j && j + |pat| <= |s| && s[j..j + |pat|] == pat
  }

  /** The position of the first occurrence of `pat` in `s`, if there is one. */
  function Find(s: string, pat: string): (r: Option<nat>)
    ensures r.Some? ==> MatchAt(s, pat, r.value)
    ensures r.Some? ==> forall j :: j < r.value ==> !MatchAt(s, pat, j)
    ensures r.None? ==> forall j :: !MatchAt(s, pat, j)
    decreases |s|
  {
    if |s| < |pat| then None
    else if s[..|pat|] == pat then Some(0)
    else
      var rest := Find(s[1..], pat);
      assert forall j :: MatchAt(s, pat, j) && j >= 1 ==> MatchAt(s[1..], pat, j - 1) by {
        forall j | MatchAt(s, pat, j) && j >= 1 ensures MatchAt(s[1..], pat, j - 1) {
          assert s[1..][j - 1..j - 1 + |pat|] == s[j..j + |pat|];
        }
      }
      assert !MatchAt(s, pat, 0);
      match rest
      case None => None
      case Some(k) =>
        assert s[1..][k..k + |pat|] == s[k + 1..k + 1 + |pat|];
        Some(k + 1)
  }

  /** Python's `pat in s` on strings. */
  predicate Contains(s: string, pat: string)
  {
    Find(s, pat).Some?
  }

  /** A string that lacks some character of `pat` cannot contain `pat`. */
  lemma MissingChar(s: string, pat: string, x: char)
    requires x in pat && x !in s
    ensures !Contains(s, pat)
  {
  }

  /**
   * No occurrence of `pat` can straddle the junction of `a` and `b` when a
   * character next to the junction is foreign to `pat`.
   */
  lemma NoSpan(a: string, b: string, pat: string)
    requires !Contains(a, pat) && !Contains(b, pat)
    requires (|a| > 0 && a[|a| - 1] !in pat) || (|b| > 0 && b[0] !in pat)
    ensures !Contains(a + b, pat)
  {
    var s := a + b;
    forall j | 0 <= j && j + |pat| <= |s|
      ensures !MatchAt(s, pat, j)
    {
      if j + |pat| <= |a| {
        assert s[j..j + |pat|] == a[j..j + |pat|];
        assert !MatchAt(a, pat, j);
      } else if j >= |a| {
        assert s[j..j + |pat|] == b[j - |a|..j - |a| + |pat|];
        assert !MatchAt(b, pat, j - |a|);
      } else if |a| > 0 && a[|a| - 1] !in pat {
        assert s[j..j + |pat|][|a| - 1 - j] == a[|a| - 1];
      } else {
        assert s[j..j + |pat|][|a| - j] == b[0];
      }
    }
  }

  /** `p` can be followed by `sep` without creating an earlier occurrence of `sep`. */
  predicate SafePart(p: string, sep: string)
  {
    |p| > 0 && !Contains(p, sep) && p[|p| - 1] !in sep
  }

  /** After a safe part, the first separator is the one that follows it. */
  lemma FindAfterPart(p: string, sep: string, rest: string)
    requires SafePart(p, sep)
    ensures Find(p + sep + rest, sep) == Some(|p|)
  {
    var s := p + sep + rest;
    assert s[|p|..|p| + |sep|] == sep;
    assert MatchAt(s, sep, |p|);
    forall j | 0 <= j < |p|
      ensures !MatchAt(s, sep, j)
    {
      if j + |sep| <= |p| {
        assert s[j..j + |sep|] == p[j..j + |sep|];
        assert !MatchAt(p, sep, j);
      } else {
        assert s[j..j + |sep|][|p| - 1 - j] == p[|p| - 1];
      }
    }
  }

  /** Python's `s.split(sep)` for a non-empty separator. */
  function Split(s: string, sep: string): (r: seq<string>)
    requires |sep| > 0
    ensures |r| > 0
    decreases |s|
  {
    match Find(s, sep)
    case None => [s]
    case Some(k) => [s[..k]] + Split(s[k + |sep|..], sep)
  }

  /**
   * Splitting a join gives the parts back, one per element, in order, when
   * each part but the last is safe and the last holds no separator.
   */
  lemma {:induction false} SplitJoin(parts: seq<string>, sep: string)
    requires |parts| > 0 && |sep| > 0
    requires forall i :: 0 <= i < |parts| - 1 ==> SafePart(parts[i], sep)
    requires !Contains(parts[|parts| - 1], sep)
    ensures Split(Join(parts, sep), sep) == parts
    decreases |parts|
  {
    if |parts| == 1 {
      assert Join(parts, sep) == parts[0];
    } else {
      var p, rest := parts[0], Join(parts[1..], sep);
      assert Join(parts, sep) == p + sep + rest;
      FindAfterPart(p, sep, rest);
      assert (p + sep + rest)[..|p|] == p;
      assert (p + sep + rest)[|p| + |sep|..] == rest;
      SplitJoin(parts[1..], sep);
      assert parts == [p] + parts[1..];
    }
  }

  /** A character occurs in a join only if it occurs in a part or in the separator. */
  lemma {:induction false} CharInJoin(parts: seq<string>, sep: string, c: char)
    requires forall i :: 0 <= i < |parts| ==> c !in parts[i]
    requires c !in sep
    ensures c !in Join(parts, sep)
    decreases |parts|
  {
    if |parts| > 1 {
      CharInJoin(parts[1..], sep, c);
    }
  }

  /** The character of decimal digit `d`. */
  function Digit(d: nat): (c: char)
    requires d < 10
    ensures '0' <= c <= '9'
  {
    ('0' as int + d) as char
  }

  predicate IsDigits(s: string)
  {
    forall i :: 0 <= i < |s| ==> '0' <= s[i] <= '9'
  }

  /** The number a string of decimal digits denotes. */
  function ValueOf(s: string): nat
    requires IsDigits(s)
    decreases |s|
  {
    if s == [] then 0
    else ValueOf(s[..|s| - 1]) * 10 + (s[|s| - 1] as int - '0' as int)
  }

  function Pow10(w: nat): (r: nat)
    ensures r >= 1
  {
    if w == 0 then 1 else 10 * Pow10(w - 1)
  }

  /** Python's `str(n)` for a natural number. */
  function NatToString(n: nat): (r: string)
    ensures |r| >= 1 && IsDigits(r)
    decreases n
  {
    if n < 10 then [Digit(n)] else NatToString(n / 10) + [Digit(n % 10)]
  }

  /** `str(n)` denotes `n`, so distinct numbers have distinct renderings. */
  lemma {:induction false} NatToStringValue(n: nat)
    ensures ValueOf(NatToString(n)) == n
    decreases n
  {
    if n >= 10 {
      var s := NatToString(n);
      assert s[..|s| - 1] == NatToString(n / 10);
      NatToStringValue(n / 10);
    }
  }

  lemma NatToStringInjective(n: nat, m: nat)
    requires NatToString(n) == NatToString(m)
    ensures n == m
  {
    NatToStringValue(n);
    NatToStringValue(m);
  }

  /** `n` rendered in exactly `w` decimal digits, zero-padded (the `%Y`, `%m`, `%d` fields). */
  function Digits(n: nat, w: nat): (r: string)
    ensures |r| == w && IsDigits(r)
    decreases w
  {
    if w == 0 then "" else Digits(n / 10, w - 1) + [Digit(n % 10)]
  }

  /** Zero-padded rendering loses nothing while the number fits the width. */
  lemma {:induction false} DigitsValue(n: nat, w: nat)
    requires n < Pow10(w)
    ensures ValueOf(Digits(n, w)) == n
    decreases w
  {
    if w > 0 {
      var s := Digits(n, w);
      assert s[..|s| - 1] == Digits(n / 10, w - 1);
      assert n / 10 < Pow10(w - 1);
      DigitsValue(n / 10, w - 1);
    }
  }

  /** Python's `s.split(pat)[0]`: the text before the first occurrence of `pat`, or all of `s`. */
  function BeforeFirst(s: string, pat: string): (r: string)
    ensures |r| <= |s| && r == s[..|r|]
    ensures Contains(s, pat) ==> MatchAt(s, pat, |r|) && forall j :: j < |r| ==> !MatchAt(s, pat, j)
    ensures !Contains(s, pat) ==> r == s
  {
    match Find(s, pat)
    case None => s
    case Some(k) => s[..k]
  }
}
