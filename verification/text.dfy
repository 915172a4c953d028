/**
 The handful of Python string operations the two scripts rely on, over
 `string` (a sequence of Unicode scalar values): whitespace stripping as
 `str.strip()` does it, `str.split(sep)`, `sep.join(parts)`, the `in`
 operator on strings, and the decimal rendering of `str(int)`.
 */
module Text {

  /** Python's `str.isspace()` for one character: the characters `str.strip()`
      with no argument removes. */
  predicate IsSpace(c: char) {
    || c == ' ' || c == '\t' || c == '\n' || c == '\r'
    || c == '\U{000B}' || c == '\U{000C}'
    || ('\U{001C}' <= c <= '\U{001F}')
    || c == '\U{0085}' || c == '\U{00A0}' || c == '\U{1680}'
    || ('\U{2000}' <= c <= '\U{200A}')
    || c == '\U{2028}' || c == '\U{2029}' || c == '\U{202F}' || c == '\U{205F}'
    || c == '\U{3000}'
  }

  predicate AllSpace(s: string) {
    forall i :: 0 <= i < |s| ==> IsSpace(s[i])
  }

  /** No whitespace at either end: what `str.strip()` returns. */
  predicate Stripped(s: string) {
    |s| == 0 || (!IsSpace(s[0]) && !IsSpace(s[|s| - 1]))
  }

  /** `str.lstrip()`: drops whitespace from the front. */
  function LStrip(s: string): string
    decreases |s|
  {
    if |s| > 0 && IsSpace(s[0]) then LStrip(s[1..]) else s
  }

  /** What `LStrip` returns is the longest suffix that does not start with
      whitespace. */
  lemma {:induction false} LStripSpec(s: string)
    ensures var r := LStrip(s);
            && |r| <= |s| && r == s[|s| - |r|..]
            && AllSpace(s[..|s| - |r|])
            && (|r| > 0 ==> !IsSpace(r[0]))
    decreases |s|
  {
    if |s| > 0 && IsSpace(s[0]) {
      LStripSpec(s[1..]);
    }
  }

  /** `str.rstrip()`: drops whitespace from the back. */
  function RStrip(s: string): string
    decreases |s|
  {
    if |s| > 0 && IsSpace(s[|s| - 1]) then RStrip(s[..|s| - 1]) else s
  }

  /** What `RStrip` returns is the longest prefix that does not end with
      whitespace. */
  lemma {:induction false} RStripSpec(s: string)
    ensures var r := RStrip(s);
            && |r| <= |s| && r == s[..|r|]
            && AllSpace(s[|r|..])
            && (|r| > 0 ==> !IsSpace(r[|r| - 1]))
    decreases |s|
  {
    if |s| > 0 && IsSpace(s[|s| - 1]) {
      RStripSpec(s[..|s| - 1]);
    }
  }

  /** `s` is `core` with only whitespace before (`i` characters) and after it. */
  predicate PaddedAt(s: string, core: string, i: int) {
    && 0 <= i <= |s| - |core|
    && core == s[i..i + |core|]
    && AllSpace(s[..i])
    && AllSpace(s[i + |core|..])
  }

  /** `str.strip()`: `s` with its leading and trailing whitespace cut off. */
  function Strip(s: string): (r: string)
    ensures Stripped(r)
    ensures |r| <= |s|
  {
    LStripSpec(s);
    RStripSpec(LStrip(s));
    RStrip(LStrip(s))
  }

  /** What `Strip` cuts off is whitespace, and only whitespace: the result is
      the window of `s` between two all-whitespace ends. */
  lemma StripPadding(s: string)
    ensures PaddedAt(s, Strip(s), |s| - |LStrip(s)|)
  {
    var l := LStrip(s);
    LStripSpec(s);
    RStripSpec(l);
    PaddedByParts(s, l, RStrip(l), |s| - |l|);
  }

  lemma PaddedByParts(s: string, l: string, r: string, i: int)
    requires 0 <= i <= |s| && l == s[i..] && AllSpace(s[..i])
    requires |r| <= |l| && r == l[..|r|] && AllSpace(l[|r|..])
    ensures PaddedAt(s, r, i)
  {
    assert r == s[i..i + |r|];
    forall m | i + |r| <= m < |s|
      ensures IsSpace(s[m])
    {
      assert s[m] == l[|r|..][m - i - |r|];
    }
  }

  /** The whitespace padding around a stripped string is all `Strip` removes:
      the decomposition `pad + core + pad` is unique. */
  lemma StripPadded(a: string, k: string, b: string)
    requires AllSpace(a) && AllSpace(b) && Stripped(k)
    ensures Strip(a + k + b) == k
  {
    if |k| == 0 {
      assert AllSpace(a + k + b);
      LStripAllSpace(a + k + b);
    } else {
      assert a + k + b == a + (k + b);
      LStripSpacePrefix(a, k + b);
      RStripSpaceSuffix(k, b);
    }
  }

  lemma LStripAllSpace(s: string)
    requires AllSpace(s)
    ensures LStrip(s) == ""
  {
    LStripSpec(s);
  }

  lemma {:induction false} LStripSpacePrefix(a: string, t: string)
    requires AllSpace(a)
    requires |t| > 0 && !IsSpace(t[0])
    ensures LStrip(a + t) == t
    decreases |a|
  {
    if |a| > 0 {
      assert (a + t)[1..] == a[1..] + t;
      LStripSpacePrefix(a[1..], t);
    } else {
      assert a + t == t;
    }
  }

  lemma {:induction false} RStripSpaceSuffix(t: string, b: string)
    requires AllSpace(b)
    requires |t| > 0 && !IsSpace(t[|t| - 1])
    ensures RStrip(t + b) == t
    decreases |b|
  {
    if |b| > 0 {
      assert (t + b)[..|t + b| - 1] == t + b[..|b| - 1];
      RStripSpaceSuffix(t, b[..|b| - 1]);
    } else {
      assert t + b == t;
    }
  }

  /** Stripping adds no character: one absent from `s` is absent from `Strip(s)`. */
  lemma StripKeepsAbsent(s: string, c: char)
    requires c !in s
    ensures c !in Strip(s)
  {
    StripPadding(s);
  }

  /** Stripping leaves nothing exactly when the string is all whitespace. */
  lemma StripEmptyIffAllSpace(s: string)
    ensures Strip(s) == "" <==> AllSpace(s)
  {
    StripPadding(s);
  }

  lemma StripOfStripped(k: string)
    requires Stripped(k)
    ensures Strip(k) == k
  {
    StripPadded("", k, "");
    assert "" + k + "" == k;
  }

  lemma StripIdempotent(s: string)
    ensures Strip(Strip(s)) == Strip(s)
  {
    StripOfStripped(Strip(s));
  }

  /** Python's `sep.join(parts)`. */
  function Join(parts: seq<string>, sep: string): string
    decreases |parts|
  {
    if |parts| == 0 then ""
    else if |parts| == 1 then parts[0]
    else parts[0] + sep + Join(parts[1..], sep)
  }

  /** Python's `s.split(sep)` for a one-character separator: the maximal
      separator-free runs of `s`, in order; always at least one piece, and
      joining the pieces back with the separator gives `s`. */
  function Split(s: string, sep: char): (r: seq<string>)
    ensures |r| >= 1
    ensures forall p :: p in r ==> sep !in p
    ensures Join(r, [sep]) == s
    decreases |s|
  {
    if |s| == 0 then [""]
    else
      var rest := Split(s[1..], sep);
      if s[0] == sep then
        assert Join([""] + rest, [sep]) == "" + [sep] + Join(rest, [sep]) by {
          assert ([""] + rest)[1..] == rest;
        }
        [""] + rest
      else
        var r := [[s[0]] + rest[0]] + rest[1..];
        assert Join(r, [sep]) == [s[0]] + Join(rest, [sep]) by {
          if |rest| > 1 {
            assert r[1..] == rest[1..];
          }
        }
        r
  }

  /** The other half of the round trip: splitting a join of separator-free
      pieces gives the pieces back. */
  lemma {:induction false} SplitJoin(parts: seq<string>, sep: char)
    requires |parts| >= 1
    requires forall p :: p in parts ==> sep !in p
    ensures Split(Join(parts, [sep]), sep) == parts
    decreases |parts|
  {
    if |parts| == 1 {
      SplitFree(parts[0], sep);
    } else {
      var tail := Join(parts[1..], [sep]);
      SplitJoin(parts[1..], sep);
      SplitPrefix(parts[0], tail, sep);
      assert [parts[0]] + parts[1..] == parts;
    }
  }

  /** A separator-free string splits into itself. */
  lemma {:induction false} SplitFree(p: string, sep: char)
    requires sep !in p
    ensures Split(p, sep) == [p]
    decreases |p|
  {
    if |p| > 0 {
      SplitFree(p[1..], sep);
      assert [p[0]] + p[1..] == p;
    }
  }

  /** Splitting `p + sep + t` for a separator-free `p` gives `p` then the
      pieces of `t`. */
  lemma {:induction false} SplitPrefix(p: string, t: string, sep: char)
    requires sep !in p
    ensures Split(p + [sep] + t, sep) == [p] + Split(t, sep)
    decreases |p|
  {
    var s := p + [sep] + t;
    if |p| == 0 {
      assert s[1..] == t;
    } else {
      assert s[1..] == p[1..] + [sep] + t;
      SplitPrefix(p[1..], t, sep);
      assert [p[0]] + p[1..] == p;
    }
  }

  /** `pat` occurs in `text` at offset `i`. */
  predicate WindowAt(text: string, pat: string, i: int) {
    0 <= i <= |text| - |pat| && text[i..i + |pat|] == pat
  }

  /** `pat in text` for strings: some window of `text` equals `pat`. */
  function Contains(text: string, pat: string): (b: bool)
    ensures b <==> exists i :: WindowAt(text, pat, i)
    decreases |text|
  {
    if pat <= text then
      assert WindowAt(text, pat, 0);
      true
    else if |text| == 0 then
      assert forall i :: !WindowAt(text, pat, i);
      false
    else
      var b := Contains(text[1..], pat);
      assert b ==> exists i :: WindowAt(text, pat, i) by {
        if b {
          var j :| WindowAt(text[1..], pat, j);
          assert WindowAt(text, pat, j + 1);
        }
      }
      assert (exists i :: WindowAt(text, pat, i)) ==> b by {
        if i :| WindowAt(text, pat, i) {
          assert i != 0;
          assert WindowAt(text[1..], pat, i - 1);
        }
      }
      b
  }

  /** The middle of a concatenation occurs in it. */
  lemma ContainsMiddle(a: string, m: string, b: string)
    ensures Contains(a + m + b, m)
  {
    assert (a + m + b)[|a|..|a| + |m|] == m;
    assert WindowAt(a + m + b, m, |a|);
  }

  /** Text appended after a window keeps it. */
  lemma ContainsExtendRight(x: string, q: string, m: string)
    requires Contains(x, m)
    ensures Contains(x + q, m)
  {
    var i :| WindowAt(x, m, i);
    assert (x + q)[i..i + |m|] == x[i..i + |m|];
    assert WindowAt(x + q, m, i);
  }

  /** The last part of a concatenation occurs in it. */
  lemma ContainsEnd(p: string, m: string)
    ensures Contains(p + m, m)
  {
    assert (p + m)[|p|..|p| + |m|] == m;
    assert WindowAt(p + m, m, |p|);
  }

  /** A window of a window is a window: `in` is transitive. */
  lemma ContainsTransitive(text: string, mid: string, pat: string)
    requires Contains(text, mid) && Contains(mid, pat)
    ensures Contains(text, pat)
  {
    var i :| WindowAt(text, mid, i);
    var j :| WindowAt(mid, pat, j);
    forall m | 0 <= m < |pat|
      ensures text[i + j..i + j + |pat|][m] == pat[m]
    {
      assert pat[m] == mid[j + m] == text[i + j + m];
    }
    assert WindowAt(text, pat, i + j);
  }

  predicate IsDigit(c: char) {
    '0' <= c <= '9'
  }

  /** Decimal digits of a natural number, most significant first, without
      leading zeros. */
  function NatToDigits(n: nat): (s: string)
    ensures |s| >= 1
    ensures forall i :: 0 <= i < |s| ==> IsDigit(s[i])
    ensures s[0] == '0' ==> n == 0
    ensures DigitsValue(s) == n
    decreases n
  {
    var d := [('0' as int + n % 10) as char];
    if n < 10 then d
    else
      var p := NatToDigits(n / 10);
      DigitsValueAppend(p, d);
      p + d
  }

  /** The value of a string of decimal digits. */
  function DigitsValue(s: string): nat
    decreases |s|
  {
    if |s| == 0 then 0
    else
      var last := s[|s| - 1] as int - '0' as int;
      DigitsValue(s[..|s| - 1]) * 10 + (if 0 <= last < 10 then last else 0)
  }

  lemma DigitsValueAppend(p: string, d: string)
    requires |d| == 1 && IsDigit(d[0])
    ensures DigitsValue(p + d) == DigitsValue(p) * 10 + (d[0] as int - '0' as int)
  {
    assert (p + d)[..|p + d| - 1] == p;
  }

  /** Python's `str(n)` for an `int`: a minus sign for negative numbers, then
      the decimal digits of the magnitude. */
  function IntToString(n: int): (s: string)
    ensures |s| >= 1
    ensures s[0] == '-' <==> n < 0
    ensures n < 0 ==> s[1..] == NatToDigits(-n)
    ensures n >= 0 ==> s == NatToDigits(n)
  {
    if n < 0 then "-" + NatToDigits(-n) else NatToDigits(n)
  }

  /** Distinct integers render as distinct strings. */
  lemma IntToStringInjective(a: int, b: int)
    requires IntToString(a) == IntToString(b)
    ensures a == b
  {
    var s := IntToString(a);
    if a < 0 {
      assert DigitsValue(s[1..]) == -a == -b;
    } else {
      assert DigitsValue(s) == a == b;
    }
  }
}
