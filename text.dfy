/**
 * The handful of Python string builtins the scraper relies on: `str.strip`,
 * `str.startswith`, the `in` substring test, `str.lower`/`str.upper`,
 * `str.split` on one character, `str.join`, `str(int)` and `int(str)`.
 */
module Text {
  import opened Wrappers

  /** Python's `str.isspace` for one code point: U+0009 to U+000D, U+001C to
      U+0020, U+0085, U+00A0, U+1680, U+2000 to U+200A, U+2028, U+2029, U+202F,
      U+205F and U+3000. */
  predicate IsSpace(c: char)
  {
    || '\U{9}' <= c <= '\U{D}'
    || '\U{1C}' <= c <= '\U{20}'
    || c == '\U{85}' || c == '\U{A0}' || c == '\U{1680}'
    || '\U{2000}' <= c <= '\U{200A}'
    || c == '\U{2028}' || c == '\U{2029}' || c == '\U{202F}' || c == '\U{205F}' || c == '\U{3000}'
  }

  /** Every character of `t` is white space. */
  predicate AllSpace(t: string)
    decreases |t|
  {
    t == [] || (IsSpace(t[0]) && AllSpace(t[1..]))
  }

  /** A concatenation is all white space exactly when both parts are. */
  lemma {:induction false} AllSpaceConcat(a: string, b: string)
    ensures AllSpace(a + b) <==> AllSpace(a) && AllSpace(b)
    decreases |a|
  {
    if a == [] {
      assert a + b == b;
    } else {
      assert (a + b)[0] == a[0];
      assert (a + b)[1..] == a[1..] + b;
      AllSpaceConcat(a[1..], b);
    }
  }

  /** `s.lstrip()`: the suffix of `s` left after dropping leading white space. */
  function StripLeft(s: string): (r: string)
    ensures |r| <= |s| && r == s[|s| - |r|..]
    ensures r == [] || !IsSpace(r[0])
    ensures AllSpace(s[..|s| - |r|])
    decreases |s|
  {
    if s == [] || !IsSpace(s[0]) then
      assert s[..0] == [];
      s
    else
      var r := StripLeft(s[1..]);
      var n := |s| - |r|;
      assert s[1..][n - 1..] == s[n..];
      assert s[..n] == [s[0]] + s[1..][..n - 1];
      AllSpaceConcat([s[0]], s[1..][..n - 1]);
      assert AllSpace([s[0]]) by { assert [s[0]][1..] == []; }
      r
  }

  /** `s.rstrip()`: the prefix of `s` left after dropping trailing white space. */
  function StripRight(s: string): (r: string)
    ensures |r| <= |s| && r == s[..|r|]
    ensures r == [] || !IsSpace(r[|r| - 1])
    ensures AllSpace(s[|r|..])
    decreases |s|
  {
    if s == [] || !IsSpace(s[|s| - 1]) then
      assert s[|s|..] == [];
      s
    else
      var init := s[..|s| - 1];
      var r := StripRight(init);
      assert init[..|r|] == s[..|r|];
      assert s[|r|..] == init[|r|..] + [s[|s| - 1]];
      AllSpaceConcat(init[|r|..], [s[|s| - 1]]);
      assert AllSpace([s[|s| - 1]]) by { assert [s[|s| - 1]][1..] == []; }
      r
  }

  /** `r` is the slice of `s` that starts at `i`, and only white space lies outside it. */
  predicate SliceWithinSpace(s: string, r: string, i: int)
  {
    0 <= i && i + |r| <= |s| && r == s[i..i + |r|] && AllSpace(s[..i]) && AllSpace(s[i + |r|..])
  }

  /** Cutting a white-space prefix and then a white-space suffix leaves a slice
      between white-space margins. */
  lemma TrimmedSlice(s: string, l: string, r: string)
    requires |l| <= |s| && l == s[|s| - |l|..] && AllSpace(s[..|s| - |l|])
    requires l == [] || !IsSpace(l[0])
    requires |r| <= |l| && r == l[..|r|] && AllSpace(l[|r|..])
    requires r == [] || !IsSpace(r[|r| - 1])
    ensures r == [] || (!IsSpace(r[0]) && !IsSpace(r[|r| - 1]))
    ensures SliceWithinSpace(s, r, |s| - |l|)
  {
    var i := |s| - |l|;
    assert s[i..][..|r|] == s[i..i + |r|];
    assert s[i + |r|..] == l[|r|..];
    assert r != [] ==> r[0] == l[0];
  }

  /** `s.strip()`: the slice of `s` between its white-space margins. */
  function Strip(s: string): (r: string)
    ensures r == [] || (!IsSpace(r[0]) && !IsSpace(r[|r| - 1]))
    ensures SliceWithinSpace(s, r, |s| - |StripLeft(s)|)
  {
    var l := StripLeft(s);
    var r := StripRight(l);
    TrimmedSlice(s, l, r);
    r
  }

  /** A string with no white space at either end is its own `strip()`. */
  lemma StripOfTrimmed(s: string)
    requires s == [] || (!IsSpace(s[0]) && !IsSpace(s[|s| - 1]))
    ensures Strip(s) == s
  {
  }

  /** `strip()` is idempotent. */
  lemma StripIdempotent(s: string)
    ensures Strip(Strip(s)) == Strip(s)
  {
    StripOfTrimmed(Strip(s));
  }

  /** `s.startswith(p)`. */
  predicate StartsWith(s: string, p: string)
  {
    |p| <= |s| && s[..|p|] == p
  }

  /** `t` occurs in `s` starting at position `i`. */
  predicate OccursAt(s: string, t: string, i: int)
  {
    0 <= i && i + |t| <= |s| && s[i..i + |t|] == t
  }

  /** Python's `t in s` for strings: `t` occurs at some position of `s`. */
  predicate Contains(s: string, t: string)
  {
    exists i | 0 <= i <= |s| :: OccursAt(s, t, i)
  }

  /** Occurrences of `t` survive being embedded in a larger string. */
  lemma ContainsInfix(a: string, t: string, b: string)
    ensures Contains(a + t + b, t)
  {
    var s := a + t + b;
    assert s[|a|..|a| + |t|] == t;
    assert OccursAt(s, t, |a|);
  }

  /** Text in front keeps an occurrence. */
  lemma ContainsAfterPrefix(p: string, m: string, t: string)
    requires Contains(m, t)
    ensures Contains(p + m, t)
  {
    var i :| 0 <= i <= |m| && OccursAt(m, t, i);
    assert (p + m)[|p| + i..|p| + i + |t|] == m[i..i + |t|];
    assert OccursAt(p + m, t, |p| + i);
  }

  /** A string that lacks the first character of `t` does not contain `t`. */
  lemma NotContainsWithoutFirst(s: string, t: string)
    requires t != [] && t[0] !in s
    ensures !Contains(s, t)
  {
    forall i | 0 <= i && i + |t| <= |s|
      ensures s[i..i + |t|][0] == s[i]
    {
    }
  }

  /** A prefix lacking the first character of `t` adds no occurrence of `t`. */
  lemma NotContainsAfterPrefix(p: string, m: string, t: string)
    requires t != [] && t[0] !in p && !Contains(m, t)
    ensures !Contains(p + m, t)
  {
    var s := p + m;
    forall i | 0 <= i && i + |t| <= |s|
      ensures s[i..i + |t|][0] == s[i]
    {
    }
    forall i | |p| <= i && i + |t| <= |s|
      ensures OccursAt(s, t, i) == OccursAt(m, t, i - |p|)
    {
      assert s[i..i + |t|] == m[i - |p|..i - |p| + |t|];
    }
  }

  /** One leading character adds no occurrence of `t` unless it and the next
      character are the first two of `t`. */
  lemma NotContainsAfterChar(c: char, m: string, t: string)
    requires |t| >= 2 && (c != t[0] || (m != [] && m[0] != t[1])) && !Contains(m, t)
    ensures !Contains([c] + m, t)
  {
    var s := [c] + m;
    if |t| <= |s| {
      assert s[..|t|][0] == s[0] && s[..|t|][1] == s[1];
    }
    forall i | 1 <= i && i + |t| <= |s|
      ensures OccursAt(s, t, i) == OccursAt(m, t, i - 1)
    {
      assert s[i..i + |t|] == m[i - 1..i - 1 + |t|];
    }
  }

  /** `c.lower()` for one character; only ASCII letters change. */
  function LowerChar(c: char): char
  {
    if 'A' <= c <= 'Z' then (c as int + 32) as char else c
  }

  /** `c.upper()` for one character; only ASCII letters change. */
  function UpperChar(c: char): char
  {
    if 'a' <= c <= 'z' then (c as int - 32) as char else c
  }

  /** `s.lower()`. */
  function Lower(s: string): (r: string)
    ensures |r| == |s|
  {
    seq(|s|, i requires 0 <= i < |s| => LowerChar(s[i]))
  }

  /** `s.upper()`. */
  function Upper(s: string): (r: string)
    ensures |r| == |s|
  {
    seq(|s|, i requires 0 <= i < |s| => UpperChar(s[i]))
  }

  /** Lower-casing works position by position, so it commutes with slicing. */
  lemma LowerSlice(s: string, i: int, j: int)
    requires 0 <= i <= j <= |s|
    ensures Lower(s[i..j]) == Lower(s)[i..j]
  {
  }

  /** `sep.join(parts)`. */
  function Join(sep: string, parts: seq<string>): string
    decreases |parts|
  {
    if |parts| == 0 then ""
    else if |parts| == 1 then parts[0]
    else parts[0] + sep + Join(sep, parts[1..])
  }

  /** `s.split(sep)` for a one-character separator; never an empty list. */
  function Split(s: string, sep: char): (r: seq<string>)
    ensures |r| >= 1
    ensures forall k :: 0 <= k < |r| ==> sep !in r[k]
    decreases |s|
  {
    if s == [] then [""]
    else if s[0] == sep then [""] + Split(s[1..], sep)
    else
      var rest := Split(s[1..], sep);
      [[s[0]] + rest[0]] + rest[1..]
  }

  /** Every occurrence of `c` in `s` replaced by `rep`: the reference for a split/join pair. */
  function Replace(s: string, c: char, rep: string): string
    decreases |s|
  {
    if s == [] then "" else (if s[0] == c then rep else [s[0]]) + Replace(s[1..], c, rep)
  }

  /** Joining a list with one more part in front puts that part and a separator first. */
  lemma JoinCons(sep: string, p: string, parts: seq<string>)
    requires |parts| >= 1
    ensures Join(sep, [p] + parts) == p + sep + Join(sep, parts)
  {
    assert ([p] + parts)[1..] == parts;
  }

  /** Extending the first part by a prefix extends the joined text by that prefix. */
  lemma JoinHeadExtend(sep: string, x: string, parts: seq<string>)
    requires |parts| >= 1
    ensures Join(sep, [x + parts[0]] + parts[1..]) == x + Join(sep, parts)
  {
    var q := [x + parts[0]] + parts[1..];
    if |parts| == 1 {
      assert q == [x + parts[0]];
    } else {
      assert q[1..] == parts[1..];
      assert (x + parts[0]) + sep + Join(sep, parts[1..]) == x + (parts[0] + sep + Join(sep, parts[1..]));
    }
  }

  /** `rep.join(s.split(c))` replaces each separator by `rep`. */
  lemma {:induction false} JoinSplitIsReplace(s: string, c: char, rep: string)
    ensures Join(rep, Split(s, c)) == Replace(s, c, rep)
    decreases |s|
  {
    if s != [] {
      var rest := Split(s[1..], c);
      var tail := Replace(s[1..], c, rep);
      JoinSplitIsReplace(s[1..], c, rep);
      if s[0] == c {
        assert Split(s, c) == [""] + rest;
        JoinCons(rep, "", rest);
        assert "" + rep + Join(rep, rest) == rep + tail;
        assert Replace(s, c, rep) == rep + tail;
      } else {
        assert Split(s, c) == [[s[0]] + rest[0]] + rest[1..];
        JoinHeadExtend(rep, [s[0]], rest);
        assert Replace(s, c, rep) == [s[0]] + tail;
      }
    }
  }

  /** Replacing a character by itself changes nothing. */
  lemma {:induction false} ReplaceBySelf(s: string, c: char)
    ensures Replace(s, c, [c]) == s
    decreases |s|
  {
    if s != [] {
      ReplaceBySelf(s[1..], c);
      assert s == [s[0]] + s[1..];
    }
  }

  /** Splitting on `c` and joining with `c` gives back the original string. */
  lemma SplitJoinRoundTrip(s: string, c: char)
    ensures Join([c], Split(s, c)) == s
  {
    JoinSplitIsReplace(s, c, [c]);
    ReplaceBySelf(s, c);
  }

  /** A piece without the separator splits into itself. */
  lemma {:induction false} SplitNoSeparator(p: string, c: char)
    requires c !in p
    ensures Split(p, c) == [p]
    decreases |p|
  {
    if p != [] {
      assert c !in p[1..];
      SplitNoSeparator(p[1..], c);
      assert [p[0]] + p[1..] == p;
    }
  }

  /** Splitting `p + [c] + rest` where `p` has no separator peels off `p`. */
  lemma {:induction false} SplitAfterPiece(p: string, c: char, rest: string)
    requires c !in p
    ensures Split(p + [c] + rest, c) == [p] + Split(rest, c)
    decreases |p|
  {
    var s := p + [c] + rest;
    if p == [] {
      assert s == [c] + rest;
      assert s[1..] == rest;
    } else {
      assert s[1..] == p[1..] + [c] + rest;
      assert c !in p[1..];
      SplitAfterPiece(p[1..], c, rest);
      assert [p[0]] + p[1..] == p;
    }
  }

  /** Joining pieces free of `c` with `c` and splitting on `c` gives back the pieces. */
  lemma {:induction false} JoinSplitRoundTrip(parts: seq<string>, c: char)
    requires |parts| >= 1
    requires forall k :: 0 <= k < |parts| ==> c !in parts[k]
    ensures Split(Join([c], parts), c) == parts
    decreases |parts|
  {
    if |parts| == 1 {
      SplitNoSeparator(parts[0], c);
    } else {
      JoinSplitRoundTrip(parts[1..], c);
      SplitAfterPiece(parts[0], c, Join([c], parts[1..]));
      assert [parts[0]] + parts[1..] == parts;
    }
  }

  /** The ASCII digit for `d`. */
  function DigitChar(d: nat): (c: char)
    requires d < 10
    ensures '0' <= c <= '9'
  {
    "0123456789"[d]
  }

  predicate IsDigit(c: char)
  {
    '0' <= c <= '9'
  }

  lemma DigitIsNotSpace(c: char)
    requires IsDigit(c)
    ensures !IsSpace(c)
  {
  }

  predicate AllDigits(s: string)
  {
    forall k :: 0 <= k < |s| ==> IsDigit(s[k])
  }

  /** The decimal numeral of a natural number, without leading zeros. */
  function NatToString(n: nat): (r: string)
    ensures |r| >= 1 && AllDigits(r)
    decreases n
  {
    if n < 10 then [DigitChar(n)] else NatToString(n / 10) + [DigitChar(n % 10)]
  }

  /** Python's `str(i)` (and `f"{i}"`) for an `int`. */
  function IntToString(i: int): (r: string)
    ensures |r| >= 1
    ensures forall k :: 0 <= k < |r| ==> r[k] == '-' || IsDigit(r[k])
  {
    if i < 0 then "-" + NatToString(-i) else NatToString(i)
  }

  /** The number a string of decimal digits denotes (leading zeros allowed). */
  function DigitsValue(s: string): nat
    requires AllDigits(s)
    decreases |s|
  {
    if s == [] then 0 else DigitsValue(s[..|s| - 1]) * 10 + (s[|s| - 1] as int - '0' as int)
  }

  /** Python's `int(s)` on decimal text: surrounding white space, an optional sign,
      one or more ASCII digits; anything else raises `ValueError`. */
  function ParseInt(s: string): (r: Option<int>)
    ensures r.Some? ==> |Strip(s)| >= 1
  {
    var t := Strip(s);
    if t == [] then None
    else
      var neg := t[0] == '-';
      var body := if t[0] == '-' || t[0] == '+' then t[1..] else t;
      if body == [] || !AllDigits(body) then None
      else
        var v: int := DigitsValue(body);
        Some(if neg then -v else v)
  }

  lemma {:induction false} DigitsValueOfNat(n: nat)
    ensures DigitsValue(NatToString(n)) == n
    decreases n
  {
    if n >= 10 {
      DigitsValueOfNat(n / 10);
      var s := NatToString(n);
      assert s[..|s| - 1] == NatToString(n / 10);
    }
  }

  /** `int(str(i)) == i`: the decimal rendering of any integer parses back to it. */
  lemma ParseIntOfIntToString(i: int)
    ensures ParseInt(IntToString(i)) == Some(i)
  {
    var s := IntToString(i);
    var n: nat := if i < 0 then -i else i;
    var digits := NatToString(n);
    assert s[|s| - 1] == digits[|digits| - 1];
    DigitIsNotSpace(s[|s| - 1]);
    if i >= 0 {
      DigitIsNotSpace(s[0]);
    }
    StripOfTrimmed(s);
    DigitsValueOfNat(n);
    if i < 0 {
      assert s[1..] == digits;
    }
  }
}
