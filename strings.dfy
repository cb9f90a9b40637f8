/** The string operations the engine uses to build identifiers: decimal
    rendering of an index (`str(i)`), zero padding (`str.zfill`), joining,
    stripping, replacing, and Python slicing with negative bounds. */
module Strings {

  function DigitChar(d: nat): (c: char)
    requires d < 10
    ensures '0' <= c <= '9'
  {
    ['0', '1', '2', '3', '4', '5', '6', '7', '8', '9'][d]
  }

  predicate IsDigit(c: char) { '0' <= c <= '9' }

  function DigitValue(c: char): nat
    requires IsDigit(c)
  {
    (c as int) - ('0' as int)
  }

  /** `str(n)` for a non-negative integer: decimal digits, no leading zero. */
  function NatToString(n: nat): (s: string)
    ensures |s| >= 1
    ensures forall k :: 0 <= k < |s| ==> IsDigit(s[k])
    ensures |s| > 1 ==> s[0] != '0'
  {
    if n < 10 then [DigitChar(n)] else NatToString(n / 10) + [DigitChar(n % 10)]
  }

  /** The number a string of decimal digits denotes (leading zeros allowed). */
  function DecimalValue(s: string): nat
    requires forall k :: 0 <= k < |s| ==> IsDigit(s[k])
  {
    if s == [] then 0 else DecimalValue(s[..|s| - 1]) * 10 + DigitValue(s[|s| - 1])
  }

  function Repeat(c: char, n: nat): (s: string)
    ensures |s| == n && forall k :: 0 <= k < n ==> s[k] == c
  {
    if n == 0 then [] else Repeat(c, n - 1) + [c]
  }

  /** `s.zfill(width)` for a string without a sign: left-pad with '0' to `width`. */
  function ZFill(s: string, width: int): (r: string)
    ensures |s| >= width ==> r == s
    ensures |s| < width ==> |r| == width
    ensures exists z: nat :: r == Repeat('0', z) + s
  {
    if |s| >= width then
      assert s == Repeat('0', 0) + s;
      s
    else Repeat('0', width - |s|) + s
  }

  lemma {:induction false} DecimalOfNatToString(n: nat)
    ensures DecimalValue(NatToString(n)) == n
  {
    if n >= 10 {
      var s := NatToString(n / 10);
      var t := NatToString(n);
      assert t == s + [DigitChar(n % 10)];
      assert t[..|t| - 1] == s;
      DecimalOfNatToString(n / 10);
    }
  }

  lemma {:induction false} DecimalOfZeros(z: nat)
    ensures DecimalValue(Repeat('0', z)) == 0
  {
    if z > 0 {
      assert Repeat('0', z)[..z - 1] == Repeat('0', z - 1);
      DecimalOfZeros(z - 1);
    }
  }

  /** Leading zeros do not change the value of a digit string. */
  lemma {:induction false} DecimalIgnoresLeadingZeros(z: nat, s: string)
    requires forall k :: 0 <= k < |s| ==> IsDigit(s[k])
    ensures var p := Repeat('0', z) + s;
            (forall k :: 0 <= k < |p| ==> IsDigit(p[k])) && DecimalValue(p) == DecimalValue(s)
  {
    var p := Repeat('0', z) + s;
    if s == [] {
      assert p == Repeat('0', z);
      DecimalOfZeros(z);
    } else {
      var s' := s[..|s| - 1];
      DecimalIgnoresLeadingZeros(z, s');
      assert p[..|p| - 1] == Repeat('0', z) + s';
    }
  }

  /** `str(i).zfill(width)` determines `i`: distinct indices get distinct labels. */
  lemma PaddedIndexInjective(i: nat, j: nat, width: int)
    requires ZFill(NatToString(i), width) == ZFill(NatToString(j), width)
    ensures i == j
  {
    var zi: nat :| ZFill(NatToString(i), width) == Repeat('0', zi) + NatToString(i);
    var zj: nat :| ZFill(NatToString(j), width) == Repeat('0', zj) + NatToString(j);
    DecimalIgnoresLeadingZeros(zi, NatToString(i));
    DecimalIgnoresLeadingZeros(zj, NatToString(j));
    DecimalOfNatToString(i);
    DecimalOfNatToString(j);
  }

  /** `sep.join(parts)`. */
  function Join(sep: string, parts: seq<string>): string
  {
    if parts == [] then ""
    else if |parts| == 1 then parts[0]
    else Join(sep, parts[..|parts| - 1]) + sep + parts[|parts| - 1]
  }

  /** `s.rstrip(c)`: drop every trailing `c`. */
  function RStrip(s: string, c: char): (r: string)
    ensures |r| <= |s| && r == s[..|r|]
    ensures r == [] || r[|r| - 1] != c
    ensures forall k :: |r| <= k < |s| ==> s[k] == c
  {
    if s != [] && s[|s| - 1] == c then RStrip(s[..|s| - 1], c) else s
  }

  /** `s.lstrip(c)`: drop every leading `c`. */
  function LStrip(s: string, c: char): (r: string)
    ensures |r| <= |s| && r == s[|s| - |r|..]
    ensures r == [] || r[0] != c
    ensures forall k :: 0 <= k < |s| - |r| ==> s[k] == c
  {
    if s != [] && s[0] == c then LStrip(s[1..], c) else s
  }

  /** `s.strip(c)`. */
  function Strip(s: string, c: char): string
  {
    LStrip(RStrip(s, c), c)
  }

  /** `s.replace(pattern, "")`: delete every non-overlapping occurrence, left to right.
      An empty pattern leaves `s` unchanged (Python inserts "" everywhere). */
  function RemoveAll(s: string, pattern: string): (r: string)
    ensures |r| <= |s|
    decreases |s|
  {
    if pattern == [] || |s| < |pattern| then s
    else if s[..|pattern|] == pattern then RemoveAll(s[|pattern|..], pattern)
    else [s[0]] + RemoveAll(s[1..], pattern)
  }

  /** `pattern` occurs in `s` starting at position `i`. */
  predicate OccursAt(s: string, pattern: string, i: int)
  {
    0 <= i && i + |pattern| <= |s| && s[i..i + |pattern|] == pattern
  }

  /** Text in which no occurrence starts is kept as it is, and the deletion
      goes on after it. */
  lemma {:induction false} RemoveAllKeepsPrefix(a: string, rest: string, pattern: string)
    requires pattern != []
    requires forall i :: 0 <= i < |a| ==> !OccursAt(a + rest, pattern, i)
    ensures RemoveAll(a + rest, pattern) == a + RemoveAll(rest, pattern)
    decreases |a|
  {
    if a != [] {
      var s := a + rest;
      assert !OccursAt(s, pattern, 0);
      if |s| >= |pattern| {
        assert s[1..] == a[1..] + rest;
        forall i | 0 <= i < |a| - 1 ensures !OccursAt(a[1..] + rest, pattern, i) {
          assert !OccursAt(s, pattern, i + 1);
          if i + |pattern| <= |s| - 1 {
            assert (a[1..] + rest)[i..i + |pattern|] == s[i + 1..i + 1 + |pattern|];
          }
        }
        assert s[..|pattern|] != pattern by { assert s[0..|pattern|] == s[..|pattern|]; }
        assert RemoveAll(s, pattern) == [s[0]] + RemoveAll(s[1..], pattern);
        RemoveAllKeepsPrefix(a[1..], rest, pattern);
        assert [s[0]] + a[1..] == a;
      }
    } else {
      assert a + rest == rest;
    }
  }

  /** With no occurrence of the pattern, `replace(pattern, "")` changes nothing. */
  lemma RemoveAllAbsent(s: string, pattern: string)
    requires pattern != []
    requires forall i :: 0 <= i < |s| ==> !OccursAt(s, pattern, i)
    ensures RemoveAll(s, pattern) == s
  {
    assert s + [] == s;
    RemoveAllKeepsPrefix(s, [], pattern);
  }

  /** A single occurrence is cut out and the text on both sides is kept. */
  lemma RemoveAllOnce(a: string, pattern: string, b: string)
    requires pattern != []
    requires forall i :: 0 <= i < |a + pattern + b| && i != |a| ==> !OccursAt(a + pattern + b, pattern, i)
    ensures RemoveAll(a + pattern + b, pattern) == a + b
  {
    var s := a + pattern + b;
    assert s == a + (pattern + b);
    RemoveAllKeepsPrefix(a, pattern + b, pattern);
    assert (pattern + b)[..|pattern|] == pattern;
    assert (pattern + b)[|pattern|..] == b;
    forall i | 0 <= i < |b| ensures !OccursAt(b, pattern, i) {
      assert !OccursAt(s, pattern, |a| + |pattern| + i);
      if i + |pattern| <= |b| {
        assert s[|a| + |pattern| + i..|a| + |pattern| + i + |pattern|] == b[i..i + |pattern|];
      }
    }
    RemoveAllAbsent(b, pattern);
  }

  /** `s.replace(a, b)` for single characters. */
  function ReplaceChar(s: string, a: char, b: char): (r: string)
    ensures |r| == |s|
    ensures forall k :: 0 <= k < |s| ==> r[k] == if s[k] == a then b else s[k]
  {
    if s == [] then [] else ReplaceChar(s[..|s| - 1], a, b) + [if s[|s| - 1] == a then b else s[|s| - 1]]
  }

  /** The last piece of `s.split(c)`: the text after the last `c`, or all of `s`. */
  function LastPiece(s: string, c: char): (r: string)
    ensures |r| <= |s| && r == s[|s| - |r|..]
    ensures forall k :: 0 <= k < |r| ==> r[k] != c
    ensures |r| < |s| ==> s[|s| - |r| - 1] == c
  {
    if s == [] then []
    else if s[|s| - 1] == c then []
    else LastPiece(s[..|s| - 1], c) + [s[|s| - 1]]
  }

  /** Python's bound normalisation for a slice end: negative counts from the end, then clamp. */
  function SliceBound(n: nat, i: int): (b: nat)
    ensures b <= n
  {
    var j := if i < 0 then n + i else i;
    if j < 0 then 0 else if j > n then n else j
  }

  /** `s[start:]`. */
  function SliceFrom(s: string, start: int): string
  {
    s[SliceBound(|s|, start)..]
  }

  /** `s[:stop]`. */
  function SliceTo(s: string, stop: int): string
  {
    s[..SliceBound(|s|, stop)]
  }
}
