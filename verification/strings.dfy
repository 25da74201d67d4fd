/**
 * String helpers with the meaning JavaScript gives them: decimal rendering of
 * integers, `String.prototype.includes`, `Array.prototype.join` and `split`.
 */
module Strings {

  predicate IsPrefix(p: string, s: string) {
    |p| <= |s| && s[..|p|] == p
  }

  predicate IsSuffix(p: string, s: string) {
    |p| <= |s| && s[|s| - |p|..] == p
  }

  predicate OccursAt(s: string, sub: string, i: int) {
    0 <= i && i + |sub| <= |s| && s[i..i + |sub|] == sub
  }

  /** `s.includes(sub)` */
  predicate Contains(s: string, sub: string) {
    exists i | 0 <= i <= |s| :: OccursAt(s, sub, i)
  }

  predicate IsDigit(c: char) {
    '0' <= c <= '9'
  }

  predicate AllDigits(s: string) {
    forall i :: 0 <= i < |s| ==> IsDigit(s[i])
  }

  function DigitChar(d: nat): (c: char)
    requires d < 10
    ensures IsDigit(c) && c as int - '0' as int == d
  {
    ['0', '1', '2', '3', '4', '5', '6', '7', '8', '9'][d]
  }

  /** Decimal rendering of a natural number, as `String(n)` prints it. */
  function NatToString(n: nat): (s: string)
    decreases n
  {
    if n < 10 then [DigitChar(n)] else NatToString(n / 10) + [DigitChar(n % 10)]
  }

  /** Decimal rendering of an integer, with a leading `-` when negative. */
  function IntToString(i: int): string {
    if i < 0 then "-" + NatToString(-i) else NatToString(i)
  }

  /** The value of a string of decimal digits (the inverse of NatToString). */
  function ParseDigits(s: string): nat
    requires AllDigits(s)
  {
    if |s| == 0 then 0
    else ParseDigits(s[..|s| - 1]) * 10 + (s[|s| - 1] as int - '0' as int)
  }

  lemma {:induction false} NatToStringDigits(n: nat)
    ensures |NatToString(n)| >= 1
    ensures AllDigits(NatToString(n))
    ensures ParseDigits(NatToString(n)) == n
    decreases n
  {
    if n >= 10 {
      NatToStringDigits(n / 10);
      var s := NatToString(n);
      assert s[..|s| - 1] == NatToString(n / 10);
    }
  }

  /** Distinct integers print differently. */
  lemma IntToStringInjective(a: int, b: int)
    requires IntToString(a) == IntToString(b)
    ensures a == b
  {
    var sa, sb := IntToString(a), IntToString(b);
    NatToStringDigits(if a < 0 then -a else a);
    NatToStringDigits(if b < 0 then -b else b);
    assert (a < 0) <==> sa[0] == '-';
    assert (b < 0) <==> sb[0] == '-';
    if a < 0 {
      assert sa[1..] == NatToString(-a);
      assert sb[1..] == NatToString(-b);
    }
  }

  /** `parts.join(sep)` */
  function Join(parts: seq<string>, sep: string): string {
    if |parts| == 0 then ""
    else if |parts| == 1 then parts[0]
    else parts[0] + sep + Join(parts[1..], sep)
  }

  /** `s.split(c)` for a one-character separator. */
  function Split(s: string, c: char): (parts: seq<string>)
    ensures |parts| >= 1
  {
    if |s| == 0 then [""]
    else
      var rest := Split(s[1..], c);
      if s[0] == c then [""] + rest
      else [[s[0]] + rest[0]] + rest[1..]
  }

  lemma {:induction false} SplitPrefix(w: string, tail: string, c: char)
    requires c !in w
    ensures Split(w + tail, c) == [w + Split(tail, c)[0]] + Split(tail, c)[1..]
    decreases |w|
  {
    if |w| > 0 {
      var t := Split(tail, c);
      assert (w + tail)[0] == w[0] && w[0] != c;
      assert (w + tail)[1..] == w[1..] + tail;
      SplitPrefix(w[1..], tail, c);
      var r := Split(w[1..] + tail, c);
      assert r[0] == w[1..] + t[0] && r[1..] == t[1..];
      assert Split(w + tail, c) == [[w[0]] + r[0]] + r[1..];
      assert [w[0]] + (w[1..] + t[0]) == w + t[0];
    } else {
      var t := Split(tail, c);
      assert w + tail == tail;
      assert t == [t[0]] + t[1..];
      assert w + t[0] == t[0];
    }
  }

  /**
   * Joining with a one-character separator and splitting on it again gives back
   * the parts, provided no part holds the separator.
   */
  lemma {:induction false} SplitJoin(parts: seq<string>, c: char)
    requires |parts| >= 1
    requires forall i :: 0 <= i < |parts| ==> c !in parts[i]
    ensures Split(Join(parts, [c]), c) == parts
    decreases |parts|
  {
    if |parts| == 1 {
      SplitPrefix(parts[0], "", c);
      assert parts[0] + "" == parts[0];
    } else {
      var rest := Join(parts[1..], [c]);
      SplitJoin(parts[1..], c);
      assert Join(parts, [c]) == parts[0] + ([c] + rest);
      SplitPrefix(parts[0], [c] + rest, c);
      assert ([c] + rest)[1..] == rest;
      assert Split([c] + rest, c) == [""] + Split(rest, c);
      assert parts[0] + "" == parts[0];
      assert [parts[0]] + parts[1..] == parts;
    }
  }

  /** The pieces `s.split(c)` gives for each part, in order, concatenated. */
  function Pieces(parts: seq<string>, c: char): seq<string> {
    if |parts| == 0 then [] else Split(parts[0], c) + Pieces(parts[1..], c)
  }

  /** Splitting `a`, a separator, then `b` splits `a` and `b` apart. */
  lemma {:induction false} SplitAroundSep(a: string, b: string, c: char)
    ensures Split(a + [c] + b, c) == Split(a, c) + Split(b, c)
    decreases |a|
  {
    if |a| == 0 {
      assert a + [c] + b == [c] + b;
      assert ([c] + b)[1..] == b;
    } else {
      var s := a + [c] + b;
      assert s[0] == a[0];
      assert s[1..] == a[1..] + [c] + b;
      SplitAroundSep(a[1..], b, c);
      var inner := Split(a[1..], c);
      if a[0] == c {
        assert Split(s, c) == [""] + inner + Split(b, c);
      } else {
        var r := Split(s[1..], c);
        assert r == inner + Split(b, c);
        assert r[0] == inner[0];
        assert r[1..] == inner[1..] + Split(b, c);
      }
    }
  }

  /**
   * Joining with a one-character separator and splitting on it again gives the
   * pieces of every part, whatever the parts hold.
   */
  lemma {:induction false} SplitJoinAll(parts: seq<string>, c: char)
    requires |parts| >= 1
    ensures Split(Join(parts, [c]), c) == Pieces(parts, c)
    decreases |parts|
  {
    if |parts| == 1 {
      assert Pieces(parts, c) == Split(parts[0], c) + Pieces(parts[1..], c);
      assert Pieces(parts, c) == Split(parts[0], c);
    } else {
      SplitJoinAll(parts[1..], c);
      assert Join(parts, [c]) == parts[0] + [c] + Join(parts[1..], [c]);
      SplitAroundSep(parts[0], Join(parts[1..], [c]), c);
    }
  }
}
