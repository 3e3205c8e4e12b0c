/**
 * The string operations the source borrows from JavaScript: `String(n)` of an
 * integer, `padStart`, `split` on one character and `join`, together with a
 * decimal reader that serves as their inverse in the lemmas.
 */
module Strings {

  predicate IsDigit(c: char) {
    '0' <= c <= '9'
  }

  predicate IsDigits(s: string) {
    forall i :: 0 <= i < |s| ==> IsDigit(s[i])
  }

  function DigitChar(d: nat): (c: char)
    requires d < 10
    ensures IsDigit(c)
  {
    (48 + d) as char
  }

  function DigitValue(c: char): (d: nat)
    requires IsDigit(c)
    ensures d < 10
  {
    c as int - 48
  }

  /** `String(n)` for a non-negative integer: its decimal digits, no leading zero. */
  function NatToString(n: nat): (s: string)
    ensures 1 <= |s| && IsDigits(s)
    ensures n < 10 <==> |s| == 1
    ensures 10 <= n < 100 ==> |s| == 2
    ensures |s| <= n + 1
    decreases n
  {
    if n < 10 then [DigitChar(n)] else NatToString(n / 10) + [DigitChar(n % 10)]
  }

  /** A positive number has no more digits than its value. */
  lemma {:induction false} NatToStringShort(n: nat)
    requires n >= 1
    ensures |NatToString(n)| <= n
    decreases n
  {
    if n >= 10 {
      NatToStringShort(n / 10);
    }
  }

  /** `String(n)` for any integer: a minus sign before the digits of a negative one. */
  function IntToString(n: int): (s: string)
    ensures 1 <= |s|
    ensures n >= 0 ==> s == NatToString(n)
    ensures n < 0 ==> s == "-" + NatToString(-n)
  {
    if n < 0 then "-" + NatToString(-n) else NatToString(n)
  }

  /** Reads a string of decimal digits as a number; the empty string reads as 0. */
  function ParseDecimal(s: string): nat
    requires IsDigits(s)
    decreases |s|
  {
    if s == [] then 0 else 10 * ParseDecimal(s[..|s| - 1]) + DigitValue(s[|s| - 1])
  }

  lemma {:induction false} ParseNatToString(n: nat)
    ensures ParseDecimal(NatToString(n)) == n
    decreases n
  {
    if n >= 10 {
      var s := NatToString(n);
      ParseNatToString(n / 10);
      assert s[..|s| - 1] == NatToString(n / 10);
    }
  }

  /** Distinct numbers print differently: decimal keys are unique identities. */
  lemma NatToStringInjective(a: nat, b: nat)
    requires a != b
    ensures NatToString(a) != NatToString(b)
  {
    ParseNatToString(a);
    ParseNatToString(b);
  }

  function Repeat(c: char, k: nat): (s: string)
    ensures |s| == k
    ensures forall i :: 0 <= i < k ==> s[i] == c
  {
    if k == 0 then "" else [c] + Repeat(c, k - 1)
  }

  /** JavaScript's `s.padStart(len, c)` with a one-character pad. */
  function PadStart(s: string, len: int, c: char): (r: string)
    ensures |r| == if len <= |s| then |s| else len
    ensures r[|r| - |s|..] == s
    ensures forall i :: 0 <= i < |r| - |s| ==> r[i] == c
  {
    if len <= |s| then s else Repeat(c, len - |s|) + s
  }

  lemma {:induction false} ParseAppendDigits(a: string, b: string)
    requires IsDigits(a) && IsDigits(b)
    ensures IsDigits(a + b)
    ensures ParseDecimal(a + b) == ParseDecimal(a) * Pow10(|b|) + ParseDecimal(b)
    decreases |b|
  {
    if b == [] {
      assert a + b == a;
    } else {
      var b' := b[..|b| - 1];
      var d := DigitValue(b[|b| - 1]);
      assert (a + b)[..|a + b| - 1] == a + b';
      assert (a + b)[|a + b| - 1] == b[|b| - 1];
      ParseAppendDigits(a, b');
      var pa, pb', p := ParseDecimal(a), ParseDecimal(b'), Pow10(|b'|);
      assert Pow10(|b|) == 10 * p;
      ShiftDigit(pa, p);
      calc {
        ParseDecimal(a + b);
        10 * ParseDecimal(a + b') + d;
        10 * (pa * p + pb') + d;
        pa * (10 * p) + (10 * pb' + d);
        pa * Pow10(|b|) + ParseDecimal(b);
      }
    }
  }

  lemma ShiftDigit(x: nat, y: nat)
    ensures 10 * (x * y) == x * (10 * y)
  {
  }

  function Pow10(k: nat): (p: nat)
    ensures p >= 1
  {
    if k == 0 then 1 else 10 * Pow10(k - 1)
  }

  lemma {:induction false} ParseZeros(k: nat)
    ensures IsDigits(Repeat('0', k)) && ParseDecimal(Repeat('0', k)) == 0
  {
    if k > 0 {
      var z := Repeat('0', k);
      assert z[..k - 1] == Repeat('0', k - 1);
      ParseZeros(k - 1);
    }
  }

  /** Leading zeros do not change the value read back. */
  lemma ParseLeadingZeros(k: nat, s: string)
    requires IsDigits(s)
    ensures IsDigits(Repeat('0', k) + s)
    ensures ParseDecimal(Repeat('0', k) + s) == ParseDecimal(s)
  {
    ParseZeros(k);
    ParseAppendDigits(Repeat('0', k), s);
  }

  /** Zero-padding a non-negative number and reading it back gives the number. */
  lemma PadStartRoundTrip(n: nat, len: int)
    ensures IsDigits(PadStart(NatToString(n), len, '0'))
    ensures ParseDecimal(PadStart(NatToString(n), len, '0')) == n
  {
    var s := NatToString(n);
    ParseNatToString(n);
    PadStartShape(s, len, '0');
    ParseLeadingZeros(|PadStart(s, len, '0')| - |s|, s);
  }

  /** A padded string is the pad repeated, then the string. */
  lemma PadStartShape(s: string, len: int, c: char)
    ensures PadStart(s, len, c) == Repeat(c, |PadStart(s, len, c)| - |s|) + s
  {
    if len <= |s| {
      assert Repeat(c, 0) + s == s;
    }
  }

  /** `parts.join(sep)`. */
  function Join(parts: seq<string>, sep: string): string
    decreases |parts|
  {
    if parts == [] then ""
    else if |parts| == 1 then parts[0]
    else parts[0] + sep + Join(parts[1..], sep)
  }

  /** No character of s is c. */
  predicate Free(s: string, c: char) {
    forall j :: 0 <= j < |s| ==> s[j] != c
  }

  /** `s.split(c)` for a one-character separator. */
  function Split(s: string, c: char): (parts: seq<string>)
    ensures |parts| >= 1
    ensures forall i :: 0 <= i < |parts| ==> Free(parts[i], c)
    decreases |s|
  {
    if s == [] then [""]
    else
      var rest := Split(s[1..], c);
      if s[0] == c then [""] + rest else [[s[0]] + rest[0]] + rest[1..]
  }

  /** Joining the parts of a split with the separator gives back the string. */
  lemma {:induction false} JoinSplit(s: string, c: char)
    ensures Join(Split(s, c), [c]) == s
    decreases |s|
  {
    if s != [] {
      var rest := Split(s[1..], c);
      JoinSplit(s[1..], c);
      if s[0] == c {
        assert Join([""] + rest, [c]) == "" + [c] + Join(rest, [c]);
      } else if |rest| > 1 {
        assert ([[s[0]] + rest[0]] + rest[1..])[1..] == rest[1..];
      }
    }
  }

  /** A split stops at the first separator. */
  lemma {:induction false} SplitFirst(a: string, c: char, t: string)
    requires Free(a, c)
    ensures Split(a + [c] + t, c) == [a] + Split(t, c)
    decreases |a|
  {
    if a == [] {
      assert a + [c] + t == [c] + t;
      assert ([c] + t)[1..] == t;
    } else {
      SplitFirst(a[1..], c, t);
      assert (a + [c] + t)[1..] == a[1..] + [c] + t;
      assert [a[0]] + a[1..] == a;
    }
  }

  /** A string without the separator splits into itself. */
  lemma {:induction false} SplitFree(a: string, c: char)
    requires Free(a, c)
    ensures Split(a, c) == [a]
    decreases |a|
  {
    if a != [] {
      SplitFree(a[1..], c);
      assert [a[0]] + a[1..] == a;
    }
  }

  /** Splitting a join of separator-free parts recovers the parts. */
  lemma {:induction false} SplitJoin(parts: seq<string>, c: char)
    requires |parts| >= 1
    requires forall i :: 0 <= i < |parts| ==> Free(parts[i], c)
    ensures Split(Join(parts, [c]), c) == parts
    decreases |parts|
  {
    if |parts| == 1 {
      SplitFree(parts[0], c);
    } else {
      SplitJoin(parts[1..], c);
      SplitFirst(parts[0], c, Join(parts[1..], [c]));
      assert [parts[0]] + parts[1..] == parts;
    }
  }

  function Last(parts: seq<string>): string
    requires |parts| >= 1
  {
    parts[|parts| - 1]
  }

  /** The last part of a split is a suffix of the string, preceded by the separator if shorter. */
  lemma {:induction false} SplitLastSuffix(s: string, c: char)
    ensures EndsWith(s, Last(Split(s, c)))
    ensures |Split(s, c)| == 1 <==> |Last(Split(s, c))| == |s|
    ensures |Last(Split(s, c))| < |s| ==> s[|s| - |Last(Split(s, c))| - 1] == c
    decreases |s|
  {
    if s != [] {
      var rest := Split(s[1..], c);
      SplitLastSuffix(s[1..], c);
      SplitStep(s, c);
      var e := Last(rest);
      if s[0] != c && |rest| == 1 {
        assert e == s[1..];
        assert s == [s[0]] + s[1..];
      } else {
        assert |e| < |s| - 1 ==> s[|s| - |e| - 1] == s[1..][|s| - 1 - |e| - 1];
        SuffixOfTail(s, e, c);
      }
    }
  }

  /** How the parts of a non-empty string relate to those of its tail: the last part grows only when there is no separator at all. */
  lemma SplitStep(s: string, c: char)
    requires s != []
    ensures var rest := Split(s[1..], c);
      && (s[0] != c && |rest| == 1 ==> |Split(s, c)| == 1 && Last(Split(s, c)) == [s[0]] + Last(rest))
      && (!(s[0] != c && |rest| == 1) ==> |Split(s, c)| > 1 && Last(Split(s, c)) == Last(rest))
  {
  }

  lemma SuffixOfTail(s: string, e: string, c: char)
    requires s != [] && EndsWith(s[1..], e)
    requires |e| < |s| - 1 ==> s[|s| - |e| - 1] == c
    requires |e| < |s| - 1 || s[0] == c
    ensures EndsWith(s, e)
    ensures |e| < |s| ==> s[|s| - |e| - 1] == c
  {
    assert s[|s| - |e|..] == s[1..][|s| - 1 - |e|..];
  }

  /** The last part of a split is the text after the last separator, or all of it. */
  lemma SplitLast(s: string, c: char)
    ensures EndsWith(s, Last(Split(s, c)))
    ensures Free(s, c) <==> |Last(Split(s, c))| == |s|
    ensures |Last(Split(s, c))| < |s| ==> s[|s| - |Last(Split(s, c))| - 1] == c
  {
    SplitLastSuffix(s, c);
    var e := Last(Split(s, c));
    assert Free(e, c);
    if |e| == |s| {
      assert s == s[|s| - |e|..] == e;
    }
  }

  predicate EndsWith(s: string, suffix: string) {
    |suffix| <= |s| && s[|s| - |suffix|..] == suffix
  }
}
