/** String helpers the netlist writer relies on: Python's `str.join`, `str.split`
    on one character, and `str()` of an integer. */
module Text {

  /** `sep.join(parts)`. */
  function Join(sep: string, parts: seq<string>): string
    decreases |parts|
  {
    if |parts| == 0 then ""
    else if |parts| == 1 then parts[0]
    else parts[0] + sep + Join(sep, parts[1..])
  }

  /** `s.split(c)` for a one-character separator: never empty, `"".split(c) == [""]`. */
  function Split(s: string, c: char): (r: seq<string>)
    ensures |r| >= 1
    decreases |s|
  {
    if |s| == 0 then [""]
    else
      var rest := Split(s[1..], c);
      if s[0] == c then [""] + rest
      else [[s[0]] + rest[0]] + rest[1..]
  }

  /** No part contains the separator character. */
  predicate NoneContains(parts: seq<string>, c: char)
  {
    forall i :: 0 <= i < |parts| ==> c !in parts[i]
  }

  /** Concatenation of a list of lists. */
  function Concat(groups: seq<seq<string>>): seq<string>
    decreases |groups|
  {
    if |groups| == 0 then [] else groups[0] + Concat(groups[1..])
  }

  lemma {:induction false} SplitNoSeparator(s: string, c: char)
    requires c !in s
    ensures Split(s, c) == [s]
    decreases |s|
  {
    if |s| > 0 {
      SplitNoSeparator(s[1..], c);
      assert [s[0]] + s[1..] == s;
    }
  }

  lemma {:induction false} SplitPrefix(p: string, c: char, rest: string)
    requires c !in p
    ensures Split(p + [c] + rest, c) == [p] + Split(rest, c)
    decreases |p|
  {
    if |p| == 0 {
      assert p + [c] + rest == [c] + rest;
      assert ([c] + rest)[1..] == rest;
    } else {
      var s := p + [c] + rest;
      assert s[0] == p[0];
      assert s[1..] == p[1..] + [c] + rest;
      SplitPrefix(p[1..], c, rest);
      assert [p[0]] + p[1..] == p;
    }
  }

  /** Splitting a joined text at the separator gives back the parts, provided no part
      contains the separator. */
  lemma {:induction false} SplitJoin(parts: seq<string>, c: char)
    requires |parts| >= 1 && NoneContains(parts, c)
    ensures Split(Join([c], parts), c) == parts
    decreases |parts|
  {
    if |parts| == 1 {
      SplitNoSeparator(parts[0], c);
    } else {
      SplitJoin(parts[1..], c);
      SplitPrefix(parts[0], c, Join([c], parts[1..]));
      assert [parts[0]] + parts[1..] == parts;
    }
  }

  /** Joining two non-empty lists is joining each and putting the separator between. */
  lemma {:induction false} JoinAppend(sep: string, a: seq<string>, b: seq<string>)
    requires |a| >= 1 && |b| >= 1
    ensures Join(sep, a + b) == Join(sep, a) + sep + Join(sep, b)
    decreases |a|
  {
    if |a| == 1 {
      assert (a + b)[1..] == b;
    } else {
      JoinAppend(sep, a[1..], b);
      assert (a + b)[1..] == a[1..] + b;
    }
  }

  /** Joins each group. */
  function JoinEach(sep: string, groups: seq<seq<string>>): (r: seq<string>)
    ensures |r| == |groups|
    ensures forall i :: 0 <= i < |groups| ==> r[i] == Join(sep, groups[i])
    decreases |groups|
  {
    if |groups| == 0 then [] else [Join(sep, groups[0])] + JoinEach(sep, groups[1..])
  }

  /** Joining the joined groups is joining the concatenation, when no group is empty. */
  lemma {:induction false} JoinFlatten(sep: string, groups: seq<seq<string>>)
    requires forall i :: 0 <= i < |groups| ==> |groups[i]| >= 1
    ensures Join(sep, JoinEach(sep, groups)) == Join(sep, Concat(groups))
    ensures |groups| >= 1 ==> |Concat(groups)| >= 1
    decreases |groups|
  {
    if |groups| > 1 {
      JoinFlatten(sep, groups[1..]);
      JoinAppend(sep, groups[0], Concat(groups[1..]));
    } else if |groups| == 1 {
      assert Concat(groups) == groups[0] + Concat(groups[1..]);
      assert Concat(groups[1..]) == [];
      assert groups[0] + [] == groups[0];
    }
  }

  // Decimal digits.

  function DigitChar(d: nat): char
    requires d < 10
  {
    "0123456789"[d]
  }

  predicate IsDigit(ch: char) { '0' <= ch <= '9' }

  predicate AllDigits(s: string) { forall i :: 0 <= i < |s| ==> IsDigit(s[i]) }

  function DigitValue(ch: char): nat
    requires IsDigit(ch)
  {
    (ch as int) - ('0' as int)
  }

  /** `str(n)` for a non-negative integer. */
  function NatToString(n: nat): string
    decreases n
  {
    if n < 10 then [DigitChar(n)] else NatToString(n / 10) + [DigitChar(n % 10)]
  }

  /** `str(i)` for any Python int: a leading minus sign for negatives. */
  function IntToString(i: int): string
  {
    if i < 0 then "-" + NatToString(-i) else NatToString(i)
  }

  /** Reads a string of decimal digits back as a number. */
  function ParseNat(s: string): nat
    requires AllDigits(s)
    decreases |s|
  {
    if |s| == 0 then 0 else ParseNat(s[..|s| - 1]) * 10 + DigitValue(s[|s| - 1])
  }

  /** Reads back what `IntToString` writes. */
  function ParseInt(s: string): int
    requires |s| >= 1 && (if s[0] == '-' then AllDigits(s[1..]) else AllDigits(s))
  {
    if s[0] == '-' then -(ParseNat(s[1..]) as int) else ParseNat(s)
  }

  lemma DigitRoundTrip(d: nat)
    requires d < 10
    ensures IsDigit(DigitChar(d)) && DigitValue(DigitChar(d)) == d
  {
  }

  /** `NatToString` writes only digits, at least one, and `ParseNat` reads the number back. */
  lemma {:induction false} NatToStringRoundTrip(n: nat)
    ensures |NatToString(n)| >= 1 && AllDigits(NatToString(n))
    ensures ParseNat(NatToString(n)) == n
    decreases n
  {
    DigitRoundTrip(n % 10);
    if n >= 10 {
      NatToStringRoundTrip(n / 10);
      var s := NatToString(n);
      assert s[..|s| - 1] == NatToString(n / 10);
    }
  }

  /** `IntToString` is inverted by `ParseInt`, so distinct numbers render differently. */
  lemma IntToStringRoundTrip(i: int)
    ensures |IntToString(i)| >= 1
    ensures var s := IntToString(i); (if s[0] == '-' then AllDigits(s[1..]) else AllDigits(s)) && ParseInt(s) == i
  {
    var s := IntToString(i);
    if i < 0 {
      NatToStringRoundTrip(-i);
      assert s[1..] == NatToString(-i);
    } else {
      NatToStringRoundTrip(i);
      assert s == NatToString(i);
      assert IsDigit(s[0]);
    }
  }

  lemma IntToStringInjective(a: int, b: int)
    ensures IntToString(a) == IntToString(b) ==> a == b
  {
    IntToStringRoundTrip(a);
    IntToStringRoundTrip(b);
  }

  /** The rendering of a number has no line break, no space and no `=` in it. */
  lemma IntToStringPlain(i: int)
    ensures '\n' !in IntToString(i) && ' ' !in IntToString(i) && '=' !in IntToString(i)
  {
    IntToStringRoundTrip(i);
    var s := IntToString(i);
    if i < 0 {
      assert s == ['-'] + s[1..];
      assert forall k :: 0 <= k < |s[1..]| ==> IsDigit(s[1..][k]);
    }
  }
}
