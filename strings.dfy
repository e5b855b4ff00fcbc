/** The string operations of Swift and Foundation that the rest of the model
    relies on: `String(n)`, `Int(s)`, `componentsSeparatedByString` and
    `componentsSeparatedByCharactersInSet`. */
module Strings {
  import opened Wrappers

  predicate IsDigit(c: char) {
    '0' <= c <= '9'
  }

  predicate AllDigits(s: string) {
    forall i | 0 <= i < |s| :: IsDigit(s[i])
  }

  predicate Contains(s: string, c: char) {
    exists i | 0 <= i < |s| :: s[i] == c
  }

  function DigitChar(d: nat): (c: char)
    requires d < 10
    ensures IsDigit(c) && c as int - '0' as int == d
  {
    ('0' as int + d) as char
  }

  /** Swift's `String(n)` for a non-negative Int: its decimal digits, with no
      leading zero. */
  function NatToString(n: nat): (s: string)
    ensures |s| >= 1 && AllDigits(s)
    ensures s[0] == '0' ==> n == 0
    decreases n
  {
    if n < 10 then [DigitChar(n)] else NatToString(n / 10) + [DigitChar(n % 10)]
  }

  /** The number a string of decimal digits denotes. */
  function DigitsValue(s: string): nat
    requires AllDigits(s)
  {
    if s == [] then 0 else DigitsValue(s[..|s| - 1]) * 10 + (s[|s| - 1] as int - '0' as int)
  }

  /** Reading back the digits `String(n)` prints gives `n`. */
  lemma {:induction false} DigitsValueOfNatToString(n: nat)
    ensures DigitsValue(NatToString(n)) == n
    decreases n
  {
    if n >= 10 {
      DigitsValueOfNatToString(n / 10);
      var s := NatToString(n);
      assert s[..|s| - 1] == NatToString(n / 10);
    }
  }

  /** `String(n)` is injective, so distinct numbers print differently. */
  lemma NatToStringInjective(m: nat, n: nat)
    requires NatToString(m) == NatToString(n)
    ensures m == n
  {
    DigitsValueOfNatToString(m);
    DigitsValueOfNatToString(n);
  }

  const IntMax: int := 0x7FFF_FFFF_FFFF_FFFF
  const IntMin: int := -0x8000_0000_0000_0000

  /** Swift's failable `Int(s)`: an optional '+' or '-', then one or more
      decimal digits, denoting a value in the 64-bit range; nil otherwise. */
  function ParseInt(s: string): (r: Option<int>)
    ensures r.Some? ==> IntMin <= r.value <= IntMax
    ensures r.Some? ==> |s| >= 1
  {
    var negative := |s| > 0 && s[0] == '-';
    var digits := if |s| > 0 && (s[0] == '+' || s[0] == '-') then s[1..] else s;
    if digits == [] || !AllDigits(digits) then None
    else
      var v: int := if negative then -(DigitsValue(digits) as int) else DigitsValue(digits);
      if IntMin <= v <= IntMax then Some(v) else None
  }

  /** `Int(s)` reads back what `String(n)` prints, with or without a sign. */
  lemma ParseIntOfNatToString(n: nat)
    requires n <= IntMax
    ensures ParseInt(NatToString(n)) == Some(n)
    ensures ParseInt("+" + NatToString(n)) == Some(n)
    ensures ParseInt("-" + NatToString(n)) == Some(-(n as int))
  {
    DigitsValueOfNatToString(n);
    var s := NatToString(n);
    assert ("+" + s)[1..] == s;
    assert ("-" + s)[1..] == s;
  }

  /** Foundation's `componentsSeparatedByCharactersInSet` (and
      `componentsSeparatedByString` for a one-character separator): the pieces
      of `s` between separators, in order. There is always at least one piece;
      the empty string gives one empty piece. */
  function Split(s: string, separators: set<char>): (parts: seq<string>)
    ensures |parts| >= 1
    decreases |s|
  {
    if s == [] then [""]
    else
      var rest := Split(s[1..], separators);
      if s[0] in separators then [""] + rest else [[s[0]] + rest[0]] + rest[1..]
  }

  /** The inverse of `Split` for one separator: the pieces with the separator
      between each two. */
  function Join(parts: seq<string>, separator: char): string
    requires |parts| >= 1
  {
    if |parts| == 1 then parts[0] else parts[0] + [separator] + Join(parts[1..], separator)
  }

  /** No piece that `Split` returns contains a separator. */
  lemma {:induction false} SplitPiecesHaveNoSeparator(s: string, separators: set<char>)
    ensures forall i, k | 0 <= i < |Split(s, separators)| && 0 <= k < |Split(s, separators)[i]| ::
              Split(s, separators)[i][k] !in separators
    decreases |s|
  {
    if s != [] {
      SplitPiecesHaveNoSeparator(s[1..], separators);
    }
  }

  lemma JoinPrependToFirst(x: char, parts: seq<string>, separator: char)
    requires |parts| >= 1
    ensures Join([[x] + parts[0]] + parts[1..], separator) == [x] + Join(parts, separator)
  {
    var q := [[x] + parts[0]] + parts[1..];
    assert q[1..] == parts[1..];
  }

  /** Joining the pieces of `s` with the separator gives `s` back. */
  lemma {:induction false} JoinSplit(s: string, separator: char)
    ensures Join(Split(s, {separator}), separator) == s
    decreases |s|
  {
    if s != [] {
      var rest := Split(s[1..], {separator});
      JoinSplit(s[1..], separator);
      if s[0] == separator {
        assert ([""] + rest)[1..] == rest;
      } else {
        JoinPrependToFirst(s[0], rest, separator);
      }
    }
  }

  /** Splitting `a + s`, where `a` holds no separator, extends the first
      piece of `s` by `a`. */
  lemma {:induction false} SplitAfterPlainPrefix(a: string, s: string, separators: set<char>)
    requires forall k | 0 <= k < |a| :: a[k] !in separators
    ensures Split(a + s, separators) ==
            [a + Split(s, separators)[0]] + Split(s, separators)[1..]
    decreases |a|
  {
    if a != [] {
      assert (a + s)[1..] == a[1..] + s;
      SplitAfterPlainPrefix(a[1..], s, separators);
      assert [a[0]] + (a[1..] + Split(s, separators)[0]) == a + Split(s, separators)[0];
    } else {
      assert a + s == s;
      assert a + Split(s, separators)[0] == Split(s, separators)[0];
      assert [Split(s, separators)[0]] + Split(s, separators)[1..] == Split(s, separators);
    }
  }

  /** Splitting the join of pieces that hold no separator gives the pieces
      back. */
  lemma {:induction false} SplitJoin(parts: seq<string>, separator: char)
    requires |parts| >= 1
    requires forall i | 0 <= i < |parts| :: !Contains(parts[i], separator)
    ensures Split(Join(parts, separator), {separator}) == parts
    decreases |parts|
  {
    var p := parts[0];
    assert forall k | 0 <= k < |p| :: p[k] !in {separator} by {
      assert !Contains(parts[0], separator);
    }
    if |parts| == 1 {
      SplitAfterPlainPrefix(p, "", {separator});
      assert p + "" == p;
    } else {
      var tail := Join(parts[1..], separator);
      SplitJoin(parts[1..], separator);
      assert ([separator] + tail)[1..] == tail;
      var x := Split([separator] + tail, {separator});
      assert x == [""] + parts[1..];
      assert x[0] == "" && x[1..] == parts[1..];
      assert Join(parts, separator) == p + ([separator] + tail);
      SplitAfterPlainPrefix(p, [separator] + tail, {separator});
      assert p + "" == p;
      assert [p] + parts[1..] == parts;
    }
  }
}
