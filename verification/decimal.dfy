/** Decimal text of integers: Python's `str` and `int`, on ASCII text. */
module Decimal {
  import opened Wrappers

  predicate IsDigit(c: char) {
    '0' <= c <= '9'
  }

  predicate IsSpace(c: char) {
    c == ' ' || '\t' <= c <= '\r'
  }

  function DigitOf(d: nat): char
    requires d < 10
  {
    '0' + d as char
  }

  function ValueOf(c: char): nat
    requires IsDigit(c)
  {
    (c - '0') as nat
  }

  function NatText(n: nat): string {
    if n < 10 then [DigitOf(n)] else NatText(n / 10) + [DigitOf(n % 10)]
  }

  function IntText(n: int): string {
    if n < 0 then "-" + NatText(-n) else NatText(n)
  }

  /** Digits, with single underscores allowed between two of them. */
  function ParseNat(s: string): Option<int>
    decreases |s|
  {
    if s == [] || !IsDigit(s[|s| - 1]) then None
    else
      var d := ValueOf(s[|s| - 1]);
      if |s| == 1 then Some(d)
      else
        var front := if s[|s| - 2] == '_' then s[..|s| - 2] else s[..|s| - 1];
        match ParseNat(front)
        case None => None
        case Some(v) => Some(10 * v + d)
  }

  function StripLeft(s: string): string {
    if s != [] && IsSpace(s[0]) then StripLeft(s[1..]) else s
  }

  function StripRight(s: string): string {
    if s != [] && IsSpace(s[|s| - 1]) then StripRight(s[..|s| - 1]) else s
  }

  function ParseInt(text: string): Option<int> {
    var s := StripRight(StripLeft(text));
    if s != [] && s[0] == '-' then
      match ParseNat(s[1..]) {
        case None => None
        case Some(v) => Some(-v)
      }
    else match ParseNat(if s != [] && s[0] == '+' then s[1..] else s)
      case None => None
      case Some(v) => Some(v)
  }

  lemma {:induction false} NatTextRoundTrip(n: nat)
    ensures |NatText(n)| >= 1 && (forall i :: 0 <= i < |NatText(n)| ==> IsDigit(NatText(n)[i]))
    ensures ParseNat(NatText(n)) == Some(n)
  {
    if n >= 10 {
      NatTextRoundTrip(n / 10);
      var s := NatText(n);
      assert s[..|s| - 1] == NatText(n / 10);
    }
  }

  /** `int(str(n)) == n`. */
  lemma IntTextRoundTrip(n: int)
    ensures ParseInt(IntText(n)) == Some(n)
    ensures IntText(n) != []
  {
    NatTextRoundTrip(if n < 0 then -n else n);
    var s := IntText(n);
    assert StripLeft(s) == s && StripRight(s) == s;
    if n < 0 {
      assert s[1..] == NatText(-n);
    }
  }

  /** Blanks around a number make no difference. */
  lemma BlanksAreIgnored(n: nat, before: char, after: char)
    requires IsSpace(before) && IsSpace(after)
    ensures ParseInt([before] + IntText(n) + [after]) == Some(n)
  {
    NatTextRoundTrip(n);
    StripsBlanks(NatText(n), before, after);
  }

  /** Nor do a plus sign and an underscore between digits. */
  lemma SignAndUnderscore(n: nat, d: nat)
    requires d < 10
    ensures ParseInt("+" + IntText(n)) == Some(n)
    ensures ParseInt(IntText(n) + "_" + [DigitOf(d)]) == Some(10 * n + d)
  {
    NatTextRoundTrip(n);
    var s := NatText(n);
    Unblanked("+" + s);
    assert ("+" + s)[1..] == s;
    var split := s + "_" + [DigitOf(d)];
    Unblanked(split);
    assert split[..|split| - 2] == s && split[|split| - 2] == '_';
  }

  lemma Unblanked(s: string)
    requires s != [] && !IsSpace(s[0]) && !IsSpace(s[|s| - 1])
    ensures StripRight(StripLeft(s)) == s
  {
  }

  lemma StripsBlanks(s: string, before: char, after: char)
    requires s != [] && !IsSpace(s[0]) && !IsSpace(s[|s| - 1]) && IsSpace(before) && IsSpace(after)
    ensures StripRight(StripLeft([before] + s + [after])) == s
  {
    var t := [before] + s + [after];
    assert t[1..] == s + [after];
    assert StripLeft(t) == s + [after];
    assert (s + [after])[..|s|] == s;
  }

  lemma IntTextInjective(a: int, b: int)
    requires IntText(a) == IntText(b)
    ensures a == b
  {
    IntTextRoundTrip(a);
    IntTextRoundTrip(b);
  }

  lemma IntTextChars(n: int, c: char)
    requires c in IntText(n)
    ensures IsDigit(c) || c == '-'
  {
    NatTextRoundTrip(if n < 0 then -n else n);
  }
}
