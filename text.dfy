/**
 * The string handling the scoring routes rely on: JavaScript's rendering of
 * an integer inside a template literal, the truthiness and `trim()` tests
 * applied to optional request fields, and the "over.ball" label written on
 * every commentary entry together with a parser that reads it back.
 */
module Text {
  import opened Wrappers

  predicate IsDigit(c: char) {
    '0' <= c <= '9'
  }

  predicate AllDigits(s: string) {
    forall i :: 0 <= i < |s| ==> IsDigit(s[i])
  }

  function DigitChar(d: nat): (c: char)
    requires d < 10
    ensures IsDigit(c) && (c as int) - ('0' as int) == d
  {
    ('0' as int + d) as char
  }

  function DigitValue(c: char): (d: nat)
    requires IsDigit(c)
    ensures d < 10 && DigitChar(d) == c
  {
    (c as int) - ('0' as int)
  }

  /** Decimal digits of `n`, without leading zeros: what `${n}` prints for a natural number. */
  function NatToString(n: nat): (s: string)
    ensures |s| >= 1 && AllDigits(s)
    ensures |s| > 1 ==> s[0] != '0'
    decreases n
  {
    if n < 10 then [DigitChar(n)] else NatToString(n / 10) + [DigitChar(n % 10)]
  }

  /** What `${i}` prints for an integer: a leading minus sign for negative values. */
  function IntToString(i: int): (s: string)
    ensures i >= 0 ==> AllDigits(s)
    ensures i < 0 ==> |s| >= 2 && s[0] == '-' && AllDigits(s[1..])
  {
    if i < 0 then "-" + NatToString(-i) else NatToString(i)
  }

  /** Reads a run of decimal digits back as a number; the inverse of NatToString. */
  function ParseNat(s: string): nat
    requires AllDigits(s)
  {
    if |s| == 0 then 0 else ParseNat(s[..|s| - 1]) * 10 + DigitValue(s[|s| - 1])
  }

  lemma {:induction false} ParseNatToString(n: nat)
    ensures ParseNat(NatToString(n)) == n
    decreases n
  {
    var s := NatToString(n);
    if n >= 10 {
      ParseNatToString(n / 10);
      assert s[..|s| - 1] == NatToString(n / 10);
    }
  }

  /** Two numbers rendered with equal strings are equal. */
  lemma NatToStringInjective(a: nat, b: nat)
    requires NatToString(a) == NatToString(b)
    ensures a == b
  {
    ParseNatToString(a);
    ParseNatToString(b);
  }

  /**
   * The characters String.prototype.trim removes: the ECMAScript WhiteSpace
   * and LineTerminator code points.
   */
  predicate IsJsSpace(c: char) {
    c == ' ' || c == '\t' || c == '\n' || c == '\r' || c == '\U{000B}' || c == '\U{000C}'
    || c == '\U{00A0}' || c == '\U{1680}' || ('\U{2000}' <= c <= '\U{200A}')
    || c == '\U{2028}' || c == '\U{2029}' || c == '\U{202F}' || c == '\U{205F}'
    || c == '\U{3000}' || c == '\U{FEFF}'
  }

  /** `s.trim() === ''`: every character is whitespace (the empty string included). */
  predicate IsBlank(s: string) {
    forall i :: 0 <= i < |s| ==> IsJsSpace(s[i])
  }

  /** JavaScript truthiness of an optional string field: present and non-empty. */
  predicate Truthy(o: Option<string>) {
    o.Some? && o.value != ""
  }

  /** The guard `x && x.trim() !== ''` on an optional string field. */
  predicate NonBlank(o: Option<string>) {
    o.Some? && !IsBlank(o.value)
  }

  /** What a template literal prints for an optional string: "undefined" when absent. */
  function Show(o: Option<string>): string {
    match o
    case Some(s) => s
    case None => "undefined"
  }

  /** The commentary label `${currentOver}.${balls.length}`. */
  function Label(over: int, ball: int): string {
    IntToString(over) + "." + IntToString(ball)
  }

  /** Index of the first occurrence of `c` in `s`, if any. */
  function IndexOf(s: string, c: char): (r: Option<nat>)
    ensures r.Some? ==> r.value < |s| && s[r.value] == c
    ensures r.Some? ==> forall i :: 0 <= i < r.value ==> s[i] != c
    ensures r.None? ==> forall i :: 0 <= i < |s| ==> s[i] != c
  {
    if |s| == 0 then None
    else if s[0] == c then Some(0)
    else match IndexOf(s[1..], c)
      case None => None
      case Some(k) => Some(k + 1)
  }

  /** Reads an "over.ball" label of two non-negative numbers back. */
  function ParseLabel(s: string): Option<(nat, nat)> {
    match IndexOf(s, '.')
    case None => None
    case Some(k) =>
      var left, right := s[..k], s[k + 1..];
      if |left| > 0 && |right| > 0 && AllDigits(left) && AllDigits(right)
      then Some((ParseNat(left), ParseNat(right)))
      else None
  }

  /** The label written for over `over`, ball `ball` reads back as exactly that pair. */
  lemma LabelRoundTrip(over: nat, ball: nat)
    ensures ParseLabel(Label(over, ball)) == Some((over, ball))
  {
    var l, r := NatToString(over), NatToString(ball);
    var s := Label(over, ball);
    assert s == l + "." + r;
    assert s[|l|] == '.';
    assert forall i :: 0 <= i < |l| ==> s[i] == l[i] && s[i] != '.';
    assert IndexOf(s, '.') == Some(|l|);
    assert s[..|l|] == l;
    assert s[|l| + 1..] == r;
    ParseNatToString(over);
    ParseNatToString(ball);
  }
}
