/**
 * Instants and their text form. Carbon's `toIso8601String()` and `Carbon::parse()`
 * are modelled by the "@<seconds>" form (a Unix timestamp, which Carbon::parse
 * also accepts): `Format` writes it and `Parse` reads it back.
 */
module Instants {
  import opened Wrappers

  /** Seconds since the Unix epoch. */
  type Instant = int

  predicate IsDigit(c: char) {
    '0' <= c <= '9'
  }

  predicate AllDigits(s: string) {
    forall i :: 0 <= i < |s| ==> IsDigit(s[i])
  }

  function DigitChar(d: nat): (c: char)
    requires d < 10
    ensures IsDigit(c) && (c as int) - ('0' as int) == d
  {
    (('0' as int) + d) as char
  }

  /** Decimal digits of `n`, most significant first, without leading zeros. */
  function NatToDigits(n: nat): (s: string)
    ensures |s| >= 1 && AllDigits(s)
    decreases n
  {
    if n < 10 then [DigitChar(n)] else NatToDigits(n / 10) + [DigitChar(n % 10)]
  }

  function DigitsToNat(s: string): nat
    requires AllDigits(s)
  {
    if s == [] then 0
    else DigitsToNat(s[..|s| - 1]) * 10 + ((s[|s| - 1] as int) - ('0' as int))
  }

  lemma {:induction false} DigitsRoundTrip(n: nat)
    ensures DigitsToNat(NatToDigits(n)) == n
    decreases n
  {
    var s := NatToDigits(n);
    if n >= 10 {
      DigitsRoundTrip(n / 10);
      assert s[..|s| - 1] == NatToDigits(n / 10);
    }
  }

  /** The text an instant is written as. */
  function Format(t: Instant): (s: string)
    ensures |s| >= 2 && s[0] == '@'
  {
    "@" + (if t < 0 then "-" + NatToDigits(-t) else NatToDigits(t))
  }

  /** Reads "@<digits>" or "@-<digits>"; any other text is unreadable. */
  function Parse(s: string): (r: Option<Instant>)
    ensures r.Some? ==> |s| >= 2 && s[0] == '@'
  {
    if |s| >= 2 && s[0] == '@' && AllDigits(s[1..]) then Some(DigitsToNat(s[1..]))
    else if |s| >= 3 && s[0] == '@' && s[1] == '-' && AllDigits(s[2..]) then
      var magnitude: int := DigitsToNat(s[2..]);
      Some(-magnitude)
    else None
  }

  /** Reading back a written instant gives the instant. */
  lemma ParseFormat(t: Instant)
    ensures Parse(Format(t)) == Some(t)
  {
    if t < 0 {
      ParseNegative(t);
    } else {
      ParseNonNegative(t);
    }
  }

  lemma ParseNegative(t: Instant)
    requires t < 0
    ensures Parse(Format(t)) == Some(t)
  {
    var s := Format(t);
    var d := NatToDigits(-t);
    assert s == "@" + "-" + d;
    assert s[1..] == "-" + d && !IsDigit(s[1]);
    assert s[2..] == d;
    DigitsRoundTrip(-t);
  }

  lemma ParseNonNegative(t: Instant)
    requires t >= 0
    ensures Parse(Format(t)) == Some(t)
  {
    var s := Format(t);
    assert s[1..] == NatToDigits(t);
    DigitsRoundTrip(t);
  }
}
