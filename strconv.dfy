/**
 * Go's `strconv.Atoi` for base 10 and the `uint16(…)`/`uint32(…)` conversions the
 * resolver applies to its results. `Decimal` renders a natural number; it is the
 * reference that `Atoi` is proved to invert.
 */
module Strconv {
  import opened Wrappers

  type uint16 = x: int | 0 <= x < 0x1_0000
  type uint32 = x: int | 0 <= x < 0x1_0000_0000

  /** Go `uint16(i)` on an `int`: keeps the low 16 bits (two's complement for negatives). */
  function Uint16(i: int): (r: uint16)
    ensures 0 <= i < 0x1_0000 ==> r == i
    ensures (r - i) % 0x1_0000 == 0
  {
    i % 0x1_0000
  }

  /** Go `uint32(i)` on an `int`: keeps the low 32 bits. */
  function Uint32(i: int): (r: uint32)
    ensures 0 <= i < 0x1_0000_0000 ==> r == i
    ensures (r - i) % 0x1_0000_0000 == 0
  {
    i % 0x1_0000_0000
  }

  predicate IsDigit(c: char) {
    '0' <= c <= '9'
  }

  predicate AllDigits(s: string) {
    forall k :: 0 <= k < |s| ==> IsDigit(s[k])
  }

  /** The value of a digit string, most significant digit first. */
  function DigitsValue(s: string): (n: nat)
    requires AllDigits(s)
  {
    if s == [] then 0
    else DigitsValue(s[..|s| - 1]) * 10 + (s[|s| - 1] as int - '0' as int)
  }

  /**
   * `strconv.Atoi(s)` in base 10: an optional `+` or `-` followed by at least one
   * decimal digit; anything else is a syntax error (`None`).
   */
  function Atoi(s: string): (r: Option<int>)
    ensures r.Some? ==> |s| > 0
    ensures r.Some? && (s[0] == '-' || s[0] == '+') ==> |s| > 1 && AllDigits(s[1..])
    ensures r.Some? && s[0] != '-' && s[0] != '+' ==> AllDigits(s) && r.value >= 0
    ensures |s| > 0 && AllDigits(s) ==> r == Some(DigitsValue(s))
    ensures |s| > 1 && s[0] == '+' && AllDigits(s[1..]) ==> r == Some(DigitsValue(s[1..]))
    ensures |s| > 1 && s[0] == '-' && AllDigits(s[1..]) ==> r == Some(-(DigitsValue(s[1..]) as int))
  {
    if |s| == 0 then None
    else if s[0] == '-' || s[0] == '+' then
      var digits := s[1..];
      if |digits| > 0 && AllDigits(digits) then
        var v: int := DigitsValue(digits);
        Some(if s[0] == '-' then -v else v)
      else None
    else if AllDigits(s) then Some(DigitsValue(s))
    else None
  }

  /** The decimal rendering of `n`, without sign or leading zeros. */
  function Decimal(n: nat): (s: string)
    ensures |s| > 0 && AllDigits(s)
  {
    if n < 10 then [('0' as int + n) as char]
    else Decimal(n / 10) + [('0' as int + n % 10) as char]
  }

  lemma {:induction false} DigitsValueDecimal(n: nat)
    ensures DigitsValue(Decimal(n)) == n
  {
    var s := Decimal(n);
    if n >= 10 {
      DigitsValueDecimal(n / 10);
      assert s[..|s| - 1] == Decimal(n / 10);
    } else {
      assert s[..|s| - 1] == [];
    }
  }

  /** `Atoi` reads back what `Decimal` writes, with or without a sign. */
  lemma AtoiDecimal(n: nat)
    ensures Atoi(Decimal(n)) == Some(n)
    ensures Atoi("-" + Decimal(n)) == Some(-(n as int))
    ensures Atoi("+" + Decimal(n)) == Some(n)
  {
    DigitsValueDecimal(n);
    assert ("-" + Decimal(n))[1..] == Decimal(n);
    assert ("+" + Decimal(n))[1..] == Decimal(n);
  }

  /** A leading zero does not change the value: `Atoi("0" + Decimal(n))` is `n`. */
  lemma AtoiLeadingZero(n: nat)
    ensures Atoi("0" + Decimal(n)) == Some(n)
  {
    DigitsValueLeadingZero(Decimal(n));
    DigitsValueDecimal(n);
  }

  lemma {:induction false} DigitsValueLeadingZero(s: string)
    requires AllDigits(s)
    ensures AllDigits("0" + s) && DigitsValue("0" + s) == DigitsValue(s)
  {
    var z := "0" + s;
    assert forall k :: 0 < k < |z| ==> z[k] == s[k - 1];
    if s == [] {
      assert z[..0] == [];
    } else {
      DigitsValueLeadingZero(s[..|s| - 1]);
      assert z[..|z| - 1] == "0" + s[..|s| - 1];
    }
  }

  /** A decimal rendering never contains a space or a dot, so it is a single field. */
  lemma DecimalHasNoSeparators(n: nat)
    ensures ' ' !in Decimal(n) && '.' !in Decimal(n)
  {
    var s := Decimal(n);
    assert forall k :: 0 <= k < |s| ==> IsDigit(s[k]);
  }
}
