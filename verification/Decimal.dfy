/** Decimal text of integers: what strconv.FormatInt writes and strconv.ParseInt
    (base 10, 64 bits) reads. The reader also takes a leading `+` and leading zeros. */
module Decimal {
  import opened Options
  import opened Octets

  const MINUS: byte := 45
  const PLUS: byte := 43
  const ZERO: byte := 48

  predicate IsDigit(b: byte) { 48 <= b <= 57 }

  predicate AllDigits(s: Bytes) { forall i :: 0 <= i < |s| ==> IsDigit(s[i]) }

  function Digits(n: nat): (r: Bytes)
    ensures r != [] && AllDigits(r)
    ensures r[0] == ZERO ==> n == 0
  {
    if n < 10 then [48 + n] else Digits(n / 10) + [48 + n % 10]
  }

  function FormatInt(n: int): Bytes {
    if n < 0 then [MINUS] + Digits(-n) else Digits(n)
  }

  function Magnitude(s: Bytes): nat
    requires AllDigits(s)
  {
    if s == [] then 0 else 10 * Magnitude(s[..|s| - 1]) + (s[|s| - 1] - 48)
  }

  /** The value of a signed decimal text, or None where ParseInt reports an error:
      no digits, a stray byte, or a value outside int64. */
  function ParseInt(s: Bytes): (r: Option<int64>) {
    var negative := s != [] && s[0] == MINUS;
    var digits := if s != [] && (s[0] == MINUS || s[0] == PLUS) then s[1..] else s;
    if digits == [] || !AllDigits(digits) then None
    else
      var n: int := if negative then 0 - Magnitude(digits) else Magnitude(digits);
      if MIN_INT64 <= n <= MAX_INT64 then Some(n) else None
  }

  /** Decimal text with no redundant digit or sign: what BEP 3 requires. */
  predicate ShortestNat(s: Bytes) {
    s != [] && AllDigits(s) && (s[0] == ZERO ==> |s| == 1)
  }

  predicate ShortestInt(s: Bytes) {
    ShortestNat(s) || (s != [] && s[0] == MINUS && ShortestNat(s[1..]) && s[1] != ZERO)
  }

  lemma {:induction false} MagnitudeOfDigits(n: nat)
    ensures Magnitude(Digits(n)) == n
  {
    if n >= 10 {
      MagnitudeOfDigits(n / 10);
      assert Digits(n)[..|Digits(n)| - 1] == Digits(n / 10);
    }
  }

  lemma {:induction false} DigitsShortest(n: nat)
    ensures ShortestNat(Digits(n))
  {
    if n >= 10 { DigitsShortest(n / 10); }
  }

  lemma {:induction false} MagnitudePositive(s: Bytes)
    requires s != [] && AllDigits(s) && s[0] != ZERO
    ensures Magnitude(s) > 0
  {
    if |s| > 1 { MagnitudePositive(s[..|s| - 1]); }
  }

  /** Digit strings of one magnitude: the shortest one is unique, and no other is shorter. */
  lemma {:induction false} DigitsOfMagnitude(s: Bytes)
    requires s != [] && AllDigits(s)
    ensures |Digits(Magnitude(s))| <= |s|
    ensures ShortestNat(s) <==> s == Digits(Magnitude(s))
  {
    var init, last := s[..|s| - 1], s[|s| - 1];
    assert s == init + [last];
    if |s| > 1 {
      DigitsOfMagnitude(init);
      if Magnitude(init) == 0 {
        if ShortestNat(s) { MagnitudePositive(init); }
        assert Digits(Magnitude(s)) == [last];
      } else {
        assert Digits(Magnitude(s)) == Digits(Magnitude(init)) + [last];
      }
    }
  }

  /** A decimal numeral of `n`: digits, with a plus or a minus in front or with neither. */
  ghost predicate Spells(s: Bytes, n: int) {
    exists digits: Bytes :: digits != [] && AllDigits(digits) && SpelledBy(s, digits, n)
  }

  predicate SpelledBy(s: Bytes, digits: Bytes, n: int)
    requires AllDigits(digits)
  {
    (n == Magnitude(digits) && (s == digits || s == [PLUS] + digits)) || (n == 0 - Magnitude(digits) && s == [MINUS] + digits)
  }

  /** ParseInt takes exactly the numerals of int64 numbers, with any leading zeros. */
  lemma {:induction false} ParseIntIff(s: Bytes, n: int64)
    ensures ParseInt(s) == Some(n) <==> Spells(s, n)
  {
    if ParseInt(s) == Some(n) {
      var digits := if s[0] == MINUS || s[0] == PLUS then s[1..] else s;
      assert s[0] == MINUS || s[0] == PLUS ==> s == [s[0]] + digits;
      assert SpelledBy(s, digits, n);
    }
    if Spells(s, n) {
      var digits :| digits != [] && AllDigits(digits) && SpelledBy(s, digits, n);
      assert IsDigit(digits[0]);
      assert s != digits ==> s[1..] == digits;
    }
  }

  /** Leading zeros do not count. */
  lemma {:induction false} MagnitudeAfterZero(s: Bytes)
    requires AllDigits(s)
    ensures Magnitude([ZERO] + s) == Magnitude(s)
  {
    if s == [] {
      assert [ZERO][..0] == [];
    } else {
      var init := s[..|s| - 1];
      MagnitudeAfterZero(init);
      assert ([ZERO] + s)[..|s|] == [ZERO] + init;
    }
  }

  /** Reading back what was written. */
  lemma {:induction false} ParseOfFormat(n: int64)
    ensures ParseInt(FormatInt(n)) == Some(n)
    ensures ShortestInt(FormatInt(n))
    ensures forall i :: 0 <= i < |FormatInt(n)| ==> IsDigit(FormatInt(n)[i]) || FormatInt(n)[i] == MINUS
  {
    var i: int := n;
    var m: nat := if i < 0 then -i else i;
    MagnitudeOfDigits(m);
    DigitsShortest(m);
    if n < 0 { assert FormatInt(n)[1..] == Digits(m); }
  }

  /** Writing what was read is never longer, and changes nothing exactly when the
      text was already the shortest one. */
  lemma {:induction false} FormatOfParse(s: Bytes)
    requires ParseInt(s).Some?
    ensures |FormatInt(ParseInt(s).value)| <= |s|
    ensures ShortestInt(s) <==> s == FormatInt(ParseInt(s).value)
  {
    var n := ParseInt(s).value;
    if s[0] == MINUS || s[0] == PLUS {
      var digits := s[1..];
      DigitsOfMagnitude(digits);
      assert s == [s[0]] + digits;
      if s[0] == MINUS {
        if Magnitude(digits) == 0 {
          assert digits[0] == ZERO by { if digits[0] != ZERO { MagnitudePositive(digits); } }
          assert s != FormatInt(n) by { assert FormatInt(n)[0] == ZERO; }
        } else {
          if digits == Digits(Magnitude(digits)) { assert digits[0] != ZERO; }
          assert FormatInt(n) == [MINUS] + Digits(Magnitude(digits));
        }
      } else {
        assert !ShortestInt(s);
        assert FormatInt(n) == Digits(n);
      }
    } else {
      DigitsOfMagnitude(s);
    }
  }
}
