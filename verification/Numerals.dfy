/** Decimal numbers as Go's fmt and strconv packages print and read them. */
module Numerals {
  import opened Options
  import opened Hex

  const MIN_INT := -0x8000_0000_0000_0000
  const MAX_INT := 0x7FFF_FFFF_FFFF_FFFF

  predicate IsDigit(c: char) {
    '0' <= c <= '9'
  }

  /** %d of a number that is not negative. */
  function Decimal(n: nat): (s: string)
    ensures s != "" && forall c | c in s :: IsDigit(c)
  {
    if n < 10 then [LowerDigit(n)] else Decimal(n / 10) + [LowerDigit(n % 10)]
  }

  function ReadDigits(s: string): (value: Option<nat>)
    ensures value.Some? <==> forall c | c in s :: IsDigit(c)
  {
    if s == "" then Some(0)
    else
      var init, last := s[..|s| - 1], s[|s| - 1];
      assert s == init + [last];
      match ReadDigits(init)
      case None => None
      case Some(v) => if IsDigit(last) then Some(10 * v + (last - '0') as nat) else None
  }

  /** strconv.Atoi with 64-bit int: an optional sign, at least one digit, and the range of the type. */
  function Atoi(s: string): Option<int> {
    var signed := s != "" && (s[0] == '+' || s[0] == '-');
    var digits := if signed then s[1..] else s;
    if digits == "" then None
    else match ReadDigits(digits)
      case None => None
      case Some(v) =>
        var magnitude: int := v;
        var n := if signed && s[0] == '-' then -magnitude else magnitude;
        if MIN_INT <= n <= MAX_INT then Some(n) else None
  }

  lemma {:induction false} DecimalReadsBack(n: nat)
    ensures ReadDigits(Decimal(n)) == Some(n)
  {
    if n < 10 {
      DigitsReadBack(n);
      assert [LowerDigit(n)][..0] == "";
    } else {
      DecimalReadsBack(n / 10);
      DigitsReadBack(n % 10);
      assert Decimal(n)[..|Decimal(n)| - 1] == Decimal(n / 10);
    }
  }

  lemma AtoiOfDecimal(n: nat)
    requires n <= MAX_INT
    ensures Atoi(Decimal(n)) == Some(n)
  {
    DecimalReadsBack(n);
    assert Decimal(n)[0] in Decimal(n);
  }

  lemma AtoiOfSigned(n: nat)
    requires n <= MAX_INT
    ensures Atoi("+" + Decimal(n)) == Some(n) == Atoi(Decimal(n))
  {
    DecimalReadsBack(n);
    AtoiOfDecimal(n);
    assert ("+" + Decimal(n))[1..] == Decimal(n);
  }

  lemma {:induction false} NoLeadingZero(n: nat)
    ensures |Decimal(n)| > 1 ==> Decimal(n)[0] != '0'
  {
    if n >= 10 {
      NoLeadingZero(n / 10);
      if n < 100 {
        DigitsReadBack(n / 10);
      }
    }
  }

  /** The digits of a number as it is printed: none in front that says nothing. */
  predicate CanonicalDecimal(s: string) {
    s != "" && (forall c | c in s :: IsDigit(c)) && (|s| > 1 ==> s[0] != '0')
  }

  lemma {:induction false} PositiveIfLeading(s: string)
    requires CanonicalDecimal(s) && s[0] != '0'
    ensures ReadDigits(s).Some? && ReadDigits(s).value > 0
  {
    if |s| == 1 {
      assert s[..0] == "" && s[0] in s;
    } else {
      assert s == s[..|s| - 1] + [s[|s| - 1]];
      PositiveIfLeading(s[..|s| - 1]);
    }
  }

  lemma DigitIsPrinted(c: char)
    requires IsDigit(c)
    ensures LowerDigit((c - '0') as nat) == c
  {
  }

  lemma {:induction false} CanonicalPrintsBack(s: string)
    requires CanonicalDecimal(s)
    ensures ReadDigits(s).Some? && Decimal(ReadDigits(s).value) == s
  {
    var init, last := s[..|s| - 1], s[|s| - 1];
    assert s == init + [last] && last in s;
    DigitIsPrinted(last);
    if init == "" {
      assert ReadDigits(init) == Some(0);
    } else {
      assert init[0] == s[0];
      CanonicalPrintsBack(init);
      PositiveIfLeading(init);
      DecimalOfMore(ReadDigits(init).value, (last - '0') as nat);
    }
  }

  lemma DecimalOfMore(n: nat, digit: nat)
    requires n > 0 && digit < 10
    ensures Decimal(10 * n + digit) == Decimal(n) + [LowerDigit(digit)]
  {
    assert (10 * n + digit) / 10 == n && (10 * n + digit) % 10 == digit;
  }

  /** A number that is read prints as it was spelled if and only if it has no sign and no leading zero. */
  lemma PrintsBackIff(s: string)
    requires Atoi(s).Some? && Atoi(s).value >= 0
    ensures Decimal(Atoi(s).value) == s <==> CanonicalDecimal(s)
  {
    var n := Atoi(s).value;
    if CanonicalDecimal(s) {
      assert s[0] in s;
      CanonicalPrintsBack(s);
    } else {
      NoLeadingZero(n);
    }
  }

  /** Without a digit there is no number. */
  lemma NoDigitNoNumber()
    ensures Atoi("") == Atoi("+") == Atoi("-") == None
  {
    assert "+"[1..] == "-"[1..] == "";
  }

  /** A sign in front, and the range of a 64-bit int. */
  lemma AtoiOfSpelled(n: nat)
    ensures Atoi(Decimal(n)) == Atoi("+" + Decimal(n)) == if n <= 0x7FFF_FFFF_FFFF_FFFF then Some(n) else None
    ensures Atoi("-" + Decimal(n)) == if n <= 0x8000_0000_0000_0000 then Some(-(n as int)) else None
  {
    DecimalReadsBack(n);
    assert Decimal(n)[0] in Decimal(n);
    assert ("+" + Decimal(n))[1..] == Decimal(n) == ("-" + Decimal(n))[1..];
  }
}
