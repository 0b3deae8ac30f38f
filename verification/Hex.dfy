/** Hexadecimal digits, as printed and as read. */
module Hex {
  import opened Options

  function LowerDigit(n: nat): char
    requires n < 16
  {
    if n < 10 then '0' + n as char else 'a' + (n - 10) as char
  }

  function UpperDigit(n: nat): char
    requires n < 16
  {
    if n < 10 then '0' + n as char else 'A' + (n - 10) as char
  }

  /** The value of a digit of either case. */
  function DigitValue(c: char): Option<nat> {
    if '0' <= c <= '9' then Some((c - '0') as nat)
    else if 'a' <= c <= 'f' then Some((c - 'a') as nat + 10)
    else if 'A' <= c <= 'F' then Some((c - 'A') as nat + 10)
    else None
  }

  /** Two digits make a byte. */
  function ByteOf(high: char, low: char): Option<nat> {
    match (DigitValue(high), DigitValue(low))
    case (Some(h), Some(l)) => Some(16 * h + l)
    case _ => None
  }

  lemma UpperDigitIsPlain(n: nat)
    requires n < 16
    ensures '0' <= UpperDigit(n) <= '9' || 'A' <= UpperDigit(n) <= 'F'
  {
  }

  lemma DigitsReadBack(n: nat)
    requires n < 16
    ensures DigitValue(LowerDigit(n)) == Some(n) && DigitValue(UpperDigit(n)) == Some(n)
  {
  }

  lemma ByteReadsBack(b: nat)
    requires b < 256
    ensures ByteOf(LowerDigit(b / 16), LowerDigit(b % 16)) == Some(b)
    ensures ByteOf(UpperDigit(b / 16), UpperDigit(b % 16)) == Some(b)
  {
    DigitsReadBack(b / 16);
    DigitsReadBack(b % 16);
  }

  lemma ByteIsSmall(high: char, low: char)
    ensures ByteOf(high, low).Some? ==> ByteOf(high, low).value < 256
  {
  }

  /** The digits, spelled out. */
  lemma DigitTables(n: nat)
    requires n < 16
    ensures LowerDigit(n) == "0123456789abcdef"[n] && UpperDigit(n) == "0123456789ABCDEF"[n]
  {
  }
}
