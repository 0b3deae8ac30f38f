/**
 The line that stores the master password hash, services/keychain/master_password.go: scrypt parameters,
 salt and hash, printed and parsed.
 */
module HashLine {
  import opened Options
  import opened Hex
  import opened Numerals
  import opened Text

  const SCRYPT_KEY_LEN := 32
  const MIN_SCRYPT_N := 0x4000
  const MAX_SCRYPT_N := 0x10_0000
  const MAX_SCRYPT_R := 64
  const MAX_SCRYPT_P := 8

  newtype Byte = b: int | 0 <= b < 256

  datatype Params = Params(n: int, r: int, p: int, salt: seq<Byte>, hash: seq<Byte>)

  datatype ParseError =
    | FieldCount(got: nat)
    | Algorithm(name: string)
    | NotANumber(field: nat)
    | OutOfBounds(n: int, r: int, p: int)
    | NotHex(field: nat)
    | EmptySalt
    | HashLength(got: nat)

  datatype Result<T> = Ok(value: T) | Err(error: ParseError)

  predicate BoundsOk(n: int, r: int, p: int) {
    MIN_SCRYPT_N <= n <= MAX_SCRYPT_N && 1 <= r <= MAX_SCRYPT_R && 1 <= p <= MAX_SCRYPT_P
  }

  predicate InBounds(params: Params) {
    BoundsOk(params.n, params.r, params.p) && params.salt != [] && |params.hash| == SCRYPT_KEY_LEN
  }

  // ----- bytes -----

  /** hex.EncodeToString. */
  function EncodeHex(bytes: seq<Byte>): (s: string)
    ensures |s| == 2 * |bytes|
  {
    if bytes == [] then ""
    else [LowerDigit(bytes[0] as nat / 16), LowerDigit(bytes[0] as nat % 16)] + EncodeHex(bytes[1..])
  }

  /** hex.DecodeString: pairs of digits of either case. */
  function DecodeHex(s: string): Option<seq<Byte>> {
    if s == "" then Some([])
    else if |s| == 1 then None
    else
      match (ByteOf(s[0], s[1]), DecodeHex(s[2..]))
      case (Some(b), Some(rest)) =>
        ByteIsSmall(s[0], s[1]);
        Some([b as Byte] + rest)
      case _ => None
  }

  lemma {:induction false} HexReadsBack(bytes: seq<Byte>)
    ensures DecodeHex(EncodeHex(bytes)) == Some(bytes)
    ensures forall c | c in EncodeHex(bytes) :: DigitValue(c).Some?
  {
    if bytes != [] {
      HexReadsBack(bytes[1..]);
      ByteReadsBack(bytes[0] as nat);
      assert EncodeHex(bytes)[2..] == EncodeHex(bytes[1..]);
      assert bytes == [bytes[0]] + bytes[1..];
    }
  }

  // ----- the line -----

  function Fields(params: Params): seq<string>
    requires InBounds(params)
  {
    ["scrypt", Decimal(params.n), Decimal(params.r), Decimal(params.p), EncodeHex(params.salt), EncodeHex(params.hash)]
  }

  function PrintLine(params: Params): string
    requires InBounds(params)
  {
    Joined(Fields(params), '$')
  }

  function ParseFields(parts: seq<string>): Result<Params> {
    if |parts| != 6 then Err(FieldCount(|parts|))
    else if parts[0] != "scrypt" then Err(Algorithm(parts[0]))
    else if Atoi(parts[1]).None? then Err(NotANumber(1))
    else if Atoi(parts[2]).None? then Err(NotANumber(2))
    else if Atoi(parts[3]).None? then Err(NotANumber(3))
    else
      var n, r, p := Atoi(parts[1]).value, Atoi(parts[2]).value, Atoi(parts[3]).value;
      if !BoundsOk(n, r, p) then Err(OutOfBounds(n, r, p))
      else if DecodeHex(parts[4]).None? then Err(NotHex(4))
      else if DecodeHex(parts[4]).value == [] then Err(EmptySalt)
      else if DecodeHex(parts[5]).None? then Err(NotHex(5))
      else if |DecodeHex(parts[5]).value| != SCRYPT_KEY_LEN then Err(HashLength(|DecodeHex(parts[5]).value|))
      else Ok(Params(n, r, p, DecodeHex(parts[4]).value, DecodeHex(parts[5]).value))
  }

  function ParseLine(line: string): Result<Params> {
    ParseFields(Split(line, '$'))
  }

  /** What is printed is parsed back. */
  lemma RoundTrip(params: Params)
    requires InBounds(params)
    ensures ParseLine(PrintLine(params)) == Ok(params)
  {
    FieldsAreClean(params);
    SplitJoined(Fields(params), '$');
    AtoiOfDecimal(params.n);
    AtoiOfDecimal(params.r);
    AtoiOfDecimal(params.p);
    HexReadsBack(params.salt);
    HexReadsBack(params.hash);
  }

  /** White space around the line does not matter. */
  lemma RoundTripTrimmed(params: Params, before: string, after: string)
    requires InBounds(params)
    requires AllSpace(before) && AllSpace(after)
    ensures ParseLine(TrimSpace(before + PrintLine(params) + after)) == Ok(params)
  {
    RoundTrip(params);
    LineIsTight(params);
    TrimAround(before, PrintLine(params), after);
  }

  /** What is accepted is in bounds, whatever the line, and rewriting it loses nothing. */
  lemma AcceptedIsInBounds(line: string)
    requires ParseLine(line).Ok?
    ensures InBounds(ParseLine(line).value)
    ensures ParseLine(PrintLine(ParseLine(line).value)) == ParseLine(line)
  {
    RoundTrip(ParseLine(line).value);
  }

  lemma FieldsAreClean(params: Params)
    requires InBounds(params)
    ensures forall f | f in Fields(params) :: '$' !in f
  {
    HexReadsBack(params.salt);
    HexReadsBack(params.hash);
  }

  /** The line neither begins nor ends with white space. */
  lemma LineIsTight(params: Params)
    requires InBounds(params)
    ensures var line := PrintLine(params); line != "" && !IsSpace(line[0]) && !IsSpace(line[|line| - 1])
  {
    HexReadsBack(params.hash);
    var hash := EncodeHex(params.hash);
    assert hash[|hash| - 1] in hash;
    LastOfJoined(Fields(params), '$');
  }

  lemma {:induction false} LastOfJoined(fields: seq<string>, sep: char)
    requires fields != [] && fields[|fields| - 1] != ""
    ensures var line, last := Joined(fields, sep), fields[|fields| - 1];
            |line| >= |last| && line[|line| - 1] == last[|last| - 1]
  {
    if |fields| > 1 {
      LastOfJoined(fields[1..], sep);
    }
  }

  /** The parser also accepts lines that are never printed, such as one with a sign before N. */
  lemma AcceptedNotPrinted(params: Params)
    requires InBounds(params)
    ensures var fields := Fields(params)[1 := "+" + Decimal(params.n)];
            ParseLine(Joined(fields, '$')) == Ok(params) && Joined(fields, '$') != PrintLine(params)
  {
    var plain := Fields(params);
    var signed := plain[1 := "+" + Decimal(params.n)];
    FieldsAreClean(params);
    assert forall f | f in signed :: f == signed[1] || f in plain;
    SplitJoined(signed, '$');
    SplitJoined(plain, '$');
    assert signed[1] != plain[1];
    RoundTrip(params);
    AtoiOfSigned(params.n);
    SameNumberParsesAlike(plain, signed);
  }

  lemma SameNumberParsesAlike(fields: seq<string>, fields': seq<string>)
    requires |fields| == |fields'| == 6 && fields' == fields[1 := fields'[1]]
    requires Atoi(fields[1]) == Atoi(fields'[1])
    ensures ParseFields(fields) == ParseFields(fields')
  {
  }

  /** No capital digit. */
  predicate LowerHex(s: string) {
    forall i | 0 <= i < |s| :: !('A' <= s[i] <= 'F')
  }

  lemma DigitPrintsBackIff(c: char)
    requires DigitValue(c).Some?
    ensures LowerDigit(DigitValue(c).value) == c <==> !('A' <= c <= 'F')
  {
  }

  lemma PairPrintsBackIff(high: char, low: char)
    requires ByteOf(high, low).Some?
    ensures var b := ByteOf(high, low).value;
            && b < 256
            && (LowerDigit(b / 16) == high && LowerDigit(b % 16) == low <==>
                !('A' <= high <= 'F') && !('A' <= low <= 'F'))
  {
    DigitPrintsBackIff(high);
    DigitPrintsBackIff(low);
  }

  lemma LowerHexOfPair(s: string)
    requires |s| >= 2
    ensures LowerHex(s) <==> !('A' <= s[0] <= 'F') && !('A' <= s[1] <= 'F') && LowerHex(s[2..])
  {
    assert forall i | 2 <= i < |s| :: s[i] == s[2..][i - 2];
  }

  lemma SamePairs(s: string, high: char, low: char, rest: string)
    requires |s| >= 2
    ensures [high, low] + rest == s <==> high == s[0] && low == s[1] && rest == s[2..]
  {
    assert s == [s[0], s[1]] + s[2..];
    assert ([high, low] + rest)[2..] == rest;
  }

  lemma {:induction false} HexPrintsBackIff(s: string)
    requires DecodeHex(s).Some?
    ensures EncodeHex(DecodeHex(s).value) == s <==> LowerHex(s)
  {
    if s != "" {
      HexPrintsBackIff(s[2..]);
      PairPrintsBackIff(s[0], s[1]);
      LowerHexOfPair(s);
      var b, rest := ByteOf(s[0], s[1]).value, DecodeHex(s[2..]).value;
      SamePairs(s, LowerDigit(b / 16), LowerDigit(b % 16), EncodeHex(rest));
      EncodeOfCons(b as Byte, rest);
    }
  }

  lemma EncodeOfCons(b: Byte, rest: seq<Byte>)
    ensures EncodeHex([b] + rest) == [LowerDigit(b as nat / 16), LowerDigit(b as nat % 16)] + EncodeHex(rest)
  {
    assert ([b] + rest)[1..] == rest;
  }

  /** The lines as they are printed: numbers without sign and leading zero, no capital digit. */
  predicate Canonical(line: string) {
    var f := Split(line, '$');
    && |f| == 6
    && CanonicalDecimal(f[1]) && CanonicalDecimal(f[2]) && CanonicalDecimal(f[3])
    && LowerHex(f[4]) && LowerHex(f[5])
  }

  /** An accepted line is printed again as it was if and only if it is canonical. */
  lemma PrintedAgainIff(line: string)
    requires ParseLine(line).Ok?
    ensures PrintLine(ParseLine(line).value) == line <==> Canonical(line)
  {
    var params, f := ParseLine(line).value, Split(line, '$');
    SameFieldsIff(params, line);
    FieldsAgreeIff(params, f);
  }

  lemma FieldsAgreeIff(params: Params, f: seq<string>)
    requires InBounds(params) && |f| == 6 && f[0] == "scrypt"
    requires Atoi(f[1]) == Some(params.n) && Atoi(f[2]) == Some(params.r) && Atoi(f[3]) == Some(params.p)
    requires DecodeHex(f[4]) == Some(params.salt) && DecodeHex(f[5]) == Some(params.hash)
    ensures Fields(params) == f <==>
            && CanonicalDecimal(f[1]) && CanonicalDecimal(f[2]) && CanonicalDecimal(f[3])
            && LowerHex(f[4]) && LowerHex(f[5])
  {
    NumbersPrintBackIff(f[1], f[2], f[3]);
    HexPrintsBackIff(f[4]);
    HexPrintsBackIff(f[5]);
    SameSixIff(Fields(params), f);
  }

  lemma SameSixIff(a: seq<string>, b: seq<string>)
    requires |a| == |b| == 6
    ensures a == b <==> a[0] == b[0] && a[1] == b[1] && a[2] == b[2] && a[3] == b[3] && a[4] == b[4] && a[5] == b[5]
  {
  }

  lemma NumbersPrintBackIff(n: string, r: string, p: string)
    requires Atoi(n).Some? && Atoi(r).Some? && Atoi(p).Some?
    requires Atoi(n).value >= 0 && Atoi(r).value >= 0 && Atoi(p).value >= 0
    ensures Decimal(Atoi(n).value) == n <==> CanonicalDecimal(n)
    ensures Decimal(Atoi(r).value) == r <==> CanonicalDecimal(r)
    ensures Decimal(Atoi(p).value) == p <==> CanonicalDecimal(p)
  {
    PrintsBackIff(n);
    PrintsBackIff(r);
    PrintsBackIff(p);
  }

  lemma SameFieldsIff(params: Params, line: string)
    requires InBounds(params)
    ensures PrintLine(params) == line <==> Fields(params) == Split(line, '$')
  {
    FieldsAreClean(params);
    SplitJoined(Fields(params), '$');
    JoinedSplit(line, '$');
  }

  // ----- the line, spelled out -----

  /** Byte k is at digits 2k and 2k + 1, the high half first. */
  lemma {:induction false} HexAt(bytes: seq<Byte>, k: nat)
    requires k < |bytes|
    ensures var b, s := bytes[k] as nat, EncodeHex(bytes);
            s[2 * k] == "0123456789abcdef"[b / 16] && s[2 * k + 1] == "0123456789abcdef"[b % 16]
  {
    if k == 0 {
      DigitTables(bytes[0] as nat / 16);
      DigitTables(bytes[0] as nat % 16);
    } else {
      HexAt(bytes[1..], k - 1);
    }
  }

  lemma JoinSix(f: seq<string>)
    requires |f| == 6
    ensures Joined(f, '$') == f[0] + "$" + f[1] + "$" + f[2] + "$" + f[3] + "$" + f[4] + "$" + f[5]
  {
    assert f[5..] == [f[5]] && f[4..][1..] == f[5..] && f[3..][1..] == f[4..];
    assert f[2..][1..] == f[3..] && f[1..][1..] == f[2..];
    var j5, j4 := f[5], f[4] + "$" + f[5];
    var j3 := f[3] + "$" + j4;
    var j2 := f[2] + "$" + j3;
    var j1 := f[1] + "$" + j2;
    assert Joined(f[5..], '$') == j5;
    assert Joined(f[4..], '$') == j4;
    assert Joined(f[3..], '$') == j3;
    assert Joined(f[2..], '$') == j2;
    assert Joined(f[1..], '$') == j1;
    assert f[0] + "$" + j1 == f[0] + "$" + f[1] + "$" + f[2] + "$" + f[3] + "$" + f[4] + "$" + f[5];
  }

  /** The printed line: the algorithm, N, r and p in decimal, salt and hash in hexadecimal. */
  lemma LineSpelled(params: Params)
    requires InBounds(params)
    ensures PrintLine(params) ==
            "scrypt" + "$" + Decimal(params.n) + "$" + Decimal(params.r) + "$" + Decimal(params.p)
            + "$" + EncodeHex(params.salt) + "$" + EncodeHex(params.hash)
  {
    JoinSix(Fields(params));
  }

  /** A line is accepted if and only if it has six fields, the algorithm's name, three numbers in their bounds,
      a salt that is not empty and a hash of 32 bytes. */
  lemma AcceptedIff(line: string)
    ensures ParseLine(line).Ok? <==>
            var f := Split(line, '$');
            && |f| == 6 && f[0] == "scrypt"
            && Atoi(f[1]).Some? && 16384 <= Atoi(f[1]).value <= 1048576
            && Atoi(f[2]).Some? && 1 <= Atoi(f[2]).value <= 64
            && Atoi(f[3]).Some? && 1 <= Atoi(f[3]).value <= 8
            && DecodeHex(f[4]).Some? && DecodeHex(f[4]).value != []
            && DecodeHex(f[5]).Some? && |DecodeHex(f[5]).value| == 32
  {
  }

  /** A refusal tells what is wrong with the line. */
  lemma RefusalTells(line: string)
    requires ParseLine(line).Err?
    ensures var f := Split(line, '$');
            match ParseLine(line).error
            case FieldCount(got) => got == |f| != 6
            case Algorithm(name) => |f| == 6 && name == f[0] != "scrypt"
            case NotANumber(k) => |f| == 6 && 1 <= k <= 3 && Atoi(f[k]) == None
            case OutOfBounds(n, r, p) =>
              && |f| == 6 && Atoi(f[1]) == Some(n) && Atoi(f[2]) == Some(r) && Atoi(f[3]) == Some(p)
              && !(16384 <= n <= 1048576 && 1 <= r <= 64 && 1 <= p <= 8)
            case NotHex(k) => |f| == 6 && 4 <= k <= 5 && DecodeHex(f[k]) == None
            case EmptySalt => |f| == 6 && DecodeHex(f[4]) == Some([])
            case HashLength(got) => |f| == 6 && DecodeHex(f[5]).Some? && got == |DecodeHex(f[5]).value| != 32
  {
  }
}
