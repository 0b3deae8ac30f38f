/**
 The target list of a sweep, services/scanner/service.go (buildTargets and completeRangeEnd): single
 addresses, ranges with a full or a bare end, and CIDR blocks, as they are spelled.
 */
module Targets {
  import opened Options
  import opened Feeders
  import opened Numerals
  import opened Text

  /** A parsed address. An IPv4-mapped IPv6 address counts as the IPv4 address it holds. */
  datatype Address = V4(ip: IPv4, mapped: bool) | V6

  /** The library's reading of the strings that begin as IPv6 addresses. */
  type ReadV6 = string -> Option<Address>

  // ----- addresses -----

  /** One field of a dotted quad: digits, no leading zero, at most 255. */
  function Octet(s: string): Option<Byte> {
    if s == "" || (|s| > 1 && s[0] == '0') then None
    else match ReadDigits(s)
      case None => None
      case Some(n) => if n < 0x100 then Some(n as Byte) else None
  }

  function ReadV4(s: string): Option<IPv4> {
    var f := Split(s, '.');
    if |f| != 4 then None
    else match (Octet(f[0]), Octet(f[1]), Octet(f[2]), Octet(f[3]))
      case (Some(a), Some(b), Some(c), Some(d)) => Some(IPv4(a, b, c, d))
      case _ => None
  }

  /** net.ParseIP: which of '.', ':' and '%' comes first tells the family. */
  function ParseIP(s: string, readV6: ReadV6): Option<Address> {
    var dot, colon, zone := IndexOf(s, '.'), IndexOf(s, ':'), IndexOf(s, '%');
    if dot < colon && dot < zone then
      match ReadV4(s) { case None => None case Some(ip) => Some(V4(ip, false)) }
    else if colon < zone then readV6(s)
    else None
  }

  /** net.ParseCIDR: the address and the prefix length within its 32 bits. A block of mapped addresses
      that is wider than those is not IPv4. */
  function ParseCIDR(s: string, readV6: ReadV6): Option<(IPv4, nat)> {
    var slash := IndexOf(s, '/');
    if slash == |s| || s[slash + 1..] == "" then None
    else BlockOf(ParseIP(s[..slash], readV6), ReadDigits(s[slash + 1..]))
  }

  function BlockOf(address: Option<Address>, ones: Option<nat>): Option<(IPv4, nat)> {
    match (address, ones)
    case (Some(V4(ip, false)), Some(n)) => if n <= 32 then Some((ip, n)) else None
    case (Some(V4(ip, true)), Some(n)) => if 96 <= n <= 128 then Some((ip, n - 96)) else None
    case _ => None
  }

  function Quad(ip: IPv4): seq<string> {
    [Decimal(ip.a as nat), Decimal(ip.b as nat), Decimal(ip.c as nat), Decimal(ip.d as nat)]
  }

  /** The dotted quad. */
  function FormatIP(ip: IPv4): string {
    Joined(Quad(ip), '.')
  }

  /** The dotted quad with another last field. */
  function WithLast(ip: IPv4, last: nat): string {
    Joined([Decimal(ip.a as nat), Decimal(ip.b as nat), Decimal(ip.c as nat), Decimal(last)], '.')
  }

  // ----- one specification -----

  /** completeRangeEnd. */
  function CompletedEnd(start: string, end: string, readV6: ReadV6): Option<string> {
    if ParseIP(end, readV6).Some? then Some(end)
    else match (ParseIP(start, readV6), Atoi(end))
      case (Some(V4(ip, _)), Some(last)) =>
        if 0 <= last <= 255 then Some(WithLast(ip, last)) else None
      case _ => None
  }

  /** The addresses between two spelled ends, if there are not too many. */
  function RangeSpec(start: string, end: string, readV6: ReadV6): Option<seq<int>> {
    match (ParseIP(start, readV6), ParseIP(end, readV6))
    case (Some(V4(s, _)), Some(V4(e, _))) =>
      if |RangeTargets(s, e)| <= MAX_RANGE_SIZE then Some(RangeTargets(s, e)) else None
    case _ => None
  }

  function BlockSpec(spec: string, readV6: ReadV6): Option<seq<int>> {
    match ParseCIDR(spec, readV6)
    case None => None
    case Some((ip, ones)) => SmallBlock(ip, ones)
  }

  function SmallBlock(ip: IPv4, ones: nat): Option<seq<int>>
    requires ones <= 32
  {
    if Pow2(32 - ones) <= MAX_RANGE_SIZE then Some(BlockTargets(ip, ones)) else None
  }

  /** The addresses between two ends, the second completed. */
  function CompletedRange(start: string, end: string, readV6: ReadV6): Option<seq<int>> {
    match CompletedEnd(start, end, readV6)
    case None => None
    case Some(completed) => RangeSpec(start, completed, readV6)
  }

  /** Two ends cut at the first dash. */
  function DashedTargets(spec: string, readV6: ReadV6): Option<seq<int>> {
    var dash := IndexOf(spec, '-');
    if dash == |spec| then None else CompletedRange(spec[..dash], spec[dash + 1..], readV6)
  }

  /** The addresses one specification stands for, or None for an error. */
  function SpecTargets(spec: string, readV6: ReadV6): Option<seq<int>> {
    if '/' in spec then BlockSpec(spec, readV6)
    else match ParseIP(spec, readV6)
      case Some(V6) => None
      case Some(V4(_, _)) => RangeSpec(spec, spec, readV6)
      case None => DashedTargets(spec, readV6)
  }

  function MeaningIn(readV6: ReadV6): string -> Option<seq<int>> {
    spec => SpecTargets(spec, readV6)
  }

  /** What the first n specifications mean, one after the other, or None if one of them is an error. */
  function AllOf(meaning: string -> Option<seq<int>>, specs: seq<string>, n: nat): Option<seq<int>>
    requires n <= |specs|
  {
    if n == 0 then Some([])
    else match (AllOf(meaning, specs, n - 1), meaning(specs[n - 1]))
      case (Some(before), Some(more)) => Some(before + more)
      case _ => None
  }

  function AllTargets(specs: seq<string>, readV6: ReadV6): Option<seq<int>> {
    AllOf(MeaningIn(readV6), specs, |specs|)
  }

  method CompleteRangeEnd(start: string, end: string, readV6: ReadV6) returns (r: Option<string>)
    ensures r == CompletedEnd(start, end, readV6)
  {
    if ParseIP(end, readV6).Some? {
      return Some(end);
    }
    var startIP := ParseIP(start, readV6);
    if startIP.None? || startIP.value.V6? {
      return None;
    }
    var octets := Split(FormatIP(startIP.value.ip), '.');
    FormatSplits(startIP.value.ip);
    var last := Atoi(end);
    if last.None? || last.value < 0 || last.value > 255 {
      return None;
    }
    r := Some(Joined([octets[0], octets[1], octets[2], Decimal(last.value)], '.'));
  }

  /** The addresses collected are those meant, or both are an error. */
  ghost predicate Collects(r: Option<seq<IPv4>>, meant: Option<seq<int>>) {
    (r.Some? <==> meant.Some?) && (r.Some? ==> AsIps(r.value, meant.value))
  }

  /** NewRangeFeeder and Collect, from the spelled ends. */
  method CollectRange(start: string, end: string, readV6: ReadV6) returns (r: Option<seq<IPv4>>)
    ensures Collects(r, RangeSpec(start, end, readV6))
  {
    match (ParseIP(start, readV6), ParseIP(end, readV6)) {
      case (Some(V4(s, _)), Some(V4(e, _))) => {
        var f := NewRangeFeeder(s, e, false);
        if f.Err? {
          return None;
        }
        var ips := f.value.Collect();
        r := Some(ips);
      }
      case _ => r := None;
    }
  }

  method CollectBlock(spec: string, readV6: ReadV6) returns (r: Option<seq<IPv4>>)
    ensures Collects(r, BlockSpec(spec, readV6))
  {
    match ParseCIDR(spec, readV6) {
      case None => r := None;
      case Some((ip, ones)) => r := CollectSmallBlock(ip, ones);
    }
  }

  method CollectSmallBlock(ip: IPv4, ones: nat) returns (r: Option<seq<IPv4>>)
    requires ones <= 32
    ensures Collects(r, SmallBlock(ip, ones))
  {
    var f := NewCIDRFeeder(ip, ones, false);
    if f.Err? {
      return None;
    }
    var ips := f.value.Collect();
    r := Some(ips);
  }

  method CollectCompleted(start: string, end: string, readV6: ReadV6) returns (r: Option<seq<IPv4>>)
    ensures Collects(r, CompletedRange(start, end, readV6))
  {
    var completed := CompleteRangeEnd(start, end, readV6);
    if completed.None? {
      return None;
    }
    r := CollectRange(start, completed.value, readV6);
  }

  /** A specification that is neither a block nor an address. */
  method CollectDashed(spec: string, readV6: ReadV6) returns (r: Option<seq<IPv4>>)
    ensures Collects(r, DashedTargets(spec, readV6))
  {
    var dash := IndexOf(spec, '-');
    if dash == |spec| {
      return None;
    }
    r := CollectCompleted(spec[..dash], spec[dash + 1..], readV6);
  }

  method CollectSpec(spec: string, readV6: ReadV6) returns (r: Option<seq<IPv4>>)
    ensures Collects(r, SpecTargets(spec, readV6))
  {
    if '/' in spec {
      r := CollectBlock(spec, readV6);
      return;
    }
    var ip := ParseIP(spec, readV6);
    if ip.None? {
      r := CollectDashed(spec, readV6);
      return;
    }
    if ip.value.V6? {
      return None;
    }
    r := CollectRange(spec, spec, readV6);
  }

  /** buildTargets. Without a specification the local networks are asked for, here `local`. */
  method BuildTargets(specs: seq<string>, readV6: ReadV6, local: Option<seq<IPv4>>) returns (r: Option<seq<IPv4>>)
    ensures if specs == [] then r == local else Collects(r, AllTargets(specs, readV6))
  {
    if |specs| == 0 {
      return local;
    }
    r := CollectAll(specs, readV6, MeaningIn(readV6));
  }

  ghost predicate Mean(meaning: string -> Option<seq<int>>, readV6: ReadV6) {
    forall spec {:trigger SpecTargets(spec, readV6)} :: meaning(spec) == SpecTargets(spec, readV6)
  }

  method CollectAll(specs: seq<string>, readV6: ReadV6, ghost meaning: string -> Option<seq<int>>)
    returns (r: Option<seq<IPv4>>)
    requires Mean(meaning, readV6)
    ensures Collects(r, AllOf(meaning, specs, |specs|))
  {
    var out: seq<IPv4> := [];
    for i := 0 to |specs|
      invariant Collects(Some(out), AllOf(meaning, specs, i))
    {
      var ips := CollectMeant(specs[i], readV6, meaning);
      CollectsNext(meaning, specs, i, out, ips);
      if ips.None? {
        return None;
      }
      out := out + ips.value;
    }
    r := Some(out);
  }

  method CollectMeant(spec: string, readV6: ReadV6, ghost meaning: string -> Option<seq<int>>)
    returns (r: Option<seq<IPv4>>)
    requires Mean(meaning, readV6)
    ensures Collects(r, meaning(spec))
  {
    r := CollectSpec(spec, readV6);
  }

  lemma CollectsNext(meaning: string -> Option<seq<int>>, specs: seq<string>, i: nat, out: seq<IPv4>,
                     ips: Option<seq<IPv4>>)
    requires i < |specs| && Collects(Some(out), AllOf(meaning, specs, i)) && Collects(ips, meaning(specs[i]))
    ensures ips.Some? ==> Collects(Some(out + ips.value), AllOf(meaning, specs, i + 1))
    ensures ips.None? ==> AllOf(meaning, specs, |specs|).None?
  {
    if ips.None? {
      NoneStays(meaning, specs, i + 1);
    }
  }

  lemma {:induction false} NoneStays(meaning: string -> Option<seq<int>>, specs: seq<string>, n: nat)
    requires n <= |specs| && AllOf(meaning, specs, n).None?
    ensures AllOf(meaning, specs, |specs|).None?
    decreases |specs| - n
  {
    if n < |specs| {
      NoneStays(meaning, specs, n + 1);
    }
  }

  // ----- what the spellings mean -----

  lemma FormatSplits(ip: IPv4)
    ensures Split(FormatIP(ip), '.') == Quad(ip)
  {
    SplitJoined(Quad(ip), '.');
  }

  lemma OctetReadsBack(b: Byte)
    ensures Octet(Decimal(b as nat)) == Some(b)
  {
    NoLeadingZero(b as nat);
    DecimalReadsBack(b as nat);
  }

  /** A dotted quad holds digits and dots only. */
  lemma FormatIsPlain(ip: IPv4)
    ensures '.' in FormatIP(ip) && forall c | c in FormatIP(ip) :: c == '.' || IsDigit(c)
  {
    var q := Quad(ip);
    assert FormatIP(ip) == q[0] + ['.'] + (q[1] + ['.'] + (q[2] + ['.'] + q[3])) by {
      assert Joined(q[3..], '.') == q[3];
      assert q[2..][1..] == q[3..] && q[1..][1..] == q[2..];
      assert Joined(q[2..], '.') == q[2] + ['.'] + Joined(q[3..], '.');
      assert Joined(q[1..], '.') == q[1] + ['.'] + Joined(q[2..], '.');
    }
  }

  lemma ParsesBack(ip: IPv4, readV6: ReadV6)
    ensures ParseIP(FormatIP(ip), readV6) == Some(V4(ip, false))
  {
    FormatIsPlain(ip);
    FormatSplits(ip);
    OctetReadsBack(ip.a);
    OctetReadsBack(ip.b);
    OctetReadsBack(ip.c);
    OctetReadsBack(ip.d);
  }

  lemma NumberIsNoIP(n: nat, readV6: ReadV6)
    ensures ParseIP(Decimal(n), readV6) == None
  {
  }

  /** A single address stands for itself. */
  lemma SingleAddress(ip: IPv4, readV6: ReadV6)
    ensures SpecTargets(FormatIP(ip), readV6) == Some([IpToUint32(ip) as int])
  {
    ParsesBack(ip, readV6);
    FormatIsPlain(ip);
    assert RangeTargets(ip, ip) == [IpToUint32(ip) as int];
  }

  lemma DashedSpec(spec: string, start: string, end: string, readV6: ReadV6)
    requires '/' !in spec && ParseIP(spec, readV6).None? && '-' in spec
    requires spec[..IndexOf(spec, '-')] == start && spec[IndexOf(spec, '-') + 1..] == end
    ensures SpecTargets(spec, readV6) == CompletedRange(start, end, readV6)
  {
  }

  lemma OctetIff(s: string, b: Byte)
    ensures Octet(s) == Some(b) <==> s == Decimal(b as nat)
  {
    OctetReadsBack(b);
    if Octet(s) == Some(b) {
      CanonicalPrintsBack(s);
    }
  }

  /** The dotted quad, spelled out. */
  lemma QuadSpelled(ip: IPv4)
    ensures FormatIP(ip) ==
            Decimal(ip.a as nat) + "." + Decimal(ip.b as nat) + "." + Decimal(ip.c as nat) + "." + Decimal(ip.d as nat)
  {
    var q := Quad(ip);
    assert q[2..][1..] == q[3..] && q[1..][1..] == q[2..];
    assert Joined(q[3..], '.') == q[3];
    assert Joined(q[2..], '.') == q[2] + "." + q[3];
    assert Joined(q[1..], '.') == q[1] + "." + (q[2] + "." + q[3]);
  }

  /** An address is read from exactly one spelling: four decimal octets without a leading zero. */
  lemma ReadsIff(s: string, ip: IPv4)
    ensures ReadV4(s) == Some(ip) <==> s == FormatIP(ip)
  {
    FormatSplits(ip);
    JoinedSplit(s, '.');
    var f := Split(s, '.');
    if |f| == 4 {
      OctetIff(f[0], ip.a);
      OctetIff(f[1], ip.b);
      OctetIff(f[2], ip.c);
      OctetIff(f[3], ip.d);
    }
    if ReadV4(s) == Some(ip) {
      assert f == Quad(ip);
    }
  }

  lemma V4HoldsNoDash(s: string)
    ensures '-' in s ==> ReadV4(s) == None
  {
    if ReadV4(s).Some? {
      ReadsIff(s, ReadV4(s).value);
      FormatIsPlain(ReadV4(s).value);
    }
  }

  /** Text that begins with a dotted quad and goes on with a dash is no address. */
  lemma DashIsNoIP(start: IPv4, end: string, readV6: ReadV6)
    ensures ParseIP(FormatIP(start) + ['-'] + end, readV6) == None
  {
    var first := FormatIP(start);
    var s := first + ['-'] + end;
    FormatIsPlain(start);
    var dot := IndexOf(first, '.');
    assert s[dot] == '.';
    assert forall k | 0 <= k <= dot :: s[k] == first[k] && first[k] in first;
    assert IndexOf(s, '.') <= dot && IndexOf(s, ':') > dot && IndexOf(s, '%') > dot;
    assert s[|first|] == '-';
    V4HoldsNoDash(s);
  }

  /** The addresses of a range if there are not too many. */
  function SmallRange(start: IPv4, end: IPv4): Option<seq<int>> {
    if |RangeTargets(start, end)| <= 0x1_0000 then Some(RangeTargets(start, end)) else None
  }

  lemma CompletedMeans(start: IPv4, end: string, readV6: ReadV6)
    ensures CompletedRange(FormatIP(start), end, readV6) ==
            match ParseIP(end, readV6)
            case Some(V4(last, _)) => SmallRange(start, last)
            case Some(V6) => None
            case None =>
              if Atoi(end).Some? && 0 <= Atoi(end).value <= 255
              then SmallRange(start, start.(d := Atoi(end).value as Byte)) else None
  {
    ParsesBack(start, readV6);
    if ParseIP(end, readV6).None? && Atoi(end).Some? && 0 <= Atoi(end).value <= 255 {
      ParsesBack(start.(d := Atoi(end).value as Byte), readV6);
    }
  }

  /** A spelled start, a dash and any end: a full end makes the range to it, a number from 0 to 255 replaces
      the last octet of the start, and everything else is refused. */
  lemma AnyEnd(start: IPv4, end: string, readV6: ReadV6)
    requires '/' !in end
    ensures SpecTargets(FormatIP(start) + "-" + end, readV6) ==
            match ParseIP(end, readV6)
            case Some(V4(last, _)) => SmallRange(start, last)
            case Some(V6) => None
            case None =>
              if Atoi(end).Some? && 0 <= Atoi(end).value <= 255
              then SmallRange(start, start.(d := Atoi(end).value as Byte)) else None
  {
    var first := FormatIP(start);
    var spec := first + ['-'] + end;
    FormatIsPlain(start);
    assert spec[|first|] == '-';
    CutAt(first, '-', end);
    DashIsNoIP(start, end, readV6);
    DashedSpec(spec, first, end, readV6);
    CompletedMeans(start, end, readV6);
  }

  /** Two full ends stand for the addresses between them, both included, in the direction written. */
  lemma FullRange(start: IPv4, end: IPv4, readV6: ReadV6)
    ensures SpecTargets(FormatIP(start) + "-" + FormatIP(end), readV6) == SmallRange(start, end)
  {
    FormatIsPlain(end);
    ParsesBack(end, readV6);
    AnyEnd(start, FormatIP(end), readV6);
  }

  /** A bare end stands for the start address with its last octet replaced; it is refused exactly when it
      is not an octet. */
  lemma BareEnd(start: IPv4, last: nat, readV6: ReadV6)
    ensures SpecTargets(FormatIP(start) + "-" + Decimal(last), readV6) ==
            if last < 0x100 then Some(RangeTargets(start, start.(d := last as Byte))) else None
  {
    NumberIsNoIP(last, readV6);
    AtoiOfSpelled(last);
    AnyEnd(start, Decimal(last), readV6);
  }

  lemma CIDRParts(addr: string, mask: string, readV6: ReadV6)
    requires '/' !in addr && mask != ""
    ensures ParseCIDR(addr + ['/'] + mask, readV6) == BlockOf(ParseIP(addr, readV6), ReadDigits(mask))
  {
    CutAt(addr, '/', mask);
  }

  function BlockMeaning(block: Option<(IPv4, nat)>): Option<seq<int>> {
    match block
    case None => None
    case Some((ip, ones)) => if 16 <= ones <= 32 then Some(BlockTargets(ip, ones)) else None
  }

  lemma BlockSpecMeans(spec: string, readV6: ReadV6)
    requires '/' in spec
    ensures SpecTargets(spec, readV6) == BlockMeaning(ParseCIDR(spec, readV6))
  {
    match ParseCIDR(spec, readV6) {
      case None =>
      case Some((ip, ones)) => SmallBlockIff(ones);
    }
  }

  lemma CIDRMeans(addr: string, mask: string, readV6: ReadV6)
    requires '/' !in addr && mask != ""
    ensures SpecTargets(addr + ['/'] + mask, readV6) ==
            BlockMeaning(BlockOf(ParseIP(addr, readV6), ReadDigits(mask)))
  {
    var spec := addr + ['/'] + mask;
    assert spec[|addr|] == '/';
    CIDRParts(addr, mask, readV6);
    BlockSpecMeans(spec, readV6);
  }

  lemma ReadBlock(addr: string, mask: string, ip: IPv4, ones: nat, readV6: ReadV6)
    requires '/' !in addr && mask != ""
    requires ParseIP(addr, readV6) == Some(V4(ip, false)) && ReadDigits(mask) == Some(ones)
    ensures SpecTargets(addr + ['/'] + mask, readV6) ==
            if 16 <= ones <= 32 then Some(BlockTargets(ip, ones)) else None
  {
    CIDRMeans(addr, mask, readV6);
  }

  /** A block stands for its addresses if its prefix is from 16 to 32 bits long; otherwise it is refused. */
  lemma Block(ip: IPv4, ones: nat, readV6: ReadV6)
    ensures SpecTargets(FormatIP(ip) + ['/'] + Decimal(ones), readV6) ==
            if 16 <= ones <= 32 then Some(BlockTargets(ip, ones)) else None
  {
    DecimalReadsBack(ones);
    FormatIsPlain(ip);
    ParsesBack(ip, readV6);
    ReadBlock(FormatIP(ip), Decimal(ones), ip, ones, readV6);
  }

  lemma {:induction false} AllOfMembers(meaning: string -> Option<seq<int>>, specs: seq<string>, n: nat)
    requires n <= |specs|
    ensures var all := AllOf(meaning, specs, n);
            && (all.Some? <==> forall k | 0 <= k < n :: meaning(specs[k]).Some?)
            && (all.Some? ==> forall v :: v in all.value <==> exists k | 0 <= k < n :: v in meaning(specs[k]).value)
  {
    if n > 0 {
      AllOfMembers(meaning, specs, n - 1);
    }
  }

  /** All or nothing: the list fails exactly when one specification does; otherwise it holds exactly what
      they stand for. */
  lemma AllOrNothing(specs: seq<string>, readV6: ReadV6)
    ensures var all, meaning := AllTargets(specs, readV6), MeaningIn(readV6);
            && (all.Some? <==> forall k | 0 <= k < |specs| :: meaning(specs[k]).Some?)
            && (all.Some? ==>
                  forall v :: v in all.value <==> exists k | 0 <= k < |specs| :: v in meaning(specs[k]).value)
  {
    AllOfMembers(MeaningIn(readV6), specs, |specs|);
  }

  // ----- every spelling -----

  lemma NoneBefore(before: string, c: char, rest: string, d: char)
    requires c !in before && d !in before && d != c
    ensures IndexOf(before + [c] + rest, c) == |before| < IndexOf(before + [c] + rest, d)
  {
    var s := before + [c] + rest;
    CutAt(before, c, rest);
    assert forall k | 0 <= k < |before| :: s[k] == before[k] && before[k] in before;
    assert s[|before|] == c;
  }

  /** Which reader a string goes to: the first dot, colon or percent sign tells. */
  lemma FamilyIff(before: string, rest: string, readV6: ReadV6)
    requires '.' !in before && ':' !in before && '%' !in before
    ensures ParseIP(before + ['.'] + rest, readV6) ==
            match ReadV4(before + ['.'] + rest) { case None => None case Some(ip) => Some(V4(ip, false)) }
    ensures ParseIP(before + [':'] + rest, readV6) == readV6(before + [':'] + rest)
    ensures ParseIP(before + ['%'] + rest, readV6) == ParseIP(before, readV6) == None
  {
    NoneBefore(before, '.', rest, ':');
    NoneBefore(before, '.', rest, '%');
    NoneBefore(before, ':', rest, '.');
    NoneBefore(before, ':', rest, '%');
    NoneBefore(before, '%', rest, '.');
    NoneBefore(before, '%', rest, ':');
  }

  /** A block of a mapped address counts its prefix from bit 96; the others are no blocks of IPv4. */
  lemma MappedBlock(addr: string, mask: string, ip: IPv4, ones: nat, readV6: ReadV6)
    requires '/' !in addr && mask != ""
    requires ParseIP(addr, readV6) == Some(V4(ip, true)) && ReadDigits(mask) == Some(ones)
    ensures SpecTargets(addr + ['/'] + mask, readV6) ==
            if 112 <= ones <= 128 then Some(BlockTargets(ip, ones - 96)) else None
  {
    CIDRMeans(addr, mask, readV6);
  }

  /** IPv6 is refused, as an address and as a block. */
  lemma V6IsRefused(addr: string, mask: string, readV6: ReadV6)
    requires '/' !in addr && ParseIP(addr, readV6) == Some(V6)
    ensures SpecTargets(addr, readV6) == None && SpecTargets(addr + ['/'] + mask, readV6) == None
  {
    CutAt(addr, '/', mask);
    assert '/' in addr + ['/'] + mask;
  }

  /** What is neither an address, nor a block, nor has a dash, is refused. */
  lemma OthersAreRefused(spec: string, readV6: ReadV6)
    requires '/' !in spec && '-' !in spec && ParseIP(spec, readV6) == None
    ensures SpecTargets(spec, readV6) == None
  {
  }

  /** Whatever is accepted stands for a range: at least one address and at most 65536, each of 32 bits. */
  lemma AcceptedIsARange(spec: string, readV6: ReadV6, meant: seq<int>) returns (start: IPv4, end: IPv4)
    requires SpecTargets(spec, readV6) == Some(meant)
    ensures meant == RangeTargets(start, end) && 0 < |meant| <= 0x1_0000
  {
    if '/' in spec {
      var (ip, ones) := ParseCIDR(spec, readV6).value;
      start, end := BlockIsARange(ip, ones);
    } else {
      start, end := RangeOf(spec, readV6);
    }
  }

  lemma RangeOf(spec: string, readV6: ReadV6) returns (start: IPv4, end: IPv4)
    requires '/' !in spec && SpecTargets(spec, readV6).Some?
    ensures SpecTargets(spec, readV6) == Some(RangeTargets(start, end)) && |RangeTargets(start, end)| <= 0x1_0000
  {
    if ParseIP(spec, readV6).Some? {
      start := ParseIP(spec, readV6).value.ip;
      end := start;
    } else {
      var dash := IndexOf(spec, '-');
      var completed := CompletedEnd(spec[..dash], spec[dash + 1..], readV6).value;
      start := ParseIP(spec[..dash], readV6).value.ip;
      end := ParseIP(completed, readV6).value.ip;
    }
  }
}
