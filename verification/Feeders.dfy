/**
 Target enumeration of services/scanner/targets.go: the CIDR and range feeders and Collect, over
 32-bit addresses, and their meaning (CIDR blocks as in section 3.1 of RFC 4632).
 */
module Feeders {

  newtype Byte = b: int | 0 <= b < 0x100
  newtype Uint32 = n: int | 0 <= n < 0x1_0000_0000
  newtype Uint64 = n: int | 0 <= n < 0x1_0000_0000_0000_0000

  const MAX_RANGE_SIZE := 0x1_0000

  datatype IPv4 = IPv4(a: Byte, b: Byte, c: Byte, d: Byte)

  function IpToUint32(ip: IPv4): Uint32 {
    (((ip.a as int * 0x100 + ip.b as int) * 0x100 + ip.c as int) * 0x100 + ip.d as int) as Uint32
  }

  function Uint32ToIp(n: Uint32): IPv4 {
    var v := n as int;
    IPv4((v / 0x100 / 0x100 / 0x100 % 0x100) as Byte, (v / 0x100 / 0x100 % 0x100) as Byte,
         (v / 0x100 % 0x100) as Byte, (v % 0x100) as Byte)
  }

  lemma LowOctet(high: int, low: int)
    requires 0 <= low < 0x100
    ensures (high * 0x100 + low) / 0x100 == high && (high * 0x100 + low) % 0x100 == low
  {
  }

  /** Octets and numbers determine each other. */
  lemma OctetsOfNumber(ip: IPv4)
    ensures Uint32ToIp(IpToUint32(ip)) == ip
  {
    var a, b, c, d := ip.a as int, ip.b as int, ip.c as int, ip.d as int;
    LowOctet((a * 0x100 + b) * 0x100 + c, d);
    LowOctet(a * 0x100 + b, c);
    LowOctet(a, b);
  }

  lemma NumberOfOctets(n: Uint32)
    ensures IpToUint32(Uint32ToIp(n)) == n
  {
    var v := n as int;
    var v1 := v / 0x100;
    var v2 := v1 / 0x100;
    var v3 := v2 / 0x100;
    assert v == v1 * 0x100 + v % 0x100;
    assert v1 == v2 * 0x100 + v1 % 0x100;
    assert v2 == v3 * 0x100 + v2 % 0x100;
    assert v3 % 0x100 == v3;
  }

  /** x comes before y: the first octet in which they differ decides. */
  predicate Before(x: IPv4, y: IPv4) {
    || x.a < y.a
    || (x.a == y.a && x.b < y.b)
    || (x.a == y.a && x.b == y.b && x.c < y.c)
    || (x.a == y.a && x.b == y.b && x.c == y.c && x.d < y.d)
  }

  lemma HighOrLow(high: int, low: int, high': int, low': int)
    requires 0 <= low < 0x100 && 0 <= low' < 0x100
    ensures high * 0x100 + low < high' * 0x100 + low' <==> high < high' || (high == high' && low < low')
  {
  }

  /** Numbers are ordered as the octets are, the first octet first. */
  lemma NumbersFollowOctets(x: IPv4, y: IPv4)
    ensures IpToUint32(x) < IpToUint32(y) <==> Before(x, y)
  {
    var (a, b, c) := (x.a as int, x.b as int, x.c as int);
    var (a', b', c') := (y.a as int, y.b as int, y.c as int);
    HighOrLow((a * 0x100 + b) * 0x100 + c, x.d as int, (a' * 0x100 + b') * 0x100 + c', y.d as int);
    HighOrLow(a * 0x100 + b, c, a' * 0x100 + b', c');
    HighOrLow(a, b, a', b');
  }

  // ----- runs of addresses, as numbers -----

  ghost predicate InBounds(first: int, n: nat, descending: bool) {
    n > 0 ==> 0 <= first < 0x1_0000_0000 && if descending then first - n >= -1 else first + n <= 0x1_0000_0000
  }

  /** n consecutive addresses from `first`, upwards or downwards. */
  function Run(first: int, n: nat, descending: bool): (r: seq<int>)
    ensures |r| == n
    decreases n
  {
    if n == 0 then [] else [first] + Run(if descending then first - 1 else first + 1, n - 1, descending)
  }

  /** The addresses as octets. */
  ghost predicate AsIps(ips: seq<IPv4>, numbers: seq<int>) {
    |ips| == |numbers| && forall k | 0 <= k < |ips| :: IpToUint32(ips[k]) as int == numbers[k]
  }

  datatype Result<T> = Ok(value: T) | Err

  // ----- CIDRFeeder -----

  function Pow2(n: nat): nat {
    if n == 0 then 1 else 2 * Pow2(n - 1)
  }

  /** The first address of the block: the address with its host bits cleared. */
  function NetworkOf(ip: IPv4, ones: nat): (base: nat)
    requires ones <= 32
  {
    Pow2Positive(32 - ones);
    var n := IpToUint32(ip) as nat;
    DivisionBounds(n, Pow2(32 - ones));
    n / Pow2(32 - ones) * Pow2(32 - ones)
  }

  lemma Pow2Positive(n: nat)
    ensures Pow2(n) > 0
  {
  }

  lemma {:induction false} Pow2Sum(m: nat, n: nat)
    ensures Pow2(m + n) == Pow2(m) * Pow2(n)
  {
    if m > 0 {
      Pow2Sum(m - 1, n);
      Double(Pow2(m - 1), Pow2(n));
    }
  }

  lemma Double(x: nat, y: nat)
    ensures 2 * x * y == 2 * (x * y)
  {
  }

  lemma DivisionBounds(n: nat, d: nat)
    requires d > 0
    ensures 0 <= n / d * d <= n < n / d * d + d
  {
  }

  lemma Pow2Of32()
    ensures Pow2(32) == 0x1_0000_0000
  {
    assert Pow2(8) == 256;
    Pow2Sum(8, 8);
    Pow2Sum(16, 16);
  }

  lemma {:induction false} ProductOrder(q: nat, r: nat, size: nat)
    ensures q < r ==> q * size + size <= r * size
    decreases r
  {
    if q + 1 < r {
      ProductOrder(q, r - 1, size);
      Distribute(r - 1, size);
    } else if q + 1 == r {
      Distribute(q, size);
    }
  }

  lemma Distribute(q: nat, size: nat)
    ensures (q + 1) * size == q * size + size
  {
  }

  /** A block never runs past 255.255.255.255. */
  lemma BlockFits(ip: IPv4, ones: nat)
    requires ones <= 32
    ensures 0 < Pow2(32 - ones) <= 0x1_0000_0000
    ensures NetworkOf(ip, ones) + Pow2(32 - ones) <= 0x1_0000_0000
  {
    Pow2Positive(32 - ones);
    Pow2Of32();
    Pow2Sum(ones, 32 - ones);
    LastBlockFits(IpToUint32(ip) as nat, Pow2(32 - ones), Pow2(ones));
    Pow2Positive(ones);
    ProductOrder(0, Pow2(ones), Pow2(32 - ones));
  }

  lemma LastBlockFits(n: nat, size: nat, blocks: nat)
    requires size > 0 && n < blocks * size
    ensures n / size * size + size <= blocks * size
  {
    var q := n / size;
    DivisionBounds(n, size);
    ProductOrder(q, blocks, size);
    ProductOrder(blocks, q, size);
  }

  class CIDRFeeder {
    var total: Uint64
    var current: Uint32
    var yielded: Uint64

    ghost predicate Valid()
      reads this
    {
      yielded <= total && InBounds(current as int, Left(), false)
    }

    ghost function Left(): nat
      reads this
    {
      if yielded <= total then (total - yielded) as nat else 0
    }

    /** The addresses still to come. */
    ghost function Remaining(): seq<int>
      reads this
    {
      Run(current as int, Left(), false)
    }

    constructor (total: Uint64, current: Uint32)
      requires InBounds(current as int, total as nat, false)
      ensures Valid() && Remaining() == Run(current as int, total as nat, false)
    {
      this.total := total;
      this.current := current;
      this.yielded := 0;
    }

    predicate HasNext()
      reads this
    {
      yielded < total
    }

    method Next() returns (r: Result<IPv4>)
      requires Valid()
      modifies this
      ensures Valid() && total == old(total)
      ensures old(Remaining()) == [] ==> r == Err && Remaining() == []
      ensures old(Remaining()) != [] ==>
                && r.Ok? && IpToUint32(r.value) as int == old(Remaining())[0]
                && Remaining() == old(Remaining())[1..] && Left() == old(Left()) - 1
    {
      if !HasNext() {
        return Err;
      }
      NumberOfOctets(current);
      var result := Uint32ToIp(current);
      yielded := yielded + 1;
      if yielded < total {
        current := current + 1;
      }
      r := Ok(result);
    }

    method Collect() returns (result: seq<IPv4>)
      requires Valid()
      modifies this
      ensures Valid() && Remaining() == [] && AsIps(result, old(Remaining()))
    {
      result := [];
      while HasNext()
        invariant Valid()
        invariant |result| + |Remaining()| == |old(Remaining())|
        invariant AsIps(result, old(Remaining())[..|result|]) && Remaining() == old(Remaining())[|result|..]
        decreases Left()
      {
        var ip := Next();
        result := result + [ip.value];
      }
    }
  }

  /** The addresses a CIDR feeder is built to yield. */
  function BlockTargets(ip: IPv4, ones: nat): seq<int>
    requires ones <= 32
  {
    Run(NetworkOf(ip, ones), Pow2(32 - ones), false)
  }

  /** NewCIDRFeeder, on the parsed address and prefix length. */
  method NewCIDRFeeder(ip: IPv4, ones: nat, confirmed: bool) returns (r: Result<CIDRFeeder>)
    requires ones <= 32
    ensures r.Ok? <==> confirmed || Pow2(32 - ones) <= MAX_RANGE_SIZE
    ensures r.Ok? ==> fresh(r.value) && r.value.Valid() && r.value.Remaining() == BlockTargets(ip, ones)
  {
    BlockFits(ip, ones);
    var total := Pow2(32 - ones) as Uint64;
    if !confirmed && total > MAX_RANGE_SIZE as Uint64 {
      return Err;
    }
    var feeder := new CIDRFeeder(total, NetworkOf(ip, ones) as Uint32);
    r := Ok(feeder);
  }

  // ----- RangeFeeder -----

  class RangeFeeder {
    var total: Uint64
    var current: Uint32
    var yielded: Uint64
    var descending: bool

    ghost predicate Valid()
      reads this
    {
      yielded <= total && InBounds(current as int, Left(), descending)
    }

    ghost function Left(): nat
      reads this
    {
      if yielded <= total then (total - yielded) as nat else 0
    }

    ghost function Remaining(): seq<int>
      reads this
    {
      Run(current as int, Left(), descending)
    }

    constructor (total: Uint64, current: Uint32, descending: bool)
      requires InBounds(current as int, total as nat, descending)
      ensures Valid() && Remaining() == Run(current as int, total as nat, descending)
    {
      this.total := total;
      this.current := current;
      this.yielded := 0;
      this.descending := descending;
    }

    predicate HasNext()
      reads this
    {
      yielded < total
    }

    method Next() returns (r: Result<IPv4>)
      requires Valid()
      modifies this
      ensures Valid() && total == old(total)
      ensures old(Remaining()) == [] ==> r == Err && Remaining() == []
      ensures old(Remaining()) != [] ==>
                && r.Ok? && IpToUint32(r.value) as int == old(Remaining())[0]
                && Remaining() == old(Remaining())[1..] && Left() == old(Left()) - 1
    {
      if !HasNext() {
        return Err;
      }
      NumberOfOctets(current);
      ghost var left := Left();
      ghost var later := Run(if descending then current as int - 1 else current as int + 1, left - 1, descending);
      assert Remaining()[1..] == later;
      var result := Uint32ToIp(current);
      yielded := yielded + 1;
      if yielded < total {
        if descending {
          current := current - 1;
        } else {
          current := current + 1;
        }
      }
      assert Left() == left - 1;
      assert Remaining() == later;
      r := Ok(result);
    }

    method Collect() returns (result: seq<IPv4>)
      requires Valid()
      modifies this
      ensures Valid() && Remaining() == [] && AsIps(result, old(Remaining()))
    {
      result := [];
      while HasNext()
        invariant Valid()
        invariant |result| + |Remaining()| == |old(Remaining())|
        invariant AsIps(result, old(Remaining())[..|result|]) && Remaining() == old(Remaining())[|result|..]
        decreases Left()
      {
        var ip := Next();
        result := result + [ip.value];
      }
    }
  }

  /** The addresses a range feeder is built to yield. */
  function RangeTargets(start: IPv4, end: IPv4): seq<int> {
    var s, e := IpToUint32(start) as int, IpToUint32(end) as int;
    Run(s, if s > e then s - e + 1 else e - s + 1, s > e)
  }

  method NewRangeFeeder(start: IPv4, end: IPv4, confirmed: bool) returns (r: Result<RangeFeeder>)
    ensures r.Ok? <==> confirmed || |RangeTargets(start, end)| <= MAX_RANGE_SIZE
    ensures r.Ok? ==> fresh(r.value) && r.value.Valid() && r.value.Remaining() == RangeTargets(start, end)
  {
    var sn, en := IpToUint32(start), IpToUint32(end);
    var descending := sn > en;
    var total: Uint64;
    if descending {
      total := (sn - en) as Uint64 + 1;
    } else {
      total := (en - sn) as Uint64 + 1;
    }
    if !confirmed && total > MAX_RANGE_SIZE as Uint64 {
      return Err;
    }
    var feeder := new RangeFeeder(total, sn, descending);
    r := Ok(feeder);
  }

  // ----- what the feeders yield -----

  ghost predicate Ascending(ns: seq<int>) {
    forall i, j | 0 <= i < j < |ns| :: ns[i] < ns[j]
  }

  ghost predicate Descending(ns: seq<int>) {
    forall i, j | 0 <= i < j < |ns| :: ns[i] > ns[j]
  }

  lemma {:induction false} RunEntries(first: int, n: nat, descending: bool)
    ensures forall i | 0 <= i < n :: Run(first, n, descending)[i] == if descending then first - i else first + i
    decreases n
  {
    if n > 0 {
      RunEntries(if descending then first - 1 else first + 1, n - 1, descending);
    }
  }

  lemma RunMembers(first: int, n: nat, descending: bool, v: int)
    ensures v in Run(first, n, descending) <==>
            if descending then first - n < v <= first else first <= v < first + n
  {
    RunEntries(first, n, descending);
    if if descending then first - n < v <= first else first <= v < first + n {
      assert Run(first, n, descending)[if descending then first - v else v - first] == v;
    }
  }

  /** The first `ones` bits of an address and a number agree. */
  ghost predicate SamePrefix(v: int, ip: IPv4, ones: nat)
    requires ones <= 32
  {
    Pow2Positive(32 - ones);
    0 <= v < 0x1_0000_0000 && v / Pow2(32 - ones) == IpToUint32(ip) as nat / Pow2(32 - ones)
  }

  lemma QuotientOf(v: nat, size: nat, q: nat)
    requires size > 0
    ensures q * size <= v < q * size + size <==> v / size == q
  {
    DivisionBounds(v, size);
    var r := v / size;
    ProductOrder(q, r, size);
    ProductOrder(r, q, size);
  }

  /** A CIDR feeder yields exactly the addresses that share the prefix, once each, in ascending order,
      2^(32-ones) of them. */
  lemma BlockIsThePrefix(ip: IPv4, ones: nat)
    requires ones <= 32
    ensures |BlockTargets(ip, ones)| == Pow2(32 - ones)
    ensures Ascending(BlockTargets(ip, ones))
    ensures forall v :: v in BlockTargets(ip, ones) <==> SamePrefix(v, ip, ones)
  {
    BlockFits(ip, ones);
    var size, base := Pow2(32 - ones), NetworkOf(ip, ones);
    RunEntries(base, size, false);
    forall v
      ensures v in BlockTargets(ip, ones) <==> SamePrefix(v, ip, ones)
    {
      RunMembers(base, size, false, v);
      if v >= 0 {
        QuotientOf(v, size, IpToUint32(ip) as nat / size);
      }
    }
  }

  /** A range feeder yields exactly the addresses between its ends, both included, once each, in the
      order from start to end. */
  lemma RangeIsTheInterval(start: IPv4, end: IPv4)
    ensures var s, e := IpToUint32(start) as int, IpToUint32(end) as int;
            var t := RangeTargets(start, end);
            && t != [] && t[0] == s && t[|t| - 1] == e
            && (s <= e ==> Ascending(t) && forall v :: v in t <==> s <= v <= e)
            && (s > e ==> Descending(t) && forall v :: v in t <==> e <= v <= s)
  {
    var s, e := IpToUint32(start) as int, IpToUint32(end) as int;
    var n := if s > e then s - e + 1 else e - s + 1;
    RunEntries(s, n, s > e);
    forall v
      ensures v in RangeTargets(start, end) <==> if s > e then e <= v <= s else s <= v <= e
    {
      RunMembers(s, n, s > e, v);
    }
  }

  lemma AddressOf(n: Uint32) returns (ip: IPv4)
    ensures IpToUint32(ip) == n
  {
    ip := Uint32ToIp(n);
    NumberOfOctets(n);
  }

  /** A block is the range from its first to its last address. */
  lemma BlockIsARange(ip: IPv4, ones: nat) returns (start: IPv4, end: IPv4)
    requires ones <= 32
    ensures var t := BlockTargets(ip, ones);
            && t != [] && t[0] == IpToUint32(start) as int && t[|t| - 1] == IpToUint32(end) as int
            && RangeTargets(start, end) == t
  {
    BlockFits(ip, ones);
    var base, size := NetworkOf(ip, ones), Pow2(32 - ones);
    RunEntries(base, size, false);
    start := AddressOf(base as Uint32);
    end := AddressOf((base + size - 1) as Uint32);
  }

  // ----- blocks and ranges, on the octets -----

  function OctetAt(ip: IPv4, k: nat): Byte
    requires k < 4
  {
    if k == 0 then ip.a else if k == 1 then ip.b else if k == 2 then ip.c else ip.d
  }

  /** Bit i of an address, counted from the high bit of its first octet. */
  function BitOf(ip: IPv4, i: nat): nat
    requires i < 32
  {
    Pow2Positive(7 - i % 8);
    OctetAt(ip, i / 8) as nat / Pow2(7 - i % 8) % 2
  }

  /** Bit i of a number of 32 bits, counted from the high end. */
  function BitOfNumber(n: nat, i: nat): nat
    requires i < 32
  {
    Pow2Positive(31 - i);
    n / Pow2(31 - i) % 2
  }

  lemma DivideTwice(n: nat, x: nat, y: nat)
    requires x > 0 && y > 0
    ensures x * y > 0 && n / (x * y) == n / x / y
  {
    var r := n / x;
    var q := r / y;
    DivisionBounds(n, x);
    DivisionBounds(r, y);
    Positive(x, y);
    Scale(q * y, r, x);
    Scale(r + 1, q * y + y, x);
    Regroup(q, x, y);
    Distribute(r, x);
    QuotientOf(n, x * y, q);
  }

  lemma Positive(x: nat, y: nat)
    requires x > 0 && y > 0
    ensures x * y > 0
  {
  }

  lemma Regroup(q: nat, x: nat, y: nat)
    ensures q * y * x == q * (x * y) && (q * y + y) * x == q * (x * y) + x * y
  {
    assert q * y * x == q * (x * y);
    assert (q * y + y) * x == q * y * x + y * x;
  }

  lemma Scale(m: nat, n: nat, x: nat)
    requires m <= n
    ensures m * x <= n * x
  {
  }

  lemma LastBit(n: nat, m: nat, k: nat)
    requires k < 32
    ensures Pow2(31 - k) > 0 && Pow2(32 - k) > 0
    ensures n / Pow2(31 - k) == m / Pow2(31 - k) <==>
            n / Pow2(32 - k) == m / Pow2(32 - k) && BitOfNumber(n, k) == BitOfNumber(m, k)
  {
    Pow2Positive(31 - k);
    assert Pow2(32 - k) == Pow2(31 - k) * 2;
    DivideTwice(n, Pow2(31 - k), 2);
    DivideTwice(m, Pow2(31 - k), 2);
  }

  /** Two numbers agree in their first bits if and only if what is above the others is the same. */
  lemma {:induction false} FirstBits(n: nat, m: nat, ones: nat)
    requires ones <= 32 && n < 0x1_0000_0000 && m < 0x1_0000_0000
    ensures Pow2(32 - ones) > 0
    ensures n / Pow2(32 - ones) == m / Pow2(32 - ones) <==>
            forall i: nat | i < ones :: BitOfNumber(n, i) == BitOfNumber(m, i)
  {
    if ones == 0 {
      Pow2Of32();
    } else {
      FirstBits(n, m, ones - 1);
      LastBit(n, m, ones - 1);
    }
  }

  lemma OctetBelow(n: nat, high: nat, low: nat, size: nat)
    requires size > 0 && n / size == high * 0x100 + low && low < 0x100
    ensures size * 0x100 > 0 && n / (size * 0x100) == high
  {
    LowOctet(high, low);
    DivideTwice(n, size, 0x100);
  }

  /** The number shifted down to its octet k. */
  lemma OctetOfNumber(ip: IPv4, k: nat) returns (high: nat)
    requires k < 4
    ensures Pow2(24 - 8 * k) > 0
    ensures IpToUint32(ip) as nat / Pow2(24 - 8 * k) == high * 0x100 + OctetAt(ip, k) as nat
  {
    var a, b, c, d := ip.a as nat, ip.b as nat, ip.c as nat, ip.d as nat;
    var ab := a * 0x100 + b;
    var abc, n := ab * 0x100 + c, IpToUint32(ip) as nat;
    OctetSizes();
    OctetBelow(n, abc, d, 1);
    OctetBelow(n, ab, c, 0x100);
    OctetBelow(n, a, b, 0x1_0000);
    high := if k == 0 then 0 else if k == 1 then a else if k == 2 then ab else abc;
  }

  lemma OctetSizes()
    ensures Pow2(0) == 1 && Pow2(8) == 0x100 && Pow2(16) == 0x1_0000 && Pow2(24) == 0x100_0000
  {
    assert Pow2(8) == 0x100;
    Pow2Sum(8, 8);
    Pow2Sum(16, 8);
  }

  lemma DivideSum(q: nat, r: nat, size: nat)
    requires size > 0
    ensures (q * size + r) / size == q + r / size
  {
    DivisionBounds(r, size);
    Distribute2(q, r / size, size);
    QuotientOf(q * size + r, size, q + r / size);
  }

  lemma Distribute2(q: nat, r: nat, size: nat)
    ensures (q + r) * size == q * size + r * size
  {
  }

  lemma HighPart(high: nat, size: nat, rest: nat)
    requires size * rest == 128
    ensures high * 0x100 == 2 * (high * rest) * size
  {
    assert 2 * (high * rest) * size == 2 * (high * (size * rest));
  }

  lemma Parity(t: nat, u: nat)
    ensures (2 * t + u) % 2 == u % 2
  {
  }

  lemma BitBelow(high: nat, octet: nat, size: nat, rest: nat)
    requires size > 0 && size * rest == 128
    ensures (high * 0x100 + octet) / size % 2 == octet / size % 2
  {
    var t := high * rest;
    HighPart(high, size, rest);
    DivideSum(2 * t, octet, size);
    Parity(t, octet / size);
  }

  /** Above its octet a number does not matter to a bit. */
  lemma BitBelowOctet(high: nat, octet: nat, shift: nat)
    requires shift < 8
    ensures Pow2(shift) > 0 && (high * 0x100 + octet) / Pow2(shift) % 2 == octet / Pow2(shift) % 2
  {
    Pow2Positive(shift);
    Pow2Sum(shift, 7 - shift);
    assert Pow2(7) == 128;
    BitBelow(high, octet, Pow2(shift), Pow2(7 - shift));
  }

  lemma BitsOfNumber(ip: IPv4, i: nat)
    requires i < 32
    ensures BitOfNumber(IpToUint32(ip) as nat, i) == BitOf(ip, i)
  {
    var k, shift := i / 8, 7 - i % 8;
    var high := OctetOfNumber(ip, k);
    var n := IpToUint32(ip) as nat;
    Pow2Sum(24 - 8 * k, shift);
    Pow2Positive(shift);
    DivideTwice(n, Pow2(24 - 8 * k), Pow2(shift));
    BitBelowOctet(high, OctetAt(ip, k) as nat, shift);
  }

  /** An address is in a block if and only if its first `ones` bits are those of the block's address. */
  lemma BlockOnOctets(ip: IPv4, ones: nat, x: IPv4)
    requires ones <= 32
    ensures IpToUint32(x) as int in BlockTargets(ip, ones) <==> forall i: nat | i < ones :: BitOf(x, i) == BitOf(ip, i)
  {
    var n, m := IpToUint32(x) as nat, IpToUint32(ip) as nat;
    BlockIsThePrefix(ip, ones);
    FirstBits(n, m, ones);
    forall i: nat | i < ones
      ensures BitOf(x, i) == BitOf(ip, i) <==> BitOfNumber(n, i) == BitOfNumber(m, i)
    {
      BitsOfNumber(x, i);
      BitsOfNumber(ip, i);
    }
    assert SamePrefix(n, ip, ones) <==> n / Pow2(32 - ones) == m / Pow2(32 - ones);
  }

  /** An address is in a range if and only if it comes neither before the first nor after the last of the two
      ends, octet by octet. */
  lemma RangeOnOctets(start: IPv4, end: IPv4, x: IPv4)
    ensures IpToUint32(x) as int in RangeTargets(start, end) <==>
            if Before(end, start) then !Before(x, end) && !Before(start, x) else !Before(x, start) && !Before(end, x)
  {
    RangeIsTheInterval(start, end);
    NumbersFollowOctets(end, start);
    NumbersFollowOctets(x, start);
    NumbersFollowOctets(start, x);
    NumbersFollowOctets(x, end);
    NumbersFollowOctets(end, x);
  }

  lemma Pow2Grows(m: nat, n: nat)
    requires m <= n
    ensures Pow2(m) <= Pow2(n)
  {
    Pow2Sum(m, n - m);
    Pow2Positive(n - m);
    Scale(1, Pow2(n - m), Pow2(m));
  }

  /** A block is small enough without a confirmation from /16 on. */
  lemma SmallBlockIff(ones: nat)
    requires ones <= 32
    ensures Pow2(32 - ones) <= MAX_RANGE_SIZE <==> ones >= 16
  {
    OctetSizes();
    assert Pow2(17) == 2 * Pow2(16);
    if ones >= 16 {
      Pow2Grows(32 - ones, 16);
    } else {
      Pow2Grows(17, 32 - ones);
    }
  }

  /** Addresses and numbers name the same members. */
  lemma MembersAsIps(ips: seq<IPv4>, numbers: seq<int>, x: IPv4)
    requires AsIps(ips, numbers)
    ensures x in ips <==> IpToUint32(x) as int in numbers
  {
    if x in ips {
      var k :| 0 <= k < |ips| && ips[k] == x;
      assert numbers[k] == IpToUint32(x) as int;
    }
    if IpToUint32(x) as int in numbers {
      var k :| 0 <= k < |numbers| && numbers[k] == IpToUint32(x) as int;
      OctetsOfNumber(x);
      OctetsOfNumber(ips[k]);
    }
  }
}
