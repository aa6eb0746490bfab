/** Choosing a free IPv4 network from a pool (machine/network/pool.go,
    machine/network/utils.go). Addresses are 32-bit numbers; a prefix of `ones`
    bits, as in section 3.1 of RFC 4632, leaves blocks of 2^(32 - ones). */
module NetworkPool {
  import opened Options
  import opened Bits

  predicate Addr(x: nat) { x < Pow2(32) }

  lemma Pow2Byte()
    ensures Pow2(8) == 256
  {
    assert Pow2(4) == 16;
    Pow2Add(4, 4);
  }

  lemma Pow2Word()
    ensures Pow2(32) == 0x1_0000_0000
  {
    Pow2Byte();
    Pow2Add(8, 8);
    Pow2Add(16, 16);
  }

  /** A network as `net.IPNet`: an address in it and a mask. An address that did
      not parse as IPv4 is missing. */
  datatype Net = Net(ip: Option<nat>, mask: nat)

  function PrefixMask(ones: nat): (m: nat)
    requires ones <= 32
  {
    Pow2Mono(32 - ones, 32);
    Pow2(32) - Pow2(32 - ones)
  }

  predicate Contains(n: Net, x: Option<nat>) {
    n.ip.Some? && x.Some? && And(n.ip.value, n.mask, 32) == And(x.value, n.mask, 32)
  }

  predicate NetworksIntersect(a: Net, b: Net) { Contains(a, b.ip) || Contains(b, a.ip) }

  // The blocks behind the masks.

  /** Both addresses lie in the same block of a 2^z grid. */
  predicate SameBlock(x: nat, y: nat, z: nat) { x / Pow2(z) == y / Pow2(z) }

  lemma FloorIsBlock(x: nat, y: nat, p: nat)
    requires p > 0
    ensures x - x % p == y - y % p <==> x / p == y / p
  {
    var q, r := x / p, y / p;
    assert x == p * q + x % p && y == p * r + y % p;
    if p * q == p * r {
      QuotientUnique(p, q, 0, r, 0);
    }
  }

  lemma MaskIsBlock(ip: nat, x: nat, n: nat, z: nat)
    requires ip < Pow2(n) && x < Pow2(n) && z <= n
    ensures Pow2(z) <= Pow2(n)
    ensures And(ip, Pow2(n) - Pow2(z), n) == And(x, Pow2(n) - Pow2(z), n) <==> SameBlock(ip, x, z)
  {
    AndMask(ip, n, z);
    AndMask(x, n, z);
    FloorIsBlock(ip, x, Pow2(z));
  }

  lemma ContainsIsBlock(ip: nat, x: nat, ones: nat)
    requires Addr(ip) && Addr(x) && ones <= 32
    ensures Contains(Net(Some(ip), PrefixMask(ones)), Some(x)) <==> SameBlock(ip, x, 32 - ones)
  {
    MaskIsBlock(ip, x, 32, 32 - ones);
  }

  lemma CoarserBlock(x: nat, y: nat, z: nat, w: nat)
    requires z <= w && SameBlock(x, y, z)
    ensures SameBlock(x, y, w)
  {
    Pow2Add(z, w - z);
    DivDiv(x, Pow2(z), Pow2(w - z));
    DivDiv(y, Pow2(z), Pow2(w - z));
  }

  /** Some address lies in both networks. */
  ghost predicate Overlap(ip1: nat, ones1: nat, ip2: nat, ones2: nat)
    requires ones1 <= 32 && ones2 <= 32
  {
    exists x: nat :: Addr(x) && SameBlock(x, ip1, 32 - ones1) && SameBlock(x, ip2, 32 - ones2)
  }

  lemma OverlapTouches(ip1: nat, ones1: nat, ip2: nat, ones2: nat)
    requires ones1 <= 32 && ones2 <= 32 && Overlap(ip1, ones1, ip2, ones2)
    ensures SameBlock(ip1, ip2, 32 - ones1) || SameBlock(ip2, ip1, 32 - ones2)
  {
    var x: nat :| Addr(x) && SameBlock(x, ip1, 32 - ones1) && SameBlock(x, ip2, 32 - ones2);
    if ones1 <= ones2 {
      CoarserBlock(x, ip2, 32 - ones2, 32 - ones1);
    } else {
      CoarserBlock(x, ip1, 32 - ones1, 32 - ones2);
    }
  }

  /** For contiguous masks the two-point test is exact. */
  lemma IntersectIsOverlap(ip1: nat, ones1: nat, ip2: nat, ones2: nat)
    requires Addr(ip1) && Addr(ip2) && ones1 <= 32 && ones2 <= 32
    ensures NetworksIntersect(Net(Some(ip1), PrefixMask(ones1)), Net(Some(ip2), PrefixMask(ones2))) <==>
            Overlap(ip1, ones1, ip2, ones2)
  {
    ContainsIsBlock(ip1, ip2, ones1);
    ContainsIsBlock(ip2, ip1, ones2);
    if Overlap(ip1, ones1, ip2, ones2) {
      OverlapTouches(ip1, ones1, ip2, ones2);
    }
    if SameBlock(ip1, ip2, 32 - ones1) {
      assert SameBlock(ip2, ip1, 32 - ones1) && SameBlock(ip2, ip2, 32 - ones2);
    }
    if SameBlock(ip2, ip1, 32 - ones2) {
      assert SameBlock(ip1, ip1, 32 - ones1) && SameBlock(ip1, ip2, 32 - ones2);
    }
  }

  lemma {:induction false} AndZero(b: nat, n: nat)
    ensures And(0, b, n) == 0
    decreases n
  {
    if n > 0 { AndZero(b / 2, n - 1); }
  }

  lemma AndFive(n: nat)
    requires n >= 2
    ensures And(1, 5, n) == 1 && And(2, 5, n) == 0 && And(3, 5, n) == 1
  {
    AndZero(2, n - 1);
    AndZero(1, n - 2);
    assert And(1, 2, n - 1) == 2 * And(0, 1, n - 2);
  }

  lemma GapNet(a: Net)
    requires a == Net(Some(1), 5)
    ensures Contains(a, Some(3)) && !Contains(a, Some(2))
  {
    AndFive(32);
  }

  lemma PairNet(b: Net)
    requires b == Net(Some(2), PrefixMask(31))
    ensures Contains(b, Some(3)) && !Contains(b, Some(1))
  {
    assert Pow2(32) > 3 && Pow2(1) == 2;
    ContainsIsBlock(2, 1, 31);
    ContainsIsBlock(2, 3, 31);
  }

  /** For other masks it is not: 0.0.0.3 lies both in 0.0.0.1 with mask 0.0.0.5
      and in 0.0.0.2/31, yet neither network's own address lies in the other. */
  lemma IntersectMissesGaps(a: Net, b: Net)
    requires a == Net(Some(1), 5) && b == Net(Some(2), PrefixMask(31))
    ensures !NetworksIntersect(a, b) && Contains(a, Some(3)) && Contains(b, Some(3))
  {
    GapNet(a);
    PairNet(b);
  }

  // Candidate addresses, put together byte by byte.

  /** Byte `w`, counted from the low end. */
  function Digit(a: nat, w: nat): (d: nat)
    ensures d < 256
    decreases w
  {
    if w == 0 then a % 256 else Digit(a / 256, w - 1)
  }

  function Join(d3: nat, d2: nat, d1: nat, d0: nat): nat { ((d3 * 256 + d2) * 256 + d1) * 256 + d0 }

  /** The w-byte number whose bytes are the ORs of the operands' bytes. */
  function OrAddr(s: nat, o: nat, w: nat): nat {
    if w == 0 then 0 else OrAddr(s / 256, o / 256, w - 1) * 256 + Or(s % 256, o % 256, 8)
  }

  lemma {:induction false} OrAddrDigits(s: nat, o: nat, w: nat)
    ensures OrAddr(s, o, w + 1) == OrAddr(s / 256, o / 256, w) * 256 + Or(Digit(s, 0), Digit(o, 0), 8)
    ensures forall v: nat :: Digit(s, v + 1) == Digit(s / 256, v)
  {
  }

  /** The four bytes put together. */
  lemma JoinIsOr(s: nat, o: nat)
    ensures Join(Or(Digit(s, 3), Digit(o, 3), 8), Or(Digit(s, 2), Digit(o, 2), 8),
                 Or(Digit(s, 1), Digit(o, 1), 8), Or(Digit(s, 0), Digit(o, 0), 8)) == OrAddr(s, o, 4)
  {
    OrAddrDigits(s, o, 3);
    OrAddrDigits(s / 256, o / 256, 2);
    OrAddrDigits(s / 256 / 256, o / 256 / 256, 1);
    OrAddrDigits(s / 256 / 256 / 256, o / 256 / 256 / 256, 0);
  }

  lemma ModProduct(s: nat, p: nat, q: nat)
    requires p > 0 && q > 0 && s % p == 0
    ensures p * q > 0 && s % (p * q) == p * ((s / p) % q)
  {
    var m := s / p;
    var t, u := m / q, m % q;
    assert s == p * m + 0 && m == q * t + u;
    Regroup(p, q, t, u, 0);
    DigitBound(p, q, u, 0);
    DivUnique(s, p * q, t, p * u);
  }

  lemma AlignedMod(s: nat, p: nat, q: nat)
    requires p > 0 && q > 0 && s % p == 0
    ensures p * q > 0 && (s % (p * q)) % p == 0
  {
    ModProduct(s, p, q);
    DivUnique(p * ((s / p) % q), p, (s / p) % q, 0);
  }

  /** An aligned number leaves room for what fits below its alignment. */
  lemma AlignedRoom(a: nat, o: nat, p: nat, q: nat)
    requires p > 0 && a < p * q && a % p == 0 && o < p
    ensures a + o < p * q
  {
    BelowProduct(a, p, q);
    var t := a / p;
    assert a == p * t;
    DigitBound(p, q, t, o);
  }

  lemma MultipleOf(s: nat, a: nat, b: nat)
    requires a > 0 && b > 0 && a * b > 0 && s % (a * b) == 0
    ensures s % a == 0 && (s / a) % b == 0
  {
    var q := s / (a * b);
    assert s == (a * b) * q;
    Regroup(a, b, q, 0, 0);
    DivUnique(s, a, b * q, 0);
    DivUnique(b * q, b, q, 0);
  }

  lemma BelowProduct(o: nat, a: nat, b: nat)
    requires a > 0 && o < a * b
    ensures o / a < b
  {
    if o / a >= b {
      MulMono(a, b, o / a);
    }
  }

  function Shrink(k: nat, n: nat): nat { if k < n then 0 else k - n }

  lemma NoCarry(s: nat, o: nat, p: nat, q: nat)
    requires p > 0 && q > 0 && p * q == 256 && s % p == 0 && o < p
    ensures (s % 256) % p == 0 && p <= 256 && s % 256 + o < 256
    ensures (s + o) % 256 == s % 256 + o && (s + o) / 256 == s / 256
  {
    AlignedMod(s, p, q);
    MulMono(p, 1, q);
    AlignedRoom(s % 256, o, p, q);
    DivUnique(s + o, 256, s / 256, s % 256 + o);
  }

  /** The low byte, of n bits: no carry, and the shifted operands stay aligned. */
  lemma LowByteSmall(s: nat, o: nat, k: nat, n: nat)
    requires Pow2(n) == 256 && k < n && s % Pow2(k) == 0 && o < Pow2(k)
    ensures Or(s % 256, o % 256, n) == (s + o) % 256
    ensures (s + o) / 256 == s / 256 + o / 256 && o / 256 == 0
  {
    Pow2Add(k, n - k);
    NoCarry(s, o, Pow2(k), Pow2(n - k));
    OrIsAdd(s % 256, o, n, k);
  }

  lemma LowByteLarge(s: nat, o: nat, k: nat, n: nat)
    requires Pow2(n) == 256 && k >= n && s % Pow2(k) == 0 && o < Pow2(k)
    ensures Or(s % 256, o % 256, n) == (s + o) % 256
    ensures (s + o) / 256 == s / 256 + o / 256
    ensures (s / 256) % Pow2(k - n) == 0 && o / 256 < Pow2(k - n)
  {
    Pow2Add(n, k - n);
    MultipleOf(s, 256, Pow2(k - n));
    BelowProduct(o, 256, Pow2(k - n));
    OrIsAdd(0, o % 256, n, n);
    DivUnique(s + o, 256, s / 256 + o / 256, o % 256);
  }

  lemma LowByte(s: nat, o: nat, k: nat, n: nat)
    requires Pow2(n) == 256 && s % Pow2(k) == 0 && o < Pow2(k)
    ensures Or(s % 256, o % 256, n) == (s + o) % 256
    ensures (s + o) / 256 == s / 256 + o / 256
    ensures (s / 256) % Pow2(Shrink(k, n)) == 0 && o / 256 < Pow2(Shrink(k, n))
  {
    if k < n { LowByteSmall(s, o, k, n); } else { LowByteLarge(s, o, k, n); }
  }

  lemma {:induction false} OrAddrAdds(s: nat, o: nat, k: nat, w: nat)
    requires Pow2(8) == 256 && s % Pow2(k) == 0 && o < Pow2(k) && s + o < Pow2(8 * w)
    ensures OrAddr(s, o, w) == s + o
    decreases w
  {
    if w > 0 {
      LowByte(s, o, k, 8);
      Pow2Add(8, 8 * (w - 1));
      BelowProduct(s + o, 256, Pow2(8 * (w - 1)));
      OrAddrAdds(s / 256, o / 256, Shrink(k, 8), w - 1);
    }
  }

  /** Below the alignment of the start address the byte-wise OR adds. */
  lemma OrAddrIsAdd(s: nat, o: nat, k: nat)
    requires s % Pow2(k) == 0 && o < Pow2(k) && Addr(s + o)
    ensures OrAddr(s, o, 4) == s + o
  {
    Pow2Byte();
    OrAddrAdds(s, o, k, 4);
  }

  // The search.

  /** A pool entry; its subnet may fail to parse. */
  datatype PoolEntry = BadSubnet | Entry(addr: nat, ones: nat, size: nat)

  predicate WfEntry(e: PoolEntry) { e.Entry? ==> Addr(e.addr) && e.ones <= 32 && e.size <= 32 }

  predicate WfPool(pool: seq<PoolEntry>) { forall e | 0 <= e < |pool| :: WfEntry(pool[e]) }

  /** A shift by a negative amount, read as unsigned, leaves no subnet at all. */
  function Count(e: PoolEntry): nat
    requires e.Entry?
  {
    if e.size < e.ones then 0 else Pow2(e.size - e.ones)
  }

  /** The 32-bit counter in the i-th round. */
  function Offset(e: PoolEntry, i: nat): nat
    requires e.Entry? && e.size <= 32
  {
    if i == 0 then 0 else (Offset(e, i - 1) + Pow2(32 - e.size)) % 0x1_0000_0000
  }

  function Candidate(e: PoolEntry, i: nat): Net
    requires e.Entry? && e.size <= 32
  {
    Net(Some(OrAddr(e.addr, Offset(e, i), 4)), PrefixMask(e.size))
  }

  predicate Hit(existing: seq<Net>, n: Net) {
    exists j | 0 <= j < |existing| :: NetworksIntersect(existing[j], n)
  }

  /** Adding one to the last byte, which wraps around. */
  function Bump(a: nat): nat { a - a % 256 + (a % 256 + 1) % 256 }

  datatype Found = At(e: nat, i: nat) | BadAt(e: nat) | Nowhere

  /** The first round from `i` on whose candidate intersects nothing. */
  function FirstFree(entry: PoolEntry, existing: seq<Net>, i: nat): (r: Option<nat>)
    requires WfEntry(entry) && entry.Entry? && i <= Count(entry)
    ensures r.Some? ==> i <= r.value < Count(entry)
    decreases Count(entry) - i
  {
    if i == Count(entry) then None
    else if Hit(existing, Candidate(entry, i)) then FirstFree(entry, existing, i + 1)
    else Some(i)
  }

  function Search(pool: seq<PoolEntry>, existing: seq<Net>, e: nat): (r: Found)
    requires WfPool(pool) && e <= |pool|
    ensures r.At? ==> e <= r.e < |pool| && pool[r.e].Entry? && r.i < Count(pool[r.e])
    decreases |pool| - e
  {
    if e == |pool| then Nowhere
    else if pool[e].BadSubnet? then BadAt(e)
    else
      var f := FirstFree(pool[e], existing, 0);
      if f.Some? then At(e, f.value) else Search(pool, existing, e + 1)
  }

  datatype Result = Allocated(ip: nat, size: nat) | Failed

  function Outcome(pool: seq<PoolEntry>, existing: seq<Net>): Result
    requires WfPool(pool)
  {
    var r := Search(pool, existing, 0);
    if r.At? then Allocated(Bump(Candidate(pool[r.e], r.i).ip.value), pool[r.e].size) else Failed
  }

  /** `offset >>= 8`, w times. */
  function Shift(a: nat, w: nat): nat
    decreases w
  {
    if w == 0 then a else Shift(a / 256, w - 1)
  }

  lemma {:induction false} DigitIsShift(a: nat, w: nat)
    ensures Digit(a, w) == Shift(a, w) % 256 && Shift(a, w + 1) == Shift(a, w) / 256
    decreases w
  {
    if w > 0 {
      DigitIsShift(a / 256, w - 1);
    } else {
      assert Shift(a, 1) == Shift(a / 256, 0);
    }
  }

  /** `candidateIp[i] |= byte(offset & 0xff)` and the shift after it. */
  method OrByte(ip: array<nat>, i: nat, ghost offset: nat, off: nat) returns (next: nat)
    requires ip.Length == 4 && i < 4 && off == Shift(offset, 3 - i)
    modifies ip
    ensures forall j | 0 <= j < 4 && j != i :: ip[j] == old(ip[j])
    ensures ip[i] == Or(old(ip[i]), Digit(offset, 3 - i), 8) && next == Shift(offset, 4 - i)
  {
    DigitIsShift(offset, 3 - i);
    ip[i] := Or(ip[i], off % 256, 8);
    next := off / 256;
  }

  /** A copy of the start address, then the bytes of the offset put in from the
      last byte to the first. */
  method OrBytes(addr: nat, offset: nat) returns (ip: array<nat>)
    ensures ip.Length == 4
    ensures forall i | 0 <= i < 4 :: ip[i] == Or(Digit(addr, 3 - i), Digit(offset, 3 - i), 8)
  {
    ip := new nat[4](i requires 0 <= i < 4 => Digit(addr, 3 - i));
    var off := offset;
    var i := 3;
    while i >= 0
      invariant -1 <= i <= 3 && fresh(ip)
      invariant forall j | 0 <= j <= i :: ip[j] == Digit(addr, 3 - j)
      invariant forall j | i < j < 4 :: ip[j] == Or(Digit(addr, 3 - j), Digit(offset, 3 - j), 8)
      invariant off == Shift(offset, 3 - i)
    {
      off := OrByte(ip, i, offset, off);
      i := i - 1;
    }
  }

  method MakeCandidate(entry: PoolEntry, subnetIndex: nat, ghost i: nat) returns (n: Net)
    requires WfEntry(entry) && entry.Entry? && subnetIndex == Offset(entry, i)
    ensures n == Candidate(entry, i)
  {
    var ip := OrBytes(entry.addr, subnetIndex);
    JoinIsOr(entry.addr, subnetIndex);
    n := Net(Some(Join(ip[0], ip[1], ip[2], ip[3])), PrefixMask(entry.size));
  }

  /** The next round's counter, in 32-bit arithmetic. */
  method NextIndex(entry: PoolEntry, subnetIndex: nat, ghost i: nat) returns (n: nat)
    requires entry.Entry? && entry.size <= 32 && subnetIndex == Offset(entry, i)
    ensures n == Offset(entry, i + 1)
  {
    n := (subnetIndex + Pow2(32 - entry.size)) % 0x1_0000_0000;
  }

  /** The rounds of one pool entry. */
  method TryEntry(entry: PoolEntry, existing: seq<Net>) returns (found: bool, ip: nat)
    requires WfEntry(entry) && entry.Entry?
    ensures var f := FirstFree(entry, existing, 0);
            found == f.Some? && (found ==> ip == Bump(Candidate(entry, f.value).ip.value))
  {
    var subnetIndex := 0;
    var n := Count(entry);
    var i := 0;
    while i < n
      invariant 0 <= i <= n && subnetIndex == Offset(entry, i)
      invariant FirstFree(entry, existing, 0) == FirstFree(entry, existing, i)
    {
      var candidate := MakeCandidate(entry, subnetIndex, i);
      var intersects := AnyIntersects(existing, candidate);
      if !intersects {
        return true, Bump(candidate.ip.value);
      }
      subnetIndex := NextIndex(entry, subnetIndex, i);
      i := i + 1;
    }
    return false, 0;
  }

  method AnyIntersects(existing: seq<Net>, n: Net) returns (hit: bool)
    ensures hit == Hit(existing, n)
  {
    var j := 0;
    while j < |existing|
      invariant 0 <= j <= |existing|
      invariant forall l | 0 <= l < j :: !NetworksIntersect(existing[l], n)
    {
      if NetworksIntersect(existing[j], n) {
        return true;
      }
      j := j + 1;
    }
    return false;
  }

  // What the search finds.

  /** The subnet of the entry is a block, and is cut into no larger ones. */
  predicate Aligned(e: PoolEntry) {
    e.Entry? ==> Addr(e.addr) && e.ones <= e.size <= 32 && e.addr % Pow2(32 - e.ones) == 0
  }

  predicate AlignedPool(pool: seq<PoolEntry>) { forall e | 0 <= e < |pool| :: Aligned(pool[e]) }

  /** The first address of the i-th block. */
  function Base(e: PoolEntry, i: nat): nat
    requires e.Entry? && e.size <= 32
  {
    e.addr + i * Pow2(32 - e.size)
  }

  ghost predicate Contiguous(n: Net) {
    n.ip.Some? ==> Addr(n.ip.value) && exists ones: nat :: ones <= 32 && n.mask == PrefixMask(ones)
  }

  ghost predicate AllContiguous(existing: seq<Net>) { forall j | 0 <= j < |existing| :: Contiguous(existing[j]) }

  /** The network and the block have an address in common. */
  ghost predicate Shares(n: Net, base: nat, size: nat)
    requires size <= 32
  {
    exists x: nat :: Addr(x) && Contains(n, Some(x)) && SameBlock(x, base, 32 - size)
  }

  ghost predicate Taken(existing: seq<Net>, base: nat, size: nat)
    requires size <= 32
  {
    exists j | 0 <= j < |existing| :: Shares(existing[j], base, size)
  }

  lemma IntersectIsShare(n: Net, base: nat, size: nat)
    requires Contiguous(n) && Addr(base) && size <= 32
    ensures NetworksIntersect(n, Net(Some(base), PrefixMask(size))) <==> Shares(n, base, size)
  {
    if n.ip.Some? {
      var ip := n.ip.value;
      var ones: nat :| ones <= 32 && n.mask == PrefixMask(ones);
      IntersectIsOverlap(ip, ones, base, size);
      forall x: nat | Addr(x) ensures Contains(n, Some(x)) <==> SameBlock(x, ip, 32 - ones) {
        ContainsIsBlock(ip, x, ones);
      }
    }
  }

  lemma HitIsTaken(existing: seq<Net>, base: nat, size: nat)
    requires AllContiguous(existing) && Addr(base) && size <= 32
    ensures Hit(existing, Net(Some(base), PrefixMask(size))) <==> Taken(existing, base, size)
  {
    forall j | 0 <= j < |existing|
      ensures NetworksIntersect(existing[j], Net(Some(base), PrefixMask(size))) <==> Shares(existing[j], base, size)
    {
      IntersectIsShare(existing[j], base, size);
    }
  }

  /** The i-th offset stays below the subnet's alignment. */
  lemma OffsetFits(e: PoolEntry, i: nat)
    requires e.Entry? && Aligned(e) && i < Count(e)
    ensures i * Pow2(32 - e.size) < Pow2(32 - e.ones) <= Pow2(32)
  {
    var p, q := Pow2(32 - e.size), Pow2(e.size - e.ones);
    Pow2Add(32 - e.size, e.size - e.ones);
    DigitBound(p, q, i, 0);
    Pow2Mono(32 - e.ones, 32);
    assert i * p == p * i;
  }

  lemma AlignedBlock(a: nat, o: nat, p: nat, q: nat)
    requires p > 0 && a < p * q && a % p == 0 && o < p
    ensures a + o < p * q && (a + o) / p == a / p
  {
    AlignedRoom(a, o, p, q);
    var t := a / p;
    assert a == p * t;
    DivUnique(a + o, p, t, o);
  }

  lemma BlockOfAligned(a: nat, o: nat, n: nat, k: nat)
    requires k <= n && a < Pow2(n) && a % Pow2(k) == 0 && o < Pow2(k)
    ensures a + o < Pow2(n) && SameBlock(a + o, a, k)
  {
    Pow2Add(k, n - k);
    AlignedBlock(a, o, Pow2(k), Pow2(n - k));
  }

  lemma MultipleFits(a: nat, i: nat, z: nat, k: nat, n: nat)
    requires z <= k <= n && a < Pow2(n) && a % Pow2(k) == 0 && i < Pow2(k - z)
    ensures a + i * Pow2(z) < Pow2(n) && SameBlock(a + i * Pow2(z), a, k)
  {
    Pow2Add(z, k - z);
    DigitBound(Pow2(z), Pow2(k - z), i, 0);
    BlockOfAligned(a, i * Pow2(z), n, k);
  }

  lemma BaseInside(e: PoolEntry, i: nat)
    requires e.Entry? && Aligned(e) && i < Count(e)
    ensures Addr(Base(e, i)) && SameBlock(Base(e, i), e.addr, 32 - e.ones)
  {
    MultipleFits(e.addr, i, 32 - e.size, 32 - e.ones, 32);
  }

  /** Without wrap-around the counter is a multiple of the block size. */
  lemma {:induction false} CounterIs(e: PoolEntry, i: nat)
    requires e.Entry? && e.size <= 32 && i * Pow2(32 - e.size) < 0x1_0000_0000
    ensures Offset(e, i) == i * Pow2(32 - e.size)
  {
    if i > 0 {
      var p := Pow2(32 - e.size);
      assert i * p == (i - 1) * p + p;
      CounterIs(e, i - 1);
      DivUnique(i * p, 0x1_0000_0000, 0, i * p);
    }
  }

  lemma SmallOffset(e: PoolEntry, i: nat)
    requires e.Entry? && Aligned(e) && i < Count(e)
    ensures Offset(e, i) == i * Pow2(32 - e.size) < Pow2(32 - e.ones)
  {
    OffsetFits(e, i);
    Pow2Word();
    CounterIs(e, i);
  }

  lemma CandidateAdds(e: PoolEntry, i: nat, o: nat)
    requires e.Entry? && Aligned(e) && o == Offset(e, i) < Pow2(32 - e.ones) && Addr(e.addr + o)
    ensures Candidate(e, i) == Net(Some(e.addr + o), PrefixMask(e.size))
  {
    OrAddrIsAdd(e.addr, o, 32 - e.ones);
  }

  /** On an aligned subnet the bytewise disjunction adds: the i-th candidate is the i-th block. */
  lemma CandidateIsBlock(e: PoolEntry, i: nat)
    requires e.Entry? && Aligned(e) && i < Count(e)
    ensures Candidate(e, i) == Net(Some(Base(e, i)), PrefixMask(e.size))
  {
    BaseInside(e, i);
    SmallOffset(e, i);
    CandidateAdds(e, i, Offset(e, i));
  }

  /** Every address of a block of the pool entry lies in the entry's subnet. */
  lemma BlockInside(e: PoolEntry, i: nat, x: nat)
    requires e.Entry? && Aligned(e) && i < Count(e) && SameBlock(x, Base(e, i), 32 - e.size)
    ensures SameBlock(x, e.addr, 32 - e.ones)
  {
    BaseInside(e, i);
    CoarserBlock(x, Base(e, i), 32 - e.size, 32 - e.ones);
  }

  ghost predicate TakenUpTo(e: PoolEntry, existing: seq<Net>, i: nat, k: nat)
    requires e.Entry? && e.size <= 32
  {
    forall l: nat | i <= l < k :: Taken(existing, Base(e, l), e.size)
  }

  lemma HitIsTakenBlock(e: PoolEntry, existing: seq<Net>, i: nat)
    requires e.Entry? && Aligned(e) && AllContiguous(existing) && i < Count(e)
    ensures Hit(existing, Candidate(e, i)) <==> Taken(existing, Base(e, i), e.size)
  {
    BaseInside(e, i);
    CandidateIsBlock(e, i);
    HitIsTaken(existing, Base(e, i), e.size);
  }

  lemma {:induction false} FirstFreeScans(entry: PoolEntry, existing: seq<Net>, i: nat)
    requires WfEntry(entry) && entry.Entry? && i <= Count(entry)
    ensures var r := FirstFree(entry, existing, i);
            && (r.Some? ==> !Hit(existing, Candidate(entry, r.value)))
            && forall l: nat | i <= l < (if r.Some? then r.value else Count(entry)) ::
                 Hit(existing, Candidate(entry, l))
    decreases Count(entry) - i
  {
    if i < Count(entry) && Hit(existing, Candidate(entry, i)) {
      FirstFreeScans(entry, existing, i + 1);
    }
  }

  lemma FirstFreeIs(entry: PoolEntry, existing: seq<Net>, r: Option<nat>)
    requires WfEntry(entry) && entry.Entry? && Aligned(entry) && AllContiguous(existing)
    requires r == FirstFree(entry, existing, 0)
    ensures r.Some? ==> !Taken(existing, Base(entry, r.value), entry.size)
    ensures TakenUpTo(entry, existing, 0, if r.Some? then r.value else Count(entry))
  {
    FirstFreeScans(entry, existing, 0);
    if r.Some? {
      HitIsTakenBlock(entry, existing, r.value);
    }
    forall l: nat | l < (if r.Some? then r.value else Count(entry))
      ensures Taken(existing, Base(entry, l), entry.size)
    {
      HitIsTakenBlock(entry, existing, l);
    }
  }

  /** Block i of entry e comes before position (f, k) of the pool. */
  predicate Before(e: nat, i: nat, f: nat, k: nat) { e < f || (e == f && i < k) }

  ghost predicate TakenAt(pool: seq<PoolEntry>, existing: seq<Net>, e: nat, i: nat)
    requires AlignedPool(pool) && e < |pool| && pool[e].Entry?
  {
    Taken(existing, Base(pool[e], i), pool[e].size)
  }

  /** A find is a free block of the pool and every block from entry e on and before it is
      taken; a failure means that every block, up to a subnet that does not parse, is taken. */
  ghost predicate Stopped(pool: seq<PoolEntry>, existing: seq<Net>, e: nat, r: Found)
    requires AlignedPool(pool)
  {
    var stop := if r.Nowhere? then |pool| else r.e;
    && e <= stop <= |pool| && (forall f | e <= f < stop :: pool[f].Entry?)
    && (r.BadAt? ==> stop < |pool| && pool[stop].BadSubnet?)
    && (r.At? ==> stop < |pool| && pool[stop].Entry? && r.i < Count(pool[stop]) && !TakenAt(pool, existing, stop, r.i))
    && forall f: nat, l: nat | e <= f < |pool| && pool[f].Entry? && l < Count(pool[f]) &&
                               Before(f, l, stop, if r.At? then r.i else 0) :: TakenAt(pool, existing, f, l)
  }

  lemma StopsHere(pool: seq<PoolEntry>, existing: seq<Net>, e: nat, i: nat)
    requires AlignedPool(pool) && e < |pool| && pool[e].Entry? && i < Count(pool[e])
    requires !TakenAt(pool, existing, e, i) && TakenUpTo(pool[e], existing, 0, i)
    ensures Stopped(pool, existing, e, At(e, i))
  {
  }

  lemma StopsLater(pool: seq<PoolEntry>, existing: seq<Net>, e: nat, r: Found)
    requires AlignedPool(pool) && e < |pool| && pool[e].Entry? && TakenUpTo(pool[e], existing, 0, Count(pool[e]))
    requires Stopped(pool, existing, e + 1, r)
    ensures Stopped(pool, existing, e, r)
  {
  }

  lemma {:induction false} SearchIs(pool: seq<PoolEntry>, existing: seq<Net>, e: nat)
    requires WfPool(pool) && AlignedPool(pool) && AllContiguous(existing) && e <= |pool|
    ensures Stopped(pool, existing, e, Search(pool, existing, e))
    decreases |pool| - e
  {
    if e < |pool| && pool[e].Entry? {
      var f := FirstFree(pool[e], existing, 0);
      FirstFreeIs(pool[e], existing, f);
      if f.None? {
        SearchIs(pool, existing, e + 1);
        StopsLater(pool, existing, e, Search(pool, existing, e + 1));
      } else {
        StopsHere(pool, existing, e, f.value);
      }
    }
  }
}
