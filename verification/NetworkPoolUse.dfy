/** What the networks handed out by the pool mean to their users: the gateway
    address that comes with a block, and repeated allocation with the results
    fed back as existing networks (machine/network/pool.go). */
module NetworkPoolUse {
  import opened Options
  import opened Bits
  import opened NetworkPool

  lemma MultipleSum(a: nat, p: nat, i: nat)
    requires p > 0 && a % p == 0
    ensures (a + i * p) % p == 0
  {
    var q := a / p;
    assert a == p * q;
    assert a + i * p == p * (q + i);
    DivUnique(a + i * p, p, q + i, 0);
  }

  lemma FinerAligned(a: nat, z: nat, w: nat)
    requires z <= w && a % Pow2(w) == 0
    ensures a % Pow2(z) == 0
  {
    Pow2Add(z, w - z);
    MultipleOf(a, Pow2(z), Pow2(w - z));
  }

  lemma BaseAligned(e: PoolEntry, i: nat)
    requires e.Entry? && Aligned(e)
    ensures Base(e, i) % Pow2(32 - e.size) == 0
  {
    FinerAligned(e.addr, 32 - e.size, 32 - e.ones);
    MultipleSum(e.addr, Pow2(32 - e.size), i);
  }

  lemma NextInBlock(b: nat, z: nat)
    requires b % Pow2(z) == 0
    ensures SameBlock(b + 1, b, z) <==> z > 0
  {
    if z > 0 {
      var p := Pow2(z - 1);
      assert Pow2(z) == 2 * p;
      var q := b / Pow2(z);
      assert b == Pow2(z) * q;
      DivUnique(b + 1, Pow2(z), q, 1);
    }
  }

  lemma EvenAligned(b: nat, z: nat)
    requires z > 0 && b % Pow2(z) == 0
    ensures b % 2 == 0
  {
    HalfAligned(b, z);
  }

  lemma BumpIsNext(b: nat)
    ensures Bump(b) != b
    ensures b % 2 == 0 ==> Bump(b) == b + 1
  {
    if b % 2 == 0 {
      var q := b / 256;
      assert b == 256 * q + b % 256;
      assert (b % 256) % 2 == 0;
    }
  }

  lemma BumpInBlock(b: nat, z: nat)
    requires b % Pow2(z) == 0
    ensures SameBlock(Bump(b), b, z) <==> z > 0
    ensures z > 0 ==> Bump(b) == b + 1
  {
    BumpIsNext(b);
    if z > 0 {
      EvenAligned(b, z);
      NextInBlock(b, z);
    } else {
      assert Pow2(z) == 1;
    }
  }

  /** The gateway lies in its block exactly when the block has a second address. */
  lemma GatewayInBlock(e: PoolEntry, i: nat)
    requires e.Entry? && Aligned(e)
    ensures SameBlock(Bump(Base(e, i)), Base(e, i), 32 - e.size) <==> e.size <= 31
    ensures e.size <= 31 ==> Bump(Base(e, i)) == Base(e, i) + 1
  {
    BaseAligned(e, i);
    BumpInBlock(Base(e, i), 32 - e.size);
  }

  /** The allocated network as it is listed afterwards. */
  function Given(r: Result): Net
    requires r.Allocated? && r.size <= 32
  {
    Net(Some(r.ip), PrefixMask(r.size))
  }

  /** Every block of the pool has room for a gateway besides its first address. */
  predicate Roomy(pool: seq<PoolEntry>) {
    forall e | 0 <= e < |pool| && pool[e].Entry? :: pool[e].size <= 31
  }

  lemma NextInRange(b: nat, n: nat)
    requires n > 0 && b < Pow2(n) && b % 2 == 0
    ensures b + 1 < Pow2(n)
  {
  }

  /** What is handed out for a find is the block found, gateway first. */
  lemma FoundIsBlock(pool: seq<PoolEntry>, e: PoolEntry, i: nat)
    requires e in pool && AlignedPool(pool) && Roomy(pool) && e.Entry? && i < Count(e)
    ensures Bump(Candidate(e, i).ip.value) == Base(e, i) + 1 && Addr(Base(e, i) + 1)
    ensures SameBlock(Base(e, i) + 1, Base(e, i), 32 - e.size)
  {
    BaseInside(e, i);
    CandidateIsBlock(e, i);
    GatewayInBlock(e, i);
    BaseAligned(e, i);
    EvenAligned(Base(e, i), 32 - e.size);
    NextInRange(Base(e, i), 32);
  }

  /** The network n and the block of `ip` have no address in common. */
  ghost predicate Apart(n: Net, ip: nat, size: nat)
    requires size <= 32
  {
    forall x: nat | Addr(x) && Contains(n, Some(x)) :: !SameBlock(x, ip, 32 - size)
  }

  ghost predicate BlockOf(pool: seq<PoolEntry>, ip: nat, size: nat, e: nat, i: nat) {
    e < |pool| && pool[e].Entry? && i < Count(pool[e]) && size == pool[e].size <= 32 && ip == Base(pool[e], i) + 1 &&
    SameBlock(ip, Base(pool[e], i), 32 - size)
  }

  lemma GivenIsBlock(pool: seq<PoolEntry>, ip: nat, e: nat, i: nat)
    requires AlignedPool(pool) && Roomy(pool) && e < |pool| && pool[e].Entry? && i < Count(pool[e])
    requires ip == Bump(Candidate(pool[e], i).ip.value)
    ensures Addr(ip) && BlockOf(pool, ip, pool[e].size, e, i)
  {
    FoundIsBlock(pool, pool[e], i);
  }

  lemma FreeIsApart(existing: seq<Net>, ip: nat, base: nat, size: nat)
    requires size <= 32 && SameBlock(ip, base, 32 - size) && !Taken(existing, base, size)
    ensures forall j | 0 <= j < |existing| :: Apart(existing[j], ip, size)
  {
    forall j, x: nat | 0 <= j < |existing| && Addr(x) && Contains(existing[j], Some(x))
      ensures !SameBlock(x, ip, 32 - size)
    {
      assert Shares(existing[j], base, size) <==> false;
    }
  }

  lemma FoundIsFree(pool: seq<PoolEntry>, existing: seq<Net>, s: Found)
    requires WfPool(pool) && AlignedPool(pool) && AllContiguous(existing)
    requires s == Search(pool, existing, 0) && s.At?
    ensures !Taken(existing, Base(pool[s.e], s.i), pool[s.e].size)
  {
    SearchIs(pool, existing, 0);
    assert !TakenAt(pool, existing, s.e, s.i);
  }

  /** A network handed out is a block of the pool, gateway included, that shares
      no address with the networks there were. */
  lemma AllocationIsFree(pool: seq<PoolEntry>, existing: seq<Net>, r: Result)
    requires WfPool(pool) && AlignedPool(pool) && Roomy(pool) && AllContiguous(existing)
    requires r == Outcome(pool, existing) && r.Allocated?
    ensures r.size <= 32 && Addr(r.ip)
    ensures exists e: nat, i: nat :: BlockOf(pool, r.ip, r.size, e, i)
    ensures forall j | 0 <= j < |existing| :: Apart(existing[j], r.ip, r.size)
  {
    var s := Search(pool, existing, 0);
    FoundIsFree(pool, existing, s);
    GivenIsBlock(pool, r.ip, s.e, s.i);
    FreeIsApart(existing, r.ip, Base(pool[s.e], s.i), r.size);
  }

  // The first fit.

  /** Block i of entry e, before any subnet that does not parse, shares no address with a network. */
  ghost predicate FreeAt(pool: seq<PoolEntry>, existing: seq<Net>, e: nat, i: nat)
    requires AlignedPool(pool)
  {
    && e < |pool| && (forall f | 0 <= f <= e :: pool[f].Entry?)
    && i < Pow2(pool[e].size - pool[e].ones) && !TakenAt(pool, existing, e, i)
  }

  /** The answer is the block, its last byte one higher. */
  predicate Answers(pool: seq<PoolEntry>, e: nat, i: nat, r: Result)
    requires AlignedPool(pool) && e < |pool| && pool[e].Entry?
  {
    && r.Allocated? && r.size == pool[e].size && NextByte(Base(pool[e], i), r.ip)
    && (r.size <= 31 ==> r.ip == Base(pool[e], i) + 1)
  }

  predicate NextByte(base: nat, ip: nat) { ip / 256 == base / 256 && ip % 256 == (base % 256 + 1) % 256 }

  lemma BumpIsNextByte(base: nat)
    ensures NextByte(base, Bump(base))
  {
    var q, d := base / 256, (base % 256 + 1) % 256;
    assert base == 256 * q + base % 256;
    assert Bump(base) == 256 * q + d;
    DivUnique(Bump(base), 256, q, d);
  }

  /** An answer exactly when a block is free, and then for the first free block in pool order. */
  ghost predicate FirstFit(pool: seq<PoolEntry>, existing: seq<Net>, r: Result)
    requires AlignedPool(pool)
  {
    && (r.Allocated? <==> exists e: nat, i: nat :: FreeAt(pool, existing, e, i))
    && (r.Allocated? ==> exists e: nat, i: nat ::
          FreeAt(pool, existing, e, i) && Answers(pool, e, i, r) &&
          forall f: nat, j: nat | FreeAt(pool, existing, f, j) :: !Before(f, j, e, i))
  }

  lemma BlockAnswers(pool: seq<PoolEntry>, e: nat, i: nat, base: nat, r: Result)
    requires AlignedPool(pool) && e < |pool| && pool[e].Entry? && base == Base(pool[e], i)
    requires r == Allocated(Bump(base), pool[e].size)
    ensures Answers(pool, e, i, r)
  {
    BumpIsNextByte(base);
    GatewayInBlock(pool[e], i);
  }

  lemma CandidateAnswers(pool: seq<PoolEntry>, e: nat, i: nat, r: Result)
    requires AlignedPool(pool) && e < |pool| && pool[e].Entry? && i < Count(pool[e])
    requires r == Allocated(Bump(Candidate(pool[e], i).ip.value), pool[e].size)
    ensures Answers(pool, e, i, r)
  {
    CandidateIsBlock(pool[e], i);
    BlockAnswers(pool, e, i, Base(pool[e], i), r);
  }

  /** A free block lies at the stop or behind it. */
  lemma NoneBefore(pool: seq<PoolEntry>, existing: seq<Net>, s: Found, f: nat, j: nat)
    requires AlignedPool(pool) && Stopped(pool, existing, 0, s) && FreeAt(pool, existing, f, j)
    ensures s.At? && !Before(f, j, s.e, s.i)
  {
  }

  lemma OutcomeIsFirstFit(pool: seq<PoolEntry>, existing: seq<Net>)
    requires WfPool(pool) && AlignedPool(pool) && AllContiguous(existing)
    ensures FirstFit(pool, existing, Outcome(pool, existing))
  {
    var s := Search(pool, existing, 0);
    SearchIs(pool, existing, 0);
    if s.At? {
      CandidateAnswers(pool, s.e, s.i, Outcome(pool, existing));
      assert FreeAt(pool, existing, s.e, s.i);
    }
    forall f: nat, j: nat | FreeAt(pool, existing, f, j) ensures s.At? && !Before(f, j, s.e, s.i) {
      NoneBefore(pool, existing, s, f, j);
    }
  }

  method FindFreeNetwork(pool: seq<PoolEntry>, existing: seq<Net>) returns (r: Result)
    requires WfPool(pool)
    ensures r == Outcome(pool, existing)
    ensures AlignedPool(pool) && AllContiguous(existing) ==> FirstFit(pool, existing, r)
  {
    if AlignedPool(pool) && AllContiguous(existing) {
      OutcomeIsFirstFit(pool, existing);
    }
    var e := 0;
    while e < |pool|
      invariant 0 <= e <= |pool|
      invariant Search(pool, existing, 0) == Search(pool, existing, e)
    {
      if pool[e].BadSubnet? {
        return Failed;
      }
      var found, ip := TryEntry(pool[e], existing);
      if found {
        return Allocated(ip, pool[e].size);
      }
      e := e + 1;
    }
    return Failed;
  }

  // Repeated allocation.

  /** Each network is what the pool gives when the earlier ones are listed. */
  predicate Granted(pool: seq<PoolEntry>, existing: seq<Net>, nets: seq<Net>)
    requires WfPool(pool)
    decreases |nets|
  {
    if nets == [] then true
    else
      var k := |nets| - 1;
      var r := Outcome(pool, existing + nets[..k]);
      Granted(pool, existing, nets[..k]) && r.Allocated? && r.size <= 32 && nets[k] == Given(r)
  }

  ghost predicate Disjoint(n: Net, m: Net) {
    forall x: nat | Addr(x) :: !(Contains(n, Some(x)) && Contains(m, Some(x)))
  }

  lemma GivenIsDisjoint(n: Net, r: Result)
    requires r.Allocated? && r.size <= 32 && Addr(r.ip) && Apart(n, r.ip, r.size)
    ensures Disjoint(n, Given(r))
  {
    forall x: nat | Addr(x) && Contains(n, Some(x)) ensures !Contains(Given(r), Some(x)) {
      ContainsIsBlock(r.ip, x, r.size);
    }
  }

  lemma OneMore(pool: seq<PoolEntry>, all: seq<Net>, r: Result)
    requires WfPool(pool) && AlignedPool(pool) && Roomy(pool) && AllContiguous(all)
    requires r == Outcome(pool, all) && r.Allocated?
    ensures r.size <= 32 && Contiguous(Given(r))
    ensures forall j | 0 <= j < |all| :: Disjoint(all[j], Given(r))
  {
    AllocationIsFree(pool, all, r);
    assert Given(r).mask == PrefixMask(r.size);
    forall j | 0 <= j < |all| ensures Disjoint(all[j], Given(r)) {
      GivenIsDisjoint(all[j], r);
    }
  }

  /** From position m on, each network is disjoint from all before it. */
  ghost predicate DisjointFrom(all: seq<Net>, m: nat) {
    forall j, k | 0 <= j < k < |all| && m <= k :: Disjoint(all[j], all[k])
  }

  lemma DisjointExtends(all: seq<Net>, m: nat, n: Net)
    requires DisjointFrom(all, m) && AllContiguous(all) && Contiguous(n)
    requires forall j | 0 <= j < |all| :: Disjoint(all[j], n)
    ensures DisjointFrom(all + [n], m) && AllContiguous(all + [n])
  {
  }

  /** However often the pool is asked, no two networks it gives, and none of them
      and a network there was before, have an address in common. */
  lemma {:induction false} AllocationsDisjoint(pool: seq<PoolEntry>, existing: seq<Net>, nets: seq<Net>)
    requires WfPool(pool) && AlignedPool(pool) && Roomy(pool) && AllContiguous(existing)
    requires Granted(pool, existing, nets)
    ensures AllContiguous(existing + nets) && DisjointFrom(existing + nets, |existing|)
    decreases |nets|
  {
    if nets == [] {
      assert existing + nets == existing;
    } else {
      var k := |nets| - 1;
      var before := existing + nets[..k];
      var r := Outcome(pool, before);
      AllocationsDisjoint(pool, existing, nets[..k]);
      OneMore(pool, before, r);
      DisjointExtends(before, |existing|, Given(r));
      assert existing + nets == before + [Given(r)];
    }
  }

  // The exception, and the pool that is shipped.

  lemma SoleOutcome(pool: seq<PoolEntry>, e: PoolEntry, existing: seq<Net>)
    requires pool == [e] && e.Entry? && WfEntry(e) && e.size == e.ones
    requires !Hit(existing, Candidate(e, 0))
    ensures Outcome(pool, existing) == Allocated(Bump(Candidate(e, 0).ip.value), e.size)
  {
    var n := Count(e);
    assert n == 1;
    assert FirstFree(e, existing, 0) == Some(0);
    assert pool[0] == e;
  }

  lemma Neighbours(a: nat, ones: nat)
    requires Addr(a) && Addr(a + 1) && ones == 32
    ensures !Contains(Net(Some(a), PrefixMask(ones)), Some(a + 1))
    ensures !NetworksIntersect(Net(Some(a + 1), PrefixMask(ones)), Net(Some(a), PrefixMask(ones)))
  {
    ContainsIsBlock(a, a + 1, ones);
    ContainsIsBlock(a + 1, a, ones);
  }

  lemma SoleEntry(e: PoolEntry)
    requires e.Entry? && Addr(e.addr) && e.addr % 2 == 0 && e.ones == 32 && e.size == 32
    ensures Aligned(e) && Addr(e.addr + 1)
    ensures Candidate(e, 0) == Net(Some(e.addr), PrefixMask(e.size)) && Bump(e.addr) == e.addr + 1
  {
    assert Aligned(e) by { assert Pow2(32 - e.ones) == 1; }
    CandidateIsBlock(e, 0);
    BumpIsNext(e.addr);
    NextInRange(e.addr, e.size);
  }

  lemma MissesOne(n: Net, candidate: Net)
    requires !NetworksIntersect(n, candidate)
    ensures !Hit([], candidate) && !Hit([n], candidate)
  {
  }

  lemma SoleMisses(e: PoolEntry)
    requires e.Entry? && Addr(e.addr) && e.addr % 2 == 0 && e.ones == 32 && e.size == 32
    ensures !Hit([], Candidate(e, 0))
    ensures !Hit([Net(Some(e.addr + 1), PrefixMask(e.size))], Candidate(e, 0))
  {
    SoleEntry(e);
    Neighbours(e.addr, e.size);
    MissesOne(Net(Some(e.addr + 1), PrefixMask(e.size)), Candidate(e, 0));
  }

  /** A pool of single addresses hands out an address outside of its subnet, and
      hands it out again. */
  lemma SingleAddressRepeats(e: PoolEntry, pool: seq<PoolEntry>, r: Result)
    requires e.Entry? && Addr(e.addr) && e.addr % 2 == 0 && e.ones == 32 && e.size == 32
    requires pool == [e] && r == Allocated(e.addr + 1, e.size)
    ensures WfPool(pool) && AlignedPool(pool)
    ensures Outcome(pool, []) == r && Outcome(pool, [Given(r)]) == r
    ensures !Contains(Net(Some(e.addr), PrefixMask(e.ones)), Some(r.ip))
  {
    SoleEntry(e);
    SoleMisses(e);
    Neighbours(e.addr, e.size);
    SoleOutcome(pool, e, []);
    SoleOutcome(pool, e, [Given(r)]);
  }

  function DefaultNetworkPool(): seq<PoolEntry> {
    [Entry(0xAC11_0000, 16, 16), Entry(0xAC12_0000, 16, 16), Entry(0xAC13_0000, 16, 16),
     Entry(0xAC14_0000, 14, 16), Entry(0xAC18_0000, 14, 16), Entry(0xAC1C_0000, 14, 16),
     Entry(0xC0A8_0000, 16, 20)]
  }

  lemma SmallPowers()
    ensures Pow2(16) == 0x1_0000 && Pow2(18) == 0x4_0000 && Pow2(32) == 0x1_0000_0000
  {
    Pow2Word();
    Pow2Add(8, 8);
    Pow2Add(16, 2);
  }

  lemma WideEntry(e: PoolEntry)
    requires e.Entry? && e.addr < 0x1_0000_0000 && e.ones <= e.size <= 31
    requires (e.ones == 16 && e.addr % 0x1_0000 == 0) || (e.ones == 14 && e.addr % 0x4_0000 == 0)
    ensures WfEntry(e) && Aligned(e)
  {
    SmallPowers();
  }

  /** The pool that is shipped meets every condition above. */
  lemma DefaultPoolIsSound()
    ensures WfPool(DefaultNetworkPool()) && AlignedPool(DefaultNetworkPool()) && Roomy(DefaultNetworkPool())
  {
    var pool := DefaultNetworkPool();
    forall e | 0 <= e < |pool| ensures WfEntry(pool[e]) && Aligned(pool[e]) {
      WideEntry(pool[e]);
    }
  }
}
