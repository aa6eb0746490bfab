/** The workers of AssignIPs, one for each service, in any interleaving of their
    critical sections (compose/project.go). */
module AssignIpsRun {
  import opened Options
  import opened AssignIps

  /** What the workers start with: the subnets, the addresses in use, and for each
      service the networks on which it has no address yet. `traps` are the external
      networks with IPAM entries, for which nothing was set up, and whether the first
      entry's subnet parses. */
  datatype World = World(subnets: map<string, Subnet>, start: map<string, set<Text>>, traps: map<string, bool>,
                         want: seq<set<string>>)

  predicate Proper(w: World) {
    && w.start.Keys == w.subnets.Keys
    && (forall n | n in w.subnets :: ValidSubnet(w.subnets[n]) && Canon(w.subnets[n].base) in w.start[n])
    && w.traps.Keys !! w.subnets.Keys
    && (forall i | 0 <= i < |w.want| :: w.want[i] <= w.subnets.Keys + w.traps.Keys)
  }

  /** The networks on which each service is to get an address. */
  function Wants(services: seq<Service>, named: set<string>): (want: seq<set<string>>)
    ensures |want| == |services|
    ensures forall i | 0 <= i < |want| :: forall n ::
              n in want[i] <==> n in services[i].networks && services[i].networks[n].None? && n in named
  {
    if services == [] then []
    else
      var service := services[|services| - 1];
      Wants(services[..|services| - 1], named) +
      [set n | n in service.networks && service.networks[n].None? && n in named]
  }

  predicate GoodPlans(plans: map<string, Plan>) { forall n | n in plans :: ValidSubnet(plans[n].subnet) }

  /** What the first two passes over a project leave to the workers. */
  function WorldOf(plans: map<string, Plan>, traps: map<string, bool>, services: seq<Service>): World {
    World(map n | n in plans :: plans[n].subnet,
          map n | n in plans :: Taken(plans[n]) + Statics(services, n),
          traps,
          Wants(services, plans.Keys + traps.Keys))
  }

  function Traps(networks: map<string, Network>): map<string, bool> {
    map n | n in networks && networks[n].external && networks[n].ipam != [] ::
      networks[n].ipam[0].subnet.Some? && networks[n].ipam[0].subnet.value.Cidr?
  }

  lemma PlansAreGood(networks: map<string, Network>, plans: map<string, Plan>)
    requires ValidNetworks(networks) && PlansFor(networks, plans)
    ensures GoodPlans(plans)
  {
    forall n | n in plans ensures ValidSubnet(plans[n].subnet) {
      PlanHolds(networks[n], plans[n]);
    }
  }

  lemma WorldIsProper(plans: map<string, Plan>, traps: map<string, bool>, services: seq<Service>)
    requires GoodPlans(plans) && plans.Keys !! traps.Keys
    ensures Proper(WorldOf(plans, traps, services))
  {
  }

  /** Every network of the project's own that has IPAM entries is well configured. */
  ghost predicate NetworksInOrder(networks: map<string, Network>) {
    forall n | n in networks && !networks[n].external && networks[n].ipam != [] :: WellConfigured(networks[n])
  }

  /** Services name only networks that are there, and static addresses only on networks of
      the project's own with IPAM entries. */
  predicate EntriesInOrder(networks: map<string, Network>, services: seq<Service>) {
    forall i, n | 0 <= i < |services| && n in services[i].networks ::
      n in networks && (services[i].networks[n].Some? ==> networks[n].ipam != [] && !networks[n].external)
  }

  lemma InOrderIs(networks: map<string, Network>, services: seq<Service>)
    requires ValidNetworks(networks)
    ensures AllPlanned(networks) <==> NetworksInOrder(networks)
    ensures EntriesHold(networks, services, |services|) <==> EntriesInOrder(networks, services)
  {
    forall n | n in networks && !Skipped(networks[n])
      ensures PlanOf(networks[n]).Some? <==> WellConfigured(networks[n])
    {
      PlannedExactly(networks[n]);
    }
  }

  /** The first two passes: they go through exactly when every network that is not
      external and has IPAM entries has a plan and every entry of every service can be
      taken over; then the workers find what WorldOf says. */
  method Prepare(networks: map<string, Network>, services: seq<Service>) returns (r: Outcome, m: Marks)
    requires ValidNetworks(networks)
    ensures r.Done? <==> AllPlanned(networks) && EntriesHold(networks, services, |services|)
    ensures r.Done? <==> NetworksInOrder(networks) && EntriesInOrder(networks, services)
    ensures fresh(m)
    ensures r.Done? ==> PlansFor(networks, m.plans) && GoodPlans(m.plans) && m.plans.Keys !! Traps(networks).Keys
    ensures r.Done? ==> m.used == WorldOf(m.plans, Traps(networks), services).start
  {
    InOrderIs(networks, services);
    m := new Marks();
    var ok := m.MarkNetworks(networks);
    if !ok {
      return Fails, m;
    }
    PlansAreGood(networks, m.plans);
    r := m.MarkStatics(networks, services);
  }

  datatype State = State(used: map<string, set<Text>>, pending: seq<set<string>>, failed: set<nat>,
                         given: map<(nat, string), nat>, panicked: bool)

  function Init(w: World): State { State(w.start, w.want, {}, map[], false) }

  /** Worker i is about to handle network n. */
  predicate Enabled(w: World, s: State, i: nat, n: string) {
    !s.panicked && i < |s.pending| && i !in s.failed && n in s.pending[i] &&
    (n in w.traps || (n in w.subnets && n in s.used))
  }

  function Next(w: World, s: State, i: nat, n: string): State
    requires Proper(w) && Enabled(w, s, i, n)
  {
    if n in w.traps then if w.traps[n] then s.(panicked := true) else s.(failed := s.failed + {i})
    else
      var r := Found(w.subnets[n], s.used[n]);
      if r.None? then s.(failed := s.failed + {i})
      else
        s.(used := s.used[n := s.used[n] + {Canon(r.value)}], pending := s.pending[i := s.pending[i] - {n}],
           given := s.given[(i, n) := r.value])
  }

  /** The turn gives an address. */
  predicate Gives(w: World, s: State, i: nat, n: string)
    requires Proper(w)
  {
    Enabled(w, s, i, n) && n !in w.traps && Found(w.subnets[n], s.used[n]).Some?
  }

  // What every interleaving keeps.

  ghost predicate Shaped(w: World, s: State) {
    && s.used.Keys == w.start.Keys
    && |s.pending| == |w.want|
    && (forall i | 0 <= i < |w.want| :: s.pending[i] <= w.want[i])
    && (forall i: nat, n :: (i, n) in s.given <==> i < |w.want| && n in w.want[i] - s.pending[i])
    && (forall i: nat, n | (i, n) in s.given :: n in w.subnets)
  }

  /** The address is a free one of its subnet, it is marked, and so is every one before it. */
  ghost predicate FairlyGiven(w: World, s: State, i: nat, n: string)
    requires Proper(w) && Shaped(w, s) && (i, n) in s.given
  {
    var a := s.given[(i, n)];
    && In(w.subnets[n], Ip4(a)) && Canon(a) !in w.start[n] && Canon(a) in s.used[n] && Searchable(w.subnets[n])
    && forall b: nat | w.subnets[n].base <= b < a :: Canon(b) in s.used[n]
  }

  ghost predicate MarkedFor(w: World, s: State, n: string, t: Text)
    requires Shaped(w, s)
  {
    exists i: nat :: (i, n) in s.given && t == Canon(s.given[(i, n)])
  }

  ghost predicate Ledger(w: World, s: State)
    requires Proper(w) && Shaped(w, s)
  {
    && (forall n | n in s.used :: w.start[n] <= s.used[n])
    && (forall n, t | n in s.used && t in s.used[n] :: t in w.start[n] || MarkedFor(w, s, n, t))
    && (forall i: nat, n | (i, n) in s.given :: FairlyGiven(w, s, i, n))
  }

  ghost predicate Distinct(s: State) {
    forall i: nat, j: nat, n | (i, n) in s.given && (j, n) in s.given && i != j :: s.given[(i, n)] != s.given[(j, n)]
  }

  predicate Exhausted(w: World, s: State, n: string)
    requires Proper(w)
  {
    n in w.subnets && n in s.used && Found(w.subnets[n], s.used[n]).None?
  }

  /** No address can be had there any more, or none at all. */
  predicate Hopeless(w: World, s: State, n: string)
    requires Proper(w)
  {
    n in w.traps || Exhausted(w, s, n)
  }

  /** A worker gave up only before a network without a free address. */
  ghost predicate FailedRightly(w: World, s: State)
    requires Proper(w) && Shaped(w, s)
  {
    forall i | i in s.failed :: i < |w.want| && exists n | n in s.pending[i] :: Hopeless(w, s, n)
  }

  ghost predicate Inv(w: World, s: State) {
    Proper(w) && Shaped(w, s) && Ledger(w, s) && Distinct(s) && FailedRightly(w, s)
  }

  lemma InitInv(w: World)
    requires Proper(w)
    ensures Inv(w, Init(w))
  {
  }

  lemma StaysExhausted(sub: Subnet, used: set<Text>, more: set<Text>)
    requires sub.size > 0 && used <= more && Found(sub, used).None?
    ensures Found(sub, more).None?
  {
    var r := FirstFree(sub, more, sub.base);
    if r.Some? {
      assert Canon(r.value) !in used;
    }
  }

  lemma GiveShapes(w: World, s: State, i: nat, n: string)
    requires Inv(w, s) && Enabled(w, s, i, n)
    ensures Shaped(w, Next(w, s, i, n))
  {
  }

  /** The new address is none of the earlier ones. */
  lemma GiveIsDistinct(w: World, s: State, i: nat, n: string)
    requires Inv(w, s) && Enabled(w, s, i, n)
    ensures Distinct(Next(w, s, i, n))
  {
    if Gives(w, s, i, n) {
      var r := Found(w.subnets[n], s.used[n]);
      forall j: nat | (j, n) in s.given ensures s.given[(j, n)] != r.value {
        assert FairlyGiven(w, s, j, n);
      }
    }
  }

  lemma NewIsFair(w: World, s: State, i: nat, n: string)
    requires Inv(w, s) && Gives(w, s, i, n)
    ensures var s' := Next(w, s, i, n); Shaped(w, s') && (i, n) in s'.given && FairlyGiven(w, s', i, n)
  {
    GiveShapes(w, s, i, n);
    var a := Found(w.subnets[n], s.used[n]).value;
    assert Canon(w.subnets[n].base) in s.used[n];
    assert a != w.subnets[n].base;
  }

  lemma OldStaysFair(w: World, s: State, i: nat, n: string, j: nat, m: string)
    requires Inv(w, s) && Gives(w, s, i, n) && (j, m) in s.given
    ensures var s' := Next(w, s, i, n); Shaped(w, s') && (j, m) in s'.given && FairlyGiven(w, s', j, m)
  {
    GiveShapes(w, s, i, n);
    assert FairlyGiven(w, s, j, m);
  }

  lemma GiveIsMarked(w: World, s: State, i: nat, n: string, m: string, t: Text)
    requires Inv(w, s) && Gives(w, s, i, n)
    requires m in Next(w, s, i, n).used && t in Next(w, s, i, n).used[m] && t !in w.start[m]
    ensures Shaped(w, Next(w, s, i, n)) && MarkedFor(w, Next(w, s, i, n), m, t)
  {
    GiveShapes(w, s, i, n);
    var s', a := Next(w, s, i, n), Found(w.subnets[n], s.used[n]).value;
    if m == n && t == Canon(a) {
      assert (i, n) in s'.given;
    } else {
      var j: nat :| (j, m) in s.given && t == Canon(s.given[(j, m)]);
      assert (j, m) in s'.given;
    }
  }

  lemma GiveIsFair(w: World, s: State, i: nat, n: string)
    requires Inv(w, s) && Gives(w, s, i, n)
    ensures Shaped(w, Next(w, s, i, n)) && Ledger(w, Next(w, s, i, n))
  {
    GiveShapes(w, s, i, n);
    var s' := Next(w, s, i, n);
    forall j: nat, m | (j, m) in s'.given ensures FairlyGiven(w, s', j, m) {
      if (j, m) == (i, n) { NewIsFair(w, s, i, n); } else { OldStaysFair(w, s, i, n, j, m); }
    }
    forall m, t | m in s'.used && t in s'.used[m] && t !in w.start[m] ensures MarkedFor(w, s', m, t) {
      GiveIsMarked(w, s, i, n, m, t);
    }
  }

  lemma FailuresStayRight(w: World, s: State, i: nat, n: string)
    requires Inv(w, s) && Enabled(w, s, i, n)
    ensures Shaped(w, Next(w, s, i, n)) && FailedRightly(w, Next(w, s, i, n))
  {
    GiveShapes(w, s, i, n);
    var s' := Next(w, s, i, n);
    forall j | j in s'.failed ensures j < |w.want| && exists m | m in s'.pending[j] :: Hopeless(w, s', m) {
      if j in s.failed {
        var m :| m in s.pending[j] && Hopeless(w, s, m);
        if m !in w.traps {
          StaysExhausted(w.subnets[m], s.used[m], s'.used[m]);
        }
        assert m in s'.pending[j] && Hopeless(w, s', m);
      } else {
        assert Hopeless(w, s', n);
      }
    }
  }

  lemma StepInv(w: World, s: State, i: nat, n: string)
    requires Inv(w, s) && Enabled(w, s, i, n)
    ensures Inv(w, Next(w, s, i, n))
  {
    GiveShapes(w, s, i, n);
    GiveIsDistinct(w, s, i, n);
    FailuresStayRight(w, s, i, n);
    if Gives(w, s, i, n) {
      GiveIsFair(w, s, i, n);
    }
  }

  /** A run: which worker handles which network, critical section by critical section. */
  predicate Runs(w: World, states: seq<State>, turns: seq<(nat, string)>)
    requires Proper(w)
  {
    && |states| == |turns| + 1
    && states[0] == Init(w)
    && forall k | 0 <= k < |turns| ::
         Enabled(w, states[k], turns[k].0, turns[k].1) && states[k + 1] == Next(w, states[k], turns[k].0, turns[k].1)
  }

  lemma {:induction false} RunInv(w: World, states: seq<State>, turns: seq<(nat, string)>, k: nat)
    requires Proper(w) && Runs(w, states, turns) && k < |states|
    ensures Inv(w, states[k])
    decreases k
  {
    if k == 0 {
      InitInv(w);
    } else {
      RunInv(w, states, turns, k - 1);
      StepInv(w, states[k - 1], turns[k - 1].0, turns[k - 1].1);
    }
  }

  // When the call succeeds.

  function Free(w: World, n: string): set<nat>
    requires Proper(w) && n in w.subnets
  {
    set a: nat | w.subnets[n].base <= a < w.subnets[n].base + w.subnets[n].size && Canon(a) !in w.start[n]
  }

  function Requests(w: World, n: string): set<nat> { set i | 0 <= i < |w.want| && n in w.want[i] }

  function Served(w: World, s: State, n: string): set<nat> { set i | 0 <= i < |w.want| && (i, n) in s.given }

  predicate Complete(s: State) { forall i | 0 <= i < |s.pending| :: i in s.failed || s.pending[i] == {} }

  lemma {:induction false} Injection(from: set<nat>, f: map<nat, nat>, to: set<nat>)
    requires (forall i | i in from :: i in f && f[i] in to)
    requires (forall i, j | i in from && j in from && i != j :: f[i] != f[j])
    ensures |from| <= |to|
    decreases |from|
  {
    if from != {} {
      var i :| i in from;
      Injection(from - {i}, f, to - {f[i]});
    }
  }

  lemma {:induction false} Surjection(from: set<nat>, f: map<nat, nat>, to: set<nat>)
    requires (forall i | i in from :: i in f)
    requires (forall a | a in to :: exists i :: i in from && f[i] == a)
    ensures |to| <= |from|
    decreases |from|
  {
    if from == {} {
      assert to == {};
    } else {
      var i :| i in from;
      forall a | a in to - {f[i]} ensures exists j :: j in from - {i} && f[j] == a {
        var j :| j in from && f[j] == a;
        assert j in from - {i};
      }
      Surjection(from - {i}, f, to - {f[i]});
      assert |to| <= |to - {f[i]}| + 1 by {
        if f[i] in to { assert to == (to - {f[i]}) + {f[i]}; } else { assert to == to - {f[i]}; }
      }
    }
  }

  function GivenOn(w: World, s: State, n: string): map<nat, nat> {
    map i | i in Served(w, s, n) :: s.given[(i, n)]
  }

  lemma ServedFits(w: World, s: State, n: string)
    requires Inv(w, s) && n in w.subnets
    ensures |Served(w, s, n)| <= |Free(w, n)|
  {
    forall i | i in Served(w, s, n) ensures GivenOn(w, s, n)[i] in Free(w, n) {
      assert FairlyGiven(w, s, i, n);
    }
    Injection(Served(w, s, n), GivenOn(w, s, n), Free(w, n));
  }

  lemma ExhaustedIsFull(w: World, s: State, n: string)
    requires Inv(w, s) && Exhausted(w, s, n) && Searchable(w.subnets[n])
    ensures |Free(w, n)| <= |Served(w, s, n)|
  {
    var served, f := Served(w, s, n), GivenOn(w, s, n);
    forall a | a in Free(w, n) ensures exists i :: i in served && f[i] == a {
      assert Canon(a) in s.used[n];
      var i: nat :| (i, n) in s.given && Canon(a) == Canon(s.given[(i, n)]);
      assert i in served;
    }
    Surjection(served, f, Free(w, n));
  }

  predicate EnoughFor(w: World, n: string)
    requires Proper(w) && n in w.subnets
  {
    Searchable(w.subnets[n]) && |Requests(w, n)| <= |Free(w, n)|
  }

  /** Every request on network n can be met. */
  predicate CanServe(w: World, n: string)
    requires Proper(w)
  {
    n in w.subnets && EnoughFor(w, n)
  }

  lemma FailureMeansTooFew(w: World, s: State, i: nat)
    requires Inv(w, s) && i in s.failed
    ensures exists n :: Requests(w, n) != {} && !CanServe(w, n)
  {
    var n :| n in s.pending[i] && Hopeless(w, s, n);
    assert i in Requests(w, n);
    if n in w.subnets && Searchable(w.subnets[n]) {
      ExhaustedIsFull(w, s, n);
      var served, requests := Served(w, s, n), Requests(w, n);
      assert served <= requests - {i};
      Subset(served, requests - {i});
    }
    assert !CanServe(w, n);
  }

  lemma {:induction false} Subset(a: set<nat>, b: set<nat>)
    requires a <= b
    ensures |a| <= |b|
    decreases |a|
  {
    if a != {} {
      var x :| x in a;
      Subset(a - {x}, b - {x});
    }
  }

  lemma SuccessMeansEnough(w: World, s: State, n: string)
    requires Inv(w, s) && Complete(s) && s.failed == {} && Requests(w, n) != {}
    ensures CanServe(w, n)
  {
    var i :| i in Requests(w, n);
    assert (i, n) in s.given;
    assert FairlyGiven(w, s, i, n);
    assert Served(w, s, n) == Requests(w, n);
    ServedFits(w, s, n);
  }

  /** When all workers are through, the call succeeded if and only if every network that
      is asked for addresses has at least as many free ones as requests, and lies above
      0.255.255.254: whatever the interleaving. */
  lemma SucceedsExactly(w: World, states: seq<State>, turns: seq<(nat, string)>, s: State)
    requires Proper(w) && Runs(w, states, turns) && s == states[|turns|] && Complete(s)
    ensures s.failed == {} <==> forall n | Requests(w, n) != {} :: CanServe(w, n)
  {
    RunInv(w, states, turns, |turns|);
    if s.failed != {} {
      var i :| i in s.failed;
      FailureMeansTooFew(w, s, i);
    } else {
      forall n | Requests(w, n) != {} ensures CanServe(w, n) { SuccessMeansEnough(w, s, n); }
    }
  }

  /** Some service has no address yet on an external network whose IPAM subnet parses. */
  ghost predicate Trapped(w: World) { exists i, n :: TrappedAt(w, i, n) }

  predicate TrappedAt(w: World, i: nat, n: string) {
    i < |w.want| && n in w.want[i] && n in w.traps && w.traps[n]
  }

  lemma PanicMeansTrap(w: World, states: seq<State>, turns: seq<(nat, string)>, k: nat)
    requires Proper(w) && Runs(w, states, turns) && k < |turns| && states[k + 1].panicked
    ensures Trapped(w)
  {
    RunInv(w, states, turns, k);
    assert TrappedAt(w, turns[k].0, turns[k].1);
  }

  ghost predicate CanPanic(w: World)
    requires Proper(w)
  {
    exists states: seq<State>, turns: seq<(nat, string)> :: Runs(w, states, turns) && states[|turns|].panicked
  }

  /** Some interleaving panics, on a map that was never made, if and only if a service waits for an
      address there. */
  lemma PanicsExactly(w: World)
    requires Proper(w)
    ensures CanPanic(w) <==> Trapped(w)
  {
    if states: seq<State>, turns: seq<(nat, string)> :| Runs(w, states, turns) && states[|turns|].panicked {
      PanicMeansTrap(w, states, turns, |turns| - 1);
    }
    if i, n :| TrappedAt(w, i, n) {
      var states := [Init(w), Next(w, Init(w), i, n)];
      assert Runs(w, states, [(i, n)]) && states[1].panicked;
    }
  }

  /** The address is one of the subnet, and neither the network address nor an address
      written down in printed form for the gateway or a service. */
  predicate IsFree(plan: Plan, statics: set<Text>, a: nat) {
    In(plan.subnet, Ip4(a)) && a != plan.subnet.base && plan.gateway != Canon(a) && Canon(a) !in statics
  }

  /** In every state of every run an assigned address lies in its subnet, is free from
      the start and is assigned to nobody else. */
  lemma AssignedIsFree(plans: map<string, Plan>, services: seq<Service>, w: World, states: seq<State>,
                       turns: seq<(nat, string)>, k: nat, i: nat, n: string)
    requires GoodPlans(plans) && w == WorldOf(plans, w.traps, services)
    requires Proper(w) && Runs(w, states, turns) && k < |states| && (i, n) in states[k].given
    ensures n in plans && IsFree(plans[n], Statics(services, n), states[k].given[(i, n)])
    ensures forall j: nat | j != i && (j, n) in states[k].given :: states[k].given[(j, n)] != states[k].given[(i, n)]
  {
    RunInv(w, states, turns, k);
    assert FairlyGiven(w, states[k], i, n);
  }

  // Which addresses are given.

  function Given(w: World, s: State, n: string): set<nat> {
    set i | i in Served(w, s, n) :: s.given[(i, n)]
  }

  function Below(free: set<nat>, a: nat): set<nat> { set b | b in free && b < a }

  lemma GivenCount(w: World, s: State, n: string)
    requires Inv(w, s)
    ensures |Given(w, s, n)| == |Served(w, s, n)|
  {
    var f := GivenOn(w, s, n);
    Injection(Served(w, s, n), f, Given(w, s, n));
    forall a | a in Given(w, s, n) ensures exists i :: i in Served(w, s, n) && f[i] == a {
      var i :| i in Served(w, s, n) && s.given[(i, n)] == a;
      assert f[i] == a;
    }
    Surjection(Served(w, s, n), f, Given(w, s, n));
  }

  /** First come, first address: nothing free is left out below an address that is given. */
  lemma GivenFromBelow(w: World, s: State, n: string, a: nat, b: nat)
    requires Inv(w, s) && n in w.subnets && a in Given(w, s, n) && b in Free(w, n) && b < a
    ensures b in Given(w, s, n)
  {
    var i :| i in Served(w, s, n) && s.given[(i, n)] == a;
    assert FairlyGiven(w, s, i, n);
    assert Canon(b) in s.used[n];
    var j: nat :| (j, n) in s.given && Canon(b) == Canon(s.given[(j, n)]);
    assert j in Served(w, s, n);
  }

  /** A part of a set that leaves nothing out below is made of the smallest elements. */
  lemma SmallestOf(free: set<nat>, part: set<nat>, a: nat)
    requires part <= free && forall x, y | x in part && y in free && y < x :: y in part
    ensures a in part <==> a in free && |Below(free, a)| < |part|
  {
    if a in part {
      Subset(Below(free, a), part - {a});
    } else if a in free {
      forall x | x in part ensures x in Below(free, a) { }
      Subset(part, Below(free, a));
    }
  }

  /** In a run in which all workers get through, the addresses given on a network are exactly the
      smallest free ones, as many as were asked for. */
  lemma GivenAreSmallest(w: World, states: seq<State>, turns: seq<(nat, string)>, s: State, n: string, a: nat)
    requires Proper(w) && Runs(w, states, turns) && s == states[|turns|] && Complete(s) && s.failed == {}
    requires n in w.subnets
    ensures a in Given(w, s, n) <==> a in Free(w, n) && |Below(Free(w, n), a)| < |Requests(w, n)|
  {
    RunInv(w, states, turns, |turns|);
    assert Served(w, s, n) == Requests(w, n);
    GivenCount(w, s, n);
    forall x | x in Given(w, s, n) ensures x in Free(w, n) {
      var i :| i in Served(w, s, n) && s.given[(i, n)] == x;
      assert FairlyGiven(w, s, i, n);
    }
    forall x, y | x in Given(w, s, n) && y in Free(w, n) && y < x ensures y in Given(w, s, n) {
      GivenFromBelow(w, s, n, x, y);
    }
    SmallestOf(Free(w, n), Given(w, s, n), a);
  }

  /** The texts that were written down for a network: gateway, network address, static addresses. */
  function Written(plan: Plan, services: seq<Service>, n: string): set<Text> { Taken(plan) + Statics(services, n) }

  /** A text that is not in printed form denotes one of the addresses that will be given. */
  ghost predicate Misread(w: World, n: string, t: Text)
    requires Proper(w) && n in w.subnets
  {
    t.Other? && t.denotes.Some? && t.denotes.value in Free(w, n) &&
    |Below(Free(w, n), t.denotes.value)| < |Requests(w, n)|
  }

  /** An address is given although it was written down for the gateway or a service if and only if one
      of these texts is not in printed form and denotes one of the smallest free addresses. */
  lemma CollidesExactly(plans: map<string, Plan>, services: seq<Service>, w: World, states: seq<State>,
                        turns: seq<(nat, string)>, s: State, n: string)
    requires GoodPlans(plans) && w == WorldOf(plans, w.traps, services) && n in plans
    requires Proper(w) && Runs(w, states, turns) && s == states[|turns|] && Complete(s) && s.failed == {}
    ensures (exists t :: t in Written(plans[n], services, n) && Denotes(t).Some? &&
                         Denotes(t).value in Given(w, s, n)) <==>
            (exists t :: t in Written(plans[n], services, n) && Misread(w, n, t))
  {
    forall t | t in Written(plans[n], services, n) && Denotes(t).Some?
      ensures Denotes(t).value in Given(w, s, n) <==> Misread(w, n, t)
    {
      GivenAreSmallest(w, states, turns, s, n, Denotes(t).value);
      assert t in w.start[n];
    }
  }

  /** So the search hands out the gateway's address when that is the first one and written otherwise. */
  lemma OtherFormCollides(p: Plan, text: string)
    requires ValidSubnet(p.subnet) && Searchable(p.subnet) && p.subnet.size >= 2
    requires p.gateway == Other(text, Some(p.subnet.base + 1))
    ensures Found(p.subnet, Taken(p)) == Denotes(p.gateway)
  {
    assert FirstFree(p.subnet, Taken(p), p.subnet.base) == FirstFree(p.subnet, Taken(p), p.subnet.base + 1);
  }

  /** In 0.0.10.0/24 there is an address left, and none is found. */
  lemma LowNetworkGetsNone(s: Subnet)
    requires s == Subnet(0xA00, 256)
    ensures Canon(0xA01) !in {Canon(s.base)} && In(s, Ip4(0xA01)) && Found(s, {Canon(s.base)}) == None
  {
    assert !Searchable(s);
  }
}
