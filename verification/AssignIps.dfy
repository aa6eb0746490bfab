/** Giving addresses to the services of a project (compose/project.go, AssignIPs). */
module AssignIps {
  import opened Options
  import opened Bits
  import NetworkPool

  const WORD: nat := 0x1_0000_0000

  /** An address as text: in the form in which addresses are printed, or in any other
      form, with the IPv4 address it denotes if it denotes one. */
  datatype Text = Canon(addr: nat) | Other(text: string, denotes: Option<nat>)

  function Denotes(t: Text): Option<nat> { match t case Canon(a) => Some(a) case Other(_, d) => d }

  /** An address in the search. Adding one goes through a number without leading zero
      bytes, so that below 1.0.0.0, as past the last address, the result is no IPv4
      address any more. */
  datatype Ip = Ip4(addr: nat) | Malformed

  function Increase(a: nat): Ip {
    if a + 1 < 0x100_0000 || a + 1 >= WORD then Malformed else Ip4(a + 1)
  }

  /** A parsed subnet: its first address and its size. */
  datatype Subnet = Subnet(base: nat, size: nat)

  predicate In(s: Subnet, ip: Ip) { ip.Ip4? && s.base <= ip.addr < s.base + s.size }

  predicate ValidSubnet(s: Subnet) { s.size > 0 && s.base + s.size <= WORD }

  lemma ModAtMost(a: nat, p: nat)
    requires p > 0
    ensures a % p <= a
  {
    if a < p {
      DivUnique(a, p, 0, a);
    }
  }

  function Masked(ip: nat, ones: nat): Subnet
    requires ones <= 32
  {
    var size := Pow2(32 - ones);
    ModAtMost(ip, size);
    Subnet(ip - ip % size, size)
  }

  // The search.

  /** The first free address from `a` on. */
  function FirstFree(s: Subnet, used: set<Text>, a: nat): (r: Option<nat>)
    requires a <= s.base + s.size
    ensures r.Some? ==> a <= r.value < s.base + s.size && Canon(r.value) !in used
    ensures r.Some? ==> forall b: nat | a <= b < r.value :: Canon(b) in used
    ensures r.None? ==> forall b: nat | a <= b < s.base + s.size :: Canon(b) in used
    decreases s.base + s.size - a
  {
    if a == s.base + s.size then None
    else if Canon(a) in used then FirstFree(s, used, a + 1)
    else Some(a)
  }

  /** The search gets past the network address. */
  predicate Searchable(s: Subnet) { s.base + 1 >= 0x100_0000 }

  /** The address that the search ends with. */
  function Found(s: Subnet, used: set<Text>): Option<nat>
    requires s.size > 0
  {
    if Canon(s.base) in used && !Searchable(s) then None else FirstFree(s, used, s.base)
  }

  /** The loop under the mutex. */
  method Search(s: Subnet, used: set<Text>) returns (r: Option<nat>)
    requires ValidSubnet(s)
    ensures r == Found(s, used)
  {
    var ip := Ip4(s.base);
    var taken := Canon(s.base) in used;
    while In(s, ip) && taken
      invariant ip.Ip4? ==> s.base <= ip.addr <= s.base + s.size && (taken <==> Canon(ip.addr) in used)
      invariant ip.Ip4? && ip.addr > s.base ==> Searchable(s)
      invariant ip.Ip4? ==> FirstFree(s, used, s.base) == FirstFree(s, used, ip.addr)
      invariant ip.Malformed? ==> Found(s, used) == None
      decreases if ip.Ip4? then s.base + s.size + 1 - ip.addr else 0
    {
      ip := Increase(ip.addr);
      taken := ip.Ip4? && Canon(ip.addr) in used;
    }
    if !In(s, ip) {
      return None;
    }
    return Some(ip.addr);
  }

  // The project.

  datatype SubnetText = Cidr(ip: nat, ones: nat) | Unparsable

  /** One IPAM entry; an empty field is missing. */
  datatype Config = Config(subnet: Option<SubnetText>, gateway: Option<Text>)

  datatype Network = Network(external: bool, ipam: seq<Config>)

  /** The networks of a service, with the static address if it has one there. */
  datatype Service = Service(networks: map<string, Option<Text>>)

  predicate ValidText(t: Text) { Denotes(t).Some? ==> Denotes(t).value < WORD }

  predicate ValidConfig(c: Config) {
    && (c.subnet.Some? && c.subnet.value.Cidr? ==> c.subnet.value.ip < WORD && c.subnet.value.ones <= 32)
    && (c.gateway.Some? ==> ValidText(c.gateway.value))
  }

  predicate ValidNetwork(n: Network) { forall k | 0 <= k < |n.ipam| :: ValidConfig(n.ipam[k]) }

  /** In each field the last entry that has it counts. */
  function Merged(ipam: seq<Config>): (c: Config)
    requires |ipam| > 0
    ensures (forall k | 0 <= k < |ipam| :: ValidConfig(ipam[k])) ==> ValidConfig(c)
  {
    var c := ipam[|ipam| - 1];
    if |ipam| == 1 then c
    else
      var m := Merged(ipam[..|ipam| - 1]);
      Config(if c.subnet.Some? then c.subnet else m.subnet, if c.gateway.Some? then c.gateway else m.gateway)
  }

  /** The subnet of the last entry that has one, or none if none has. */
  predicate LastSubnet(ipam: seq<Config>, s: Option<SubnetText>) {
    if s.None? then forall k | 0 <= k < |ipam| :: ipam[k].subnet.None?
    else exists k | 0 <= k < |ipam| :: ipam[k].subnet == s && forall j | k < j < |ipam| :: ipam[j].subnet.None?
  }

  predicate LastGateway(ipam: seq<Config>, g: Option<Text>) {
    if g.None? then forall k | 0 <= k < |ipam| :: ipam[k].gateway.None?
    else exists k | 0 <= k < |ipam| :: ipam[k].gateway == g && forall j | k < j < |ipam| :: ipam[j].gateway.None?
  }

  lemma LastMore(ipam: seq<Config>, c: Config, s: Option<SubnetText>, g: Option<Text>)
    requires LastSubnet(ipam, s) && LastGateway(ipam, g)
    ensures LastSubnet(ipam + [c], if c.subnet.Some? then c.subnet else s)
    ensures LastGateway(ipam + [c], if c.gateway.Some? then c.gateway else g)
  {
    var all := ipam + [c];
    assert all[|ipam|] == c;
    if c.subnet.None? && s.Some? {
      var k :| 0 <= k < |ipam| && ipam[k].subnet == s && forall j | k < j < |ipam| :: ipam[j].subnet.None?;
      assert all[k].subnet == s;
    }
    if c.gateway.None? && g.Some? {
      var k :| 0 <= k < |ipam| && ipam[k].gateway == g && forall j | k < j < |ipam| :: ipam[j].gateway.None?;
      assert all[k].gateway == g;
    }
  }

  lemma {:induction false} MergedIsLast(ipam: seq<Config>)
    requires |ipam| > 0
    ensures LastSubnet(ipam, Merged(ipam).subnet) && LastGateway(ipam, Merged(ipam).gateway)
    decreases |ipam|
  {
    var n := |ipam| - 1;
    assert ipam == ipam[..n] + [ipam[n]];
    if n > 0 {
      MergedIsLast(ipam[..n]);
      var m := Merged(ipam[..n]);
      LastMore(ipam[..n], ipam[n], m.subnet, m.gateway);
    }
  }

  method Merge(ipam: seq<Config>) returns (c: Config)
    requires |ipam| > 0
    ensures c == Merged(ipam)
    ensures LastSubnet(ipam, c.subnet) && LastGateway(ipam, c.gateway)
  {
    MergedIsLast(ipam);
    c := ipam[0];
    var k := 1;
    while k < |ipam|
      invariant 1 <= k <= |ipam|
      invariant c == Merged(ipam[..k])
    {
      assert ipam[..k + 1][..k] == ipam[..k];
      var config := ipam[k];
      if config.subnet.Some? {
        c := c.(subnet := config.subnet);
      }
      if config.gateway.Some? {
        c := c.(gateway := config.gateway);
      }
      k := k + 1;
    }
    assert ipam[..k] == ipam;
  }

  /** A network that is set up: its subnet, its gateway, and the addresses in use from
      the start. */
  datatype Plan = Plan(subnet: Subnet, gateway: Text)

  function Taken(p: Plan): set<Text> { {p.gateway, Canon(p.subnet.base)} }

  predicate Skipped(n: Network) { n.external || n.ipam == [] }

  /** The plan of a network, if its configuration holds up. */
  function PlanOf(n: Network): Option<Plan>
    requires ValidNetwork(n) && !Skipped(n)
  {
    var c := Merged(n.ipam);
    if c.subnet.None? || c.subnet.value.Unparsable? then None
    else
      var s := Masked(c.subnet.value.ip, c.subnet.value.ones);
      var g := if c.gateway.Some? then c.gateway.value else Canon(c.subnet.value.ip);
      if c.gateway.Some? && (Denotes(g).None? || !In(s, Ip4(Denotes(g).value))) then None else Some(Plan(s, g))
  }

  lemma BlockFits(ip: nat, p: nat, q: nat)
    requires p > 0 && ip < p * q
    ensures ip - ip % p + p <= p * q
  {
    NetworkPool.BelowProduct(ip, p, q);
    var t := ip / p;
    assert ip == p * t + ip % p;
    MulMono(p, t + 1, q);
    assert p * (t + 1) == p * t + p;
  }

  lemma BlockIs(ip: nat, p: nat, a: nat)
    requires p > 0
    ensures ip - ip % p <= a < ip - ip % p + p <==> a / p == ip / p
  {
    var t, u := ip / p, a / p;
    assert ip == p * t + ip % p && a == p * u + a % p;
    if u < t {
      Apart(p, u, t);
    } else if t < u {
      Apart(p, t, u);
    }
  }

  /** The interval is the block that the mask gives. */
  lemma MaskedIsBlock(ip: nat, ones: nat)
    requires ip < WORD && ones <= 32
    ensures ValidSubnet(Masked(ip, ones)) && In(Masked(ip, ones), Ip4(ip))
    ensures forall a: nat :: In(Masked(ip, ones), Ip4(a)) <==> NetworkPool.SameBlock(a, ip, 32 - ones)
  {
    Pow2Add(32 - ones, ones);
    NetworkPool.Pow2Word();
    BlockFits(ip, Pow2(32 - ones), Pow2(ones));
    forall a: nat ensures In(Masked(ip, ones), Ip4(a)) <==> NetworkPool.SameBlock(a, ip, 32 - ones) {
      BlockIs(ip, Pow2(32 - ones), a);
    }
  }

  /** In a plan the gateway and the network address lie in the subnet. */
  lemma PlanHolds(n: Network, p: Plan)
    requires ValidNetwork(n) && !Skipped(n) && PlanOf(n) == Some(p)
    ensures ValidSubnet(p.subnet) && Denotes(p.gateway).Some? && In(p.subnet, Ip4(Denotes(p.gateway).value))
    ensures In(p.subnet, Ip4(p.subnet.base))
  {
    var c := Merged(n.ipam).subnet.value;
    MaskedIsBlock(c.ip, c.ones);
  }

  lemma LastIsOne(ipam: seq<Config>, s: Option<SubnetText>, t: Option<SubnetText>, g: Option<Text>, h: Option<Text>)
    ensures LastSubnet(ipam, s) && LastSubnet(ipam, t) ==> s == t
    ensures LastGateway(ipam, g) && LastGateway(ipam, h) ==> g == h
  {
  }

  /** A network with the last subnet s and the last gateway g has a plan exactly when s parses
      and g, if given, is an address of the block of s. The plan is for that block, with the
      gateway as given, or else the address that is written in s. */
  predicate PlanFits(s: Option<SubnetText>, g: Option<Text>, p: Option<Plan>) {
    && (p.Some? <==> FitsTogether(s, g))
    && (p.Some? ==> BlockOf(s.value.ip, s.value.ones, p.value.subnet) &&
                    p.value.gateway == if g.Some? then g.value else Canon(s.value.ip))
  }

  predicate FitsTogether(s: Option<SubnetText>, g: Option<Text>) {
    s.Some? && s.value.Cidr? && s.value.ones <= 32 &&
    (g.Some? ==> Denotes(g.value).Some? &&
                 NetworkPool.SameBlock(Denotes(g.value).value, s.value.ip, 32 - s.value.ones))
  }

  /** The last subnet and the last gateway that a network is given fit together. */
  ghost predicate WellConfigured(n: Network) {
    exists s, g :: LastSubnet(n.ipam, s) && LastGateway(n.ipam, g) && FitsTogether(s, g)
  }

  lemma PlannedExactly(n: Network)
    requires ValidNetwork(n) && !Skipped(n)
    ensures PlanOf(n).Some? <==> WellConfigured(n)
  {
    var c := Merged(n.ipam);
    MergedIsLast(n.ipam);
    PlanExactly(n, c.subnet, c.gateway);
    if s, g :| LastSubnet(n.ipam, s) && LastGateway(n.ipam, g) && FitsTogether(s, g) {
      LastIsOne(n.ipam, s, c.subnet, g, c.gateway);
    }
  }

  /** The interval is the block, from its first address on. */
  predicate BlockOf(ip: nat, ones: nat, subnet: Subnet)
    requires ones <= 32
  {
    subnet.size == Pow2(32 - ones) && subnet.base % Pow2(32 - ones) == 0 &&
    NetworkPool.SameBlock(subnet.base, ip, 32 - ones)
  }

  lemma PlanExactly(n: Network, s: Option<SubnetText>, g: Option<Text>)
    requires ValidNetwork(n) && !Skipped(n) && LastSubnet(n.ipam, s) && LastGateway(n.ipam, g)
    ensures PlanFits(s, g, PlanOf(n))
  {
    var c := Merged(n.ipam);
    MergedIsLast(n.ipam);
    LastIsOne(n.ipam, s, c.subnet, g, c.gateway);
    if s.Some? && s.value.Cidr? {
      MaskedIsBlock(s.value.ip, s.value.ones);
      MaskedStarts(s.value.ip, s.value.ones);
    }
  }

  lemma MaskedStarts(ip: nat, ones: nat)
    requires ip < WORD && ones <= 32
    ensures BlockOf(ip, ones, Masked(ip, ones))
  {
    RoundDown(ip, Pow2(32 - ones));
  }

  // Marking what is in use.

  datatype Outcome = Done | Fails | Panics

  predicate ValidNetworks(networks: map<string, Network>) { forall n | n in networks :: ValidNetwork(networks[n]) }

  /** The networks that get plans. */
  function Planned(networks: map<string, Network>): set<string> {
    set n | n in networks && !Skipped(networks[n])
  }

  predicate AllPlanned(networks: map<string, Network>)
    requires ValidNetworks(networks)
  {
    forall n | n in networks && !Skipped(networks[n]) :: PlanOf(networks[n]).Some?
  }

  /** The plans are those of the networks. */
  predicate PlansFor(networks: map<string, Network>, plans: map<string, Plan>)
    requires ValidNetworks(networks)
  {
    plans.Keys == Planned(networks) && forall n | n in plans :: PlanOf(networks[n]) == Some(plans[n])
  }

  /** Can the service's entry for network n be taken over? A static address needs an
      IPAM configuration, and writing it down needs the network's map. */
  function EntryOutcome(networks: map<string, Network>, n: string, fixed: Option<Text>): Outcome {
    if n !in networks then Fails
    else if fixed.None? then Done
    else if networks[n].ipam == [] then Fails
    else if networks[n].external then Panics
    else Done
  }

  /** The static address of a service on network n. */
  function Own(service: Service, n: string): set<Text> {
    if n in service.networks && service.networks[n].Some? then {service.networks[n].value} else {}
  }

  /** The static addresses of the services on network n. */
  function Statics(services: seq<Service>, n: string): set<Text> {
    set i | 0 <= i < |services| && n in services[i].networks && services[i].networks[n].Some? ::
      services[i].networks[n].value
  }

  lemma OneMoreStatic(services: seq<Service>, k: nat, n: string)
    requires k < |services|
    ensures Statics(services[..k + 1], n) == Statics(services[..k], n) + Own(services[k], n)
  {
    var now, next := services[..k], services[..k + 1];
    forall t | t in Statics(now, n) ensures t in Statics(next, n) {
      var i :| 0 <= i < |now| && n in now[i].networks && now[i].networks[n] == Some(t);
      assert next[i] == now[i];
    }
    if Own(services[k], n) != {} {
      assert next[k] == services[k];
    }
  }

  predicate EntriesHold(networks: map<string, Network>, services: seq<Service>, k: nat)
    requires k <= |services|
  {
    forall i, n | 0 <= i < k && n in services[i].networks :: EntryOutcome(networks, n, services[i].networks[n]).Done?
  }

  method MakePlan(network: Network) returns (p: Option<Plan>)
    requires ValidNetwork(network) && !Skipped(network)
    ensures p == PlanOf(network)
    ensures forall s, g | LastSubnet(network.ipam, s) && LastGateway(network.ipam, g) :: PlanFits(s, g, p)
  {
    forall s, g | LastSubnet(network.ipam, s) && LastGateway(network.ipam, g) ensures PlanFits(s, g, PlanOf(network)) {
      PlanExactly(network, s, g);
    }
    var config := Merge(network.ipam);
    if config.subnet.None? || config.subnet.value.Unparsable? {
      return None;
    }
    var subnet := Masked(config.subnet.value.ip, config.subnet.value.ones);
    var gateway := Canon(config.subnet.value.ip);
    if config.gateway.Some? {
      gateway := config.gateway.value;
      if Denotes(gateway).None? || !In(subnet, Ip4(Denotes(gateway).value)) {
        return None;
      }
    }
    return Some(Plan(subnet, gateway));
  }

  class Marks {
    var used: map<string, set<Text>>
    var plans: map<string, Plan>

    constructor ()
      ensures used == map[] && plans == map[]
    {
      used, plans := map[], map[];
    }

    method MarkNetworks(networks: map<string, Network>) returns (ok: bool)
      requires ValidNetworks(networks) && used == map[] && plans == map[]
      modifies this
      ensures ok <==> AllPlanned(networks)
      ensures ok ==> PlansFor(networks, plans) && used.Keys == plans.Keys
      ensures ok ==> forall n | n in plans :: used[n] == Taken(plans[n])
    {
      var rest := networks.Keys;
      while rest != {}
        invariant rest <= networks.Keys
        invariant plans.Keys == used.Keys == set n | n in networks && n !in rest && !Skipped(networks[n])
        invariant forall n | n in plans :: Some(plans[n]) == PlanOf(networks[n]) && used[n] == Taken(plans[n])
        decreases rest
      {
        var i :| i in rest;
        rest := rest - {i};
        if !Skipped(networks[i]) {
          var p := MakePlan(networks[i]);
          if p.None? {
            return false;
          }
          used := used[i := Taken(p.value)];
          plans := plans[i := p.value];
        }
      }
      return true;
    }

    /** Entries of one service; the networks come in any order. */
    method MarkService(networks: map<string, Network>, service: Service) returns (r: Outcome)
      requires used.Keys == Planned(networks)
      modifies this`used
      ensures r.Done? <==> forall n | n in service.networks :: EntryOutcome(networks, n, service.networks[n]).Done?
      ensures !r.Done? ==> exists n | n in service.networks :: EntryOutcome(networks, n, service.networks[n]) == r
      ensures used.Keys == old(used.Keys)
      ensures r.Done? ==> forall n | n in used :: used[n] == old(used)[n] + Own(service, n)
    {
      var rest := service.networks.Keys;
      while rest != {}
        invariant rest <= service.networks.Keys && used.Keys == old(used.Keys)
        invariant forall n | n in service.networks && n !in rest :: EntryOutcome(networks, n, service.networks[n]).Done?
        invariant forall n | n in used :: used[n] == old(used)[n] + if n in rest then {} else Own(service, n)
        decreases rest
      {
        var n :| n in rest;
        rest := rest - {n};
        var fixed := service.networks[n];
        if n !in networks {
          return Fails;
        }
        if fixed.Some? {
          if networks[n].ipam == [] {
            return Fails;
          }
          if n !in used {
            return Panics;
          }
          used := used[n := used[n] + {fixed.value}];
        }
      }
      return Done;
    }

    method MarkStatics(networks: map<string, Network>, services: seq<Service>) returns (r: Outcome)
      requires used.Keys == Planned(networks)
      modifies this`used
      ensures r.Done? <==> EntriesHold(networks, services, |services|)
      ensures used.Keys == old(used.Keys)
      ensures r.Done? ==> forall n | n in used :: used[n] == old(used)[n] + Statics(services, n)
    {
      var k := 0;
      while k < |services|
        invariant 0 <= k <= |services| && used.Keys == old(used.Keys)
        invariant EntriesHold(networks, services, k)
        invariant forall n | n in used :: used[n] == old(used)[n] + Statics(services[..k], n)
      {
        r := MarkService(networks, services[k]);
        if !r.Done? {
          return;
        }
        forall n | n in used ensures Statics(services[..k + 1], n) == Statics(services[..k], n) + Own(services[k], n) {
          OneMoreStatic(services, k, n);
        }
        k := k + 1;
      }
      assert services[..k] == services;
      return Done;
    }

    /** The critical section of a worker: search, then mark before letting go. */
    method Assign(n: string, subnet: Subnet) returns (r: Option<nat>)
      requires n in used && ValidSubnet(subnet)
      modifies this`used
      ensures r == Found(subnet, old(used)[n])
      ensures used == if r.Some? then old(used)[n := old(used)[n] + {Canon(r.value)}] else old(used)
    {
      r := Search(subnet, used[n]);
      if r.Some? {
        used := used[n := used[n] + {Canon(r.value)}];
      }
    }
  }
}
