/** Ordering services by their dependencies (compose/project.go,
    ServicesOrderedByDependencies and ServicesReversedByDependencies): a depth-first
    walk that lists a service after everything it leads to. */
module ServiceOrder {
  /** For each service the services it names, and whether the edge is required. */
  type Graph = map<string, map<string, bool>>

  /** What both walks run on: the edges to follow, the services asked for, and whether
      the walk may leave them. */
  datatype Walk = Walk(next: Graph, scope: set<string>, expand: bool)

  /** A required edge that the walk follows. */
  predicate Follows(w: Walk, s: string, t: string) {
    s in w.next && t in w.next[s] && w.next[s][t] && (t in w.scope || w.expand)
  }

  predicate Edge(w: Walk, s: string, t: string) { Follows(w, s, t) && t in w.next }

  /** The names that the walk follows to no service of the project. Looking such a name up
      gives an empty service, whose name is empty, too. */
  function Missing(w: Walk, s: string): set<string> {
    if s in w.next then set t | t in w.next[s] && Follows(w, s, t) && t !in w.next else {}
  }

  /** Nothing is called by the empty name. */
  predicate NamesAll(g: Graph) { "" !in g && forall s | s in g :: "" !in g[s] }

  predicate Sound(w: Walk) { w.scope <= w.next.Keys && NamesAll(w.next) }

  // Paths.

  ghost predicate IsPath(w: Walk, s: string, p: seq<string>)
    decreases |p|
  {
    p != [] && Edge(w, s, p[0]) && (|p| == 1 || IsPath(w, p[0], p[1..]))
  }

  ghost predicate Path(w: Walk, s: string, p: seq<string>, t: string) { IsPath(w, s, p) && p[|p| - 1] == t }

  /** t is reached from s by one or more edges. */
  ghost predicate Reach(w: Walk, s: string, t: string) { exists p :: Path(w, s, p, t) }

  lemma {:induction false} PathConcat(w: Walk, s: string, p: seq<string>, t: string, q: seq<string>, u: string)
    requires Path(w, s, p, t) && Path(w, t, q, u)
    ensures Path(w, s, p + q, u)
    decreases |p|
  {
    if |p| == 1 {
      assert (p + q)[1..] == q;
    } else {
      assert (p + q)[1..] == p[1..] + q;
      PathConcat(w, p[0], p[1..], t, q, u);
    }
  }

  lemma ReachTrans(w: Walk, s: string, t: string, u: string)
    requires Reach(w, s, t) && Reach(w, t, u)
    ensures Reach(w, s, u)
  {
    var p :| Path(w, s, p, t);
    var q :| Path(w, t, q, u);
    PathConcat(w, s, p, t, q, u);
  }

  lemma EdgeReaches(w: Walk, s: string, t: string)
    requires Edge(w, s, t)
    ensures Reach(w, s, t)
  {
    assert Path(w, s, [t], t);
  }

  // The walk.

  function Elems(s: seq<string>): set<string> { set x | x in s }

  ghost predicate NoRepeat(s: seq<string>) { forall i, j | 0 <= i < j < |s| :: s[i] != s[j] }

  /** An edge of a listed service leads to a service listed before it, or it closes a
      cycle. */
  ghost predicate Settled(w: Walk, added: set<string>, ordered: seq<string>) {
    forall k, t {:trigger Edge(w, ordered[k], t)} | 0 <= k < |ordered| && Edge(w, ordered[k], t) ::
      t in added && (t in ordered[..k] || Reach(w, t, ordered[k]))
  }

  /** Added are the listed services and those under way. */
  ghost predicate Tidy(w: Walk, added: set<string>, ordered: seq<string>, open: set<string>) {
    && NoRepeat(ordered)
    && added == open + Elems(ordered)
    && open !! Elems(ordered)
    && added <= w.next.Keys
    && Settled(w, added, ordered)
  }

  lemma FinishKeeps(w: Walk, added: set<string>, ordered: seq<string>, open: set<string>, s: string)
    requires Tidy(w, added, ordered, open + {s}) && s !in open
    requires forall t | Edge(w, s, t) :: t in added
    requires forall g | g in open :: Reach(w, g, s)
    ensures Tidy(w, added, ordered + [s], open)
  {
    var more := ordered + [s];
    assert Elems(more) == Elems(ordered) + {s};
    forall k, t | 0 <= k < |more| && Edge(w, more[k], t)
      ensures t in added && (t in more[..k] || Reach(w, t, more[k]))
    {
      if k < |ordered| {
        assert more[..k] == ordered[..k];
      } else {
        assert more[..k] == ordered;
        if t == s {
          EdgeReaches(w, s, s);
        }
      }
    }
  }

  lemma OpenReaches(w: Walk, open: set<string>, s: string, t: string)
    requires Edge(w, s, t) && forall g | g in open :: Reach(w, g, s)
    ensures forall g | g in open + {s} :: Reach(w, g, t)
  {
    EdgeReaches(w, s, t);
    forall g | g in open ensures Reach(w, g, t) { ReachTrans(w, g, s, t); }
  }

  lemma ReachedThrough(w: Walk, s: string, t: string, before: seq<string>, after: seq<string>)
    requires Edge(w, s, t) && forall x | x in after && x !in before :: x == t || Reach(w, t, x)
    ensures forall x | x in after && x !in before :: Reach(w, s, x)
  {
    EdgeReaches(w, s, t);
    forall x | x in after && x !in before ensures Reach(w, s, x) {
      if x != t { ReachTrans(w, s, t, x); }
    }
  }

  // Empty services in the list.

  /** The list without the empty services. */
  function Named(s: seq<string>): (r: seq<string>)
    ensures |r| <= |s| && "" !in r
  {
    if s == [] then []
    else Named(s[..|s| - 1]) + if s[|s| - 1] == "" then [] else [s[|s| - 1]]
  }

  /** How many edges lead from the listed services to none. */
  function Gaps(w: Walk, listed: seq<string>): nat {
    if listed == [] then 0
    else Gaps(w, listed[..|listed| - 1]) + |Missing(w, listed[|listed| - 1])|
  }

  /** `listed` is the list without the empty services, and `excess` is how many of these its
      services do not account for. */
  ghost predicate Tracks(w: Walk, ordered: seq<string>, listed: seq<string>, excess: int)
    decreases |ordered|
  {
    if ordered == [] then listed == [] && excess == 0
    else
      var n := |ordered| - 1;
      if ordered[n] == "" then Tracks(w, ordered[..n], listed, excess - 1)
      else
        listed != [] && listed[|listed| - 1] == ordered[n] &&
        Tracks(w, ordered[..n], listed[..|listed| - 1], excess + |Missing(w, ordered[n])|)
  }

  lemma TracksEmpty(w: Walk, ordered: seq<string>, listed: seq<string>, excess: int)
    requires Tracks(w, ordered, listed, excess)
    ensures Tracks(w, ordered + [""], listed, excess + 1)
  {
    assert (ordered + [""])[..|ordered|] == ordered;
  }

  lemma TracksNamed(w: Walk, ordered: seq<string>, listed: seq<string>, excess: int, x: string)
    requires Tracks(w, ordered, listed, excess) && x != ""
    ensures Tracks(w, ordered + [x], listed + [x], excess - |Missing(w, x)|)
  {
    assert (ordered + [x])[..|ordered|] == ordered && (listed + [x])[..|listed|] == listed;
  }

  lemma NamedSame(s: seq<string>, l: seq<string>)
    requires s != [] && s[|s| - 1] == "" && l == Named(s[..|s| - 1])
    ensures l == Named(s)
  {
  }

  lemma NamedMore(s: seq<string>, l: seq<string>)
    requires s != [] && s[|s| - 1] != "" && l != [] && l[|l| - 1] == s[|s| - 1]
    requires l[..|l| - 1] == Named(s[..|s| - 1])
    ensures l == Named(s)
  {
    var front, last := l[..|l| - 1], l[|l| - 1];
    assert Named(s) == front + [last];
    Rejoin(l, front, last);
  }

  lemma Rejoin(l: seq<string>, front: seq<string>, last: string)
    requires l != [] && front == l[..|l| - 1] && last == l[|l| - 1]
    ensures l == front + [last]
  {
  }

  lemma {:induction false} TracksNames(w: Walk, ordered: seq<string>, listed: seq<string>, excess: int)
    requires Tracks(w, ordered, listed, excess)
    ensures listed == Named(ordered)
    decreases |ordered|
  {
    if ordered != [] {
      var n := |ordered| - 1;
      if ordered[n] == "" {
        TracksNames(w, ordered[..n], listed, excess - 1);
        NamedSame(ordered, listed);
      } else {
        TracksNames(w, ordered[..n], listed[..|listed| - 1], excess + |Missing(w, ordered[n])|);
        NamedMore(ordered, listed);
      }
    }
  }

  lemma {:induction false} TracksCounts(w: Walk, ordered: seq<string>, listed: seq<string>, excess: int)
    requires Tracks(w, ordered, listed, excess)
    ensures |ordered| == |listed| + Gaps(w, listed) + excess
    decreases |ordered|
  {
    if ordered != [] {
      var n := |ordered| - 1;
      if ordered[n] == "" {
        TracksCounts(w, ordered[..n], listed, excess - 1);
      } else {
        TracksCounts(w, ordered[..n], listed[..|listed| - 1], excess + |Missing(w, ordered[n])|);
      }
    }
  }

  lemma TracksMeans(w: Walk, ordered: seq<string>, listed: seq<string>, excess: int)
    requires Tracks(w, ordered, listed, excess)
    ensures listed == Named(ordered) && |ordered| == |listed| + Gaps(w, listed) + excess
  {
    TracksNames(w, ordered, listed, excess);
    TracksCounts(w, ordered, listed, excess);
  }

  /** What was listed since is reached from s. */
  ghost predicate NewFrom(w: Walk, s: string, before: seq<string>, now: seq<string>) {
    before <= now && forall x | x in now && x !in before :: Reach(w, s, x)
  }

  lemma NewFromBoth(w: Walk, s: string, before: seq<string>, mid: seq<string>, now: seq<string>)
    requires NewFrom(w, s, before, mid) && NewFrom(w, s, mid, now)
    ensures NewFrom(w, s, before, now)
  {
  }

  lemma OneLess(missing: set<string>, rest: set<string>, t: string)
    requires t in rest
    ensures |missing - (rest - {t})| == |missing - rest| + if t in missing then 1 else 0
  {
    if t in missing {
      assert missing - (rest - {t}) == missing - rest + {t};
    } else {
      assert missing - (rest - {t}) == missing - rest;
    }
  }

  /** The edges of s have been followed, but for those to the names in `rest`. */
  ghost predicate Handled(w: Walk, s: string, rest: set<string>, known: set<string>) {
    forall t | Edge(w, s, t) && t !in rest :: t in known
  }

  lemma HandledMore(w: Walk, s: string, rest: set<string>, known: set<string>, t: string, more: set<string>)
    requires Handled(w, s, rest, known) && known <= more && (Edge(w, s, t) ==> t in more)
    ensures Handled(w, s, rest - {t}, more)
  {
  }

  class Ordering {
    const w: Walk
    var added: set<string>
    var ordered: seq<string>
    /** The services among the added ones, the list without the empty services, and how many of
        these the listed services do not account for. */
    ghost var known: set<string>
    ghost var listed: seq<string>
    ghost var excess: int

    constructor (w: Walk)
      ensures this.w == w && Valid() && known == {} && listed == [] && excess == 0
    {
      this.w, added, ordered, known, listed, excess := w, {}, [], {}, [], 0;
    }

    ghost predicate Valid()
      reads this
    {
      known == added - {""} && Tracks(w, ordered, listed, excess)
    }

    ghost predicate Tidied(open: set<string>)
      reads this
    {
      Tidy(w, known, listed, open)
    }

    /** The recursive closure. `open` are the services whose calls are under way. */
    method Add(service: string, ghost open: set<string>)
      requires Valid() && Sound(w) && Tidied(open) && service in w.next && service !in known
      requires forall g | g in open :: Reach(w, g, service)
      modifies this
      ensures Valid() && Tidied(open) && excess == old(excess)
      ensures old(known) <= known && old(listed) <= listed && service in listed
      ensures forall x | x in listed && x !in old(listed) :: x == service || Reach(w, service, x)
      decreases w.next.Keys - known, 0
    {
      Mark(service);
      VisitAll(service, open);
      FinishKeeps(w, known, listed, open, service);
      Append(service);
    }

    /** The loop over the dependencies, in any order. */
    method VisitAll(service: string, ghost open: set<string>)
      requires Valid() && Sound(w) && Tidied(open + {service}) && service in known && service in w.next
      requires forall g | g in open :: Reach(w, g, service)
      modifies this
      ensures Valid() && Tidied(open + {service}) && excess == old(excess) + |Missing(w, service)|
      ensures old(known) <= known && Handled(w, service, {}, known) && NewFrom(w, service, old(listed), listed)
      decreases w.next.Keys - known, 2
    {
      ghost var missing := Missing(w, service);
      var rest := w.next[service].Keys;
      assert missing - rest == {};
      while rest != {}
        invariant rest <= w.next[service].Keys
        invariant Valid() && Tidied(open + {service})
        invariant excess == old(excess) + |missing - rest|
        invariant old(known) <= known && Handled(w, service, rest, known) && NewFrom(w, service, old(listed), listed)
        decreases rest
      {
        var name :| name in rest;
        ghost var before, mid := known, listed;
        Visit(service, name, open);
        HandledMore(w, service, rest, before, name, known);
        NewFromBoth(w, service, old(listed), mid, listed);
        OneLess(missing, rest, name);
        rest := rest - {name};
      }
      assert missing - {} == missing;
    }

    method Mark(service: string)
      requires Valid() && service != ""
      modifies this`added, this`known
      ensures Valid() && known == old(known) + {service}
    {
      added := added + {service};
      known := known + {service};
    }

    /** One dependency of a service. */
    method Visit(service: string, name: string, ghost open: set<string>)
      requires Valid() && Sound(w) && Tidied(open + {service}) && service in known && service in w.next
      requires name in w.next[service] && forall g | g in open :: Reach(w, g, service)
      modifies this
      ensures Valid() && Tidied(open + {service})
      ensures excess == old(excess) + if name in Missing(w, service) then 1 else 0
      ensures old(known) <= known && (Edge(w, service, name) ==> name in known)
      ensures NewFrom(w, service, old(listed), listed)
      decreases w.next.Keys - known, 1
    {
      if name !in w.scope && !w.expand {
        return;
      }
      if name !in added && w.next[service][name] {
        if name in w.next {
          OpenReaches(w, open, service, name);
          ghost var before := listed;
          Add(name, open + {service});
          ReachedThrough(w, service, name, before, listed);
        } else {
          AddEmpty();
        }
      }
    }

    /** The call for a name that is no service. */
    method AddEmpty()
      requires Valid()
      modifies this`added, this`ordered, this`excess
      ensures Valid() && excess == old(excess) + 1
    {
      added := added + {""};
      TracksEmpty(w, ordered, listed, excess);
      ordered := ordered + [""];
      excess := excess + 1;
    }

    method Append(service: string)
      requires Valid() && service != ""
      modifies this`ordered, this`listed, this`excess
      ensures Valid() && listed == old(listed) + [service] && excess == old(excess) - |Missing(w, service)|
    {
      TracksNamed(w, ordered, listed, excess, service);
      ordered := ordered + [service];
      listed := listed + [service];
      excess := excess - |Missing(w, service)|;
    }

    /** The services are taken in any order. */
    method Run()
      requires Valid() && Sound(w) && known == {} && listed == [] && excess == 0
      modifies this
      ensures Valid() && Tidied({}) && excess == 0
      ensures w.scope <= Elems(listed)
      ensures forall x | x in listed :: FromScope(w, x)
    {
      var rest := w.scope;
      while rest != {}
        invariant rest <= w.scope
        invariant Valid() && Tidied({}) && excess == 0
        invariant w.scope - rest <= known
        invariant forall x | x in listed :: FromScope(w, x)
        decreases rest
      {
        var service :| service in rest;
        rest := rest - {service};
        if service !in added {
          Add(service, {});
        }
      }
    }
  }

  /** x is asked for or reached from a service that is. */
  ghost predicate FromScope(w: Walk, x: string) {
    x in w.scope || exists s :: s in w.scope && Reach(w, s, x)
  }

  /** Every edge of a listed service leads to a service listed before it. */
  ghost predicate InOrder(w: Walk, ordered: seq<string>) {
    forall k, t {:trigger Edge(w, ordered[k], t)} | 0 <= k < |ordered| && Edge(w, ordered[k], t) :: t in ordered[..k]
  }

  ghost predicate Acyclic(w: Walk, nodes: set<string>) { forall x | x in nodes :: !Reach(w, x, x) }

  /** What a finished walk is: each service from the scope once, and nothing else, in
      order if and only if there is no cycle among them. */
  ghost predicate Listing(w: Walk, ordered: seq<string>) {
    && NoRepeat(ordered)
    && (forall x :: x in ordered <==> FromScope(w, x))
    && (InOrder(w, ordered) <==> Acyclic(w, Elems(ordered)))
  }

  lemma {:induction false} PathStays(w: Walk, ordered: seq<string>, s: string, p: seq<string>, t: string)
    requires Settled(w, Elems(ordered), ordered) && s in ordered && Path(w, s, p, t)
    ensures t in ordered
    decreases |p|
  {
    var k :| 0 <= k < |ordered| && ordered[k] == s;
    assert Edge(w, ordered[k], p[0]);
    if |p| > 1 { PathStays(w, ordered, p[0], p[1..], t); }
  }

  lemma {:induction false} PathGoesBack(w: Walk, ordered: seq<string>, k: nat, p: seq<string>, t: string)
    requires InOrder(w, ordered) && k < |ordered| && Path(w, ordered[k], p, t)
    ensures t in ordered[..k]
    decreases |p|
  {
    if |p| > 1 {
      var j :| 0 <= j < k && ordered[j] == p[0];
      PathGoesBack(w, ordered, j, p[1..], t);
      assert t in ordered[..j];
    }
  }

  lemma OrderIsAcyclic(w: Walk, ordered: seq<string>)
    requires NoRepeat(ordered) && Settled(w, Elems(ordered), ordered)
    ensures InOrder(w, ordered) <==> Acyclic(w, Elems(ordered))
  {
    if InOrder(w, ordered) {
      forall x | x in ordered ensures !Reach(w, x, x) {
        if Reach(w, x, x) {
          var k :| 0 <= k < |ordered| && ordered[k] == x;
          var p :| Path(w, x, p, x);
          PathGoesBack(w, ordered, k, p, x);
        }
      }
    }
    if Acyclic(w, Elems(ordered)) {
      forall k, t | 0 <= k < |ordered| && Edge(w, ordered[k], t) ensures t in ordered[..k] {
        assert ordered[k] in Elems(ordered);
        if Reach(w, t, ordered[k]) {
          EdgeReaches(w, ordered[k], t);
          ReachTrans(w, ordered[k], t, ordered[k]);
        }
      }
    }
  }

  lemma WalkIsListing(w: Walk, ordered: seq<string>)
    requires Tidy(w, Elems(ordered), ordered, {}) && w.scope <= Elems(ordered)
    requires forall x | x in ordered :: FromScope(w, x)
    ensures Listing(w, ordered)
  {
    forall x | FromScope(w, x) ensures x in ordered {
      if x !in w.scope {
        var s :| s in w.scope && Reach(w, s, x);
        var p :| Path(w, s, p, x);
        PathStays(w, ordered, s, p, x);
      }
    }
    OrderIsAcyclic(w, ordered);
  }

  // The two functions.

  /** The list with its empty services: one for every edge that leads to no service. */
  ghost predicate FullListing(w: Walk, ordered: seq<string>) {
    Listing(w, Named(ordered)) && |ordered| == |Named(ordered)| + Gaps(w, Named(ordered))
  }

  // The listings in the words of the project.

  /** s needs t: a required dependency on a service that is given, or any if the list may grow. */
  predicate Needs(dependsOn: Graph, services: set<string>, expand: bool, s: string, t: string) {
    && s in dependsOn && t in dependsOn[s] && dependsOn[s][t]
    && t in dependsOn && (t in services || expand)
  }

  /** Each service once: those given, and further ones only where something listed needs them. */
  ghost predicate ListsNeeded(dependsOn: Graph, services: set<string>, expand: bool, listed: seq<string>) {
    && NoRepeat(listed) && (forall x | x in services :: x in listed)
    && (forall s, t | s in listed && Needs(dependsOn, services, expand, s, t) :: t in listed)
    && (forall x | x in listed && x !in services ::
          exists s :: s in listed && Needs(dependsOn, services, expand, s, x))
  }

  /** What a service needs stands before it. */
  ghost predicate NeededFirst(dependsOn: Graph, services: set<string>, expand: bool, listed: seq<string>) {
    forall i, t {:trigger Needs(dependsOn, services, expand, listed[i], t)} |
      0 <= i < |listed| && Needs(dependsOn, services, expand, listed[i], t) :: t in listed[..i]
  }

  /** Nothing that is needed goes round in circles. */
  ghost predicate Ranks(dependsOn: Graph, services: set<string>, expand: bool, rank: map<string, nat>) {
    dependsOn.Keys <= rank.Keys && forall s, t | Needs(dependsOn, services, expand, s, t) :: rank[t] < rank[s]
  }

  lemma NeedsIsEdge(dependsOn: Graph, services: set<string>, expand: bool, s: string, t: string)
    ensures Needs(dependsOn, services, expand, s, t) <==> Edge(Walk(dependsOn, services, expand), s, t)
  {
  }

  lemma {:induction false} PathIn(w: Walk, listed: seq<string>, s: string, p: seq<string>, t: string)
    returns (u: string)
    requires Path(w, s, p, t) && s in listed && (forall x, y | x in listed && Edge(w, x, y) :: y in listed)
    ensures u in listed && Edge(w, u, t)
    decreases |p|
  {
    if |p| == 1 {
      u := s;
    } else {
      u := PathIn(w, listed, p[0], p[1..], t);
    }
  }

  lemma {:induction false} RankFalls(w: Walk, rank: map<string, nat>, s: string, p: seq<string>, t: string)
    requires Path(w, s, p, t) && s in rank
    requires forall x, y | Edge(w, x, y) :: x in rank && y in rank && rank[y] < rank[x]
    ensures t in rank && rank[t] < rank[s]
    decreases |p|
  {
    assert Edge(w, s, p[0]);
    if |p| > 1 {
      RankFalls(w, rank, p[0], p[1..], t);
    }
  }

  lemma EdgesStay(w: Walk, listed: seq<string>, x: string, y: string)
    requires Listing(w, listed) && x in listed && Edge(w, x, y)
    ensures y in listed
  {
    EdgeReaches(w, x, y);
    assert FromScope(w, x);
    if x in w.scope {
      assert FromScope(w, y);
    } else {
      var s :| s in w.scope && Reach(w, s, x);
      ReachTrans(w, s, x, y);
      assert FromScope(w, y);
    }
  }

  lemma ListingIsNeeded(dependsOn: Graph, services: set<string>, expand: bool, listed: seq<string>)
    requires Listing(Walk(dependsOn, services, expand), listed)
    ensures ListsNeeded(dependsOn, services, expand, listed)
  {
    var w := Walk(dependsOn, services, expand);
    forall x | x in services ensures x in listed {
      assert FromScope(w, x);
    }
    forall s, t | s in listed && Edge(w, s, t) ensures t in listed {
      EdgesStay(w, listed, s, t);
    }
    forall s, t | s in listed && Needs(dependsOn, services, expand, s, t) ensures t in listed {
      NeedsIsEdge(dependsOn, services, expand, s, t);
    }
    forall x | x in listed && x !in services
      ensures exists s :: s in listed && Needs(dependsOn, services, expand, s, x)
    {
      assert FromScope(w, x);
      var s :| s in w.scope && Reach(w, s, x);
      var p :| Path(w, s, p, x);
      var u := PathIn(w, listed, s, p, x);
      NeedsIsEdge(dependsOn, services, expand, u, x);
    }
  }

  lemma RankedIsInOrder(
      dependsOn: Graph, services: set<string>, expand: bool, listed: seq<string>, rank: map<string, nat>)
    requires Listing(Walk(dependsOn, services, expand), listed) && Ranks(dependsOn, services, expand, rank)
    ensures NeededFirst(dependsOn, services, expand, listed)
  {
    var w := Walk(dependsOn, services, expand);
    forall x, y | Edge(w, x, y) ensures x in rank && y in rank && rank[y] < rank[x] {
      NeedsIsEdge(dependsOn, services, expand, x, y);
    }
    forall x | x in Elems(listed) ensures !Reach(w, x, x) {
      if Reach(w, x, x) {
        var p :| Path(w, x, p, x);
        assert Edge(w, x, p[0]);
        RankFalls(w, rank, x, p, x);
      }
    }
    assert InOrder(w, listed);
    forall i, t | 0 <= i < |listed| && Needs(dependsOn, services, expand, listed[i], t) ensures t in listed[..i] {
      NeedsIsEdge(dependsOn, services, expand, listed[i], t);
    }
  }

  method ServicesOrderedByDependencies(dependsOn: Graph, services: set<string>, expand: bool)
    returns (ordered: seq<string>)
    requires services <= dependsOn.Keys && NamesAll(dependsOn)
    ensures FullListing(Walk(dependsOn, services, expand), ordered)
    ensures !expand ==> Elems(Named(ordered)) == services
    ensures ListsNeeded(dependsOn, services, expand, Named(ordered))
    ensures (exists rank :: Ranks(dependsOn, services, expand, rank)) ==>
              NeededFirst(dependsOn, services, expand, Named(ordered))
  {
    var walk := new Ordering(Walk(dependsOn, services, expand));
    walk.Run();
    ordered := walk.ordered;
    TracksMeans(walk.w, ordered, walk.listed, 0);
    WalkIsListing(walk.w, Named(ordered));
    ListingIsNeeded(dependsOn, services, expand, Named(ordered));
    if rank :| Ranks(dependsOn, services, expand, rank) {
      RankedIsInOrder(dependsOn, services, expand, Named(ordered), rank);
    }
    if !expand {
      StaysInScope(walk.w, Named(ordered));
    }
  }

  /** Who names the service: the inverse of the relation. */
  function Dependents(dependsOn: Graph, s: string): map<string, bool> {
    map t | t in dependsOn && s in dependsOn[t] :: dependsOn[t][s]
  }

  function Inverse(dependsOn: Graph): Graph { map s | s in dependsOn :: Dependents(dependsOn, s) }

  lemma InverseIs(dependsOn: Graph, scope: set<string>, expand: bool, s: string, t: string)
    ensures Edge(Walk(Inverse(dependsOn), scope, expand), s, t) <==>
            s in dependsOn && t in dependsOn && s in dependsOn[t] && dependsOn[t][s] && (t in scope || expand)
  {
  }

  method ServicesReversedByDependencies(dependsOn: Graph, services: set<string>, expand: bool)
    returns (ordered: seq<string>)
    requires services <= dependsOn.Keys && NamesAll(dependsOn)
    ensures Listing(Walk(Inverse(dependsOn), services, expand), ordered)
    ensures !expand ==> Elems(ordered) == services
    ensures ListsNeeded(Inverse(dependsOn), services, expand, ordered)
    ensures (exists rank :: Ranks(Inverse(dependsOn), services, expand, rank)) ==>
              NeededFirst(Inverse(dependsOn), services, expand, ordered)
  {
    var w := Walk(Inverse(dependsOn), services, expand);
    var walk := new Ordering(w);
    walk.Run();
    ordered := walk.ordered;
    TracksMeans(walk.w, ordered, walk.listed, 0);
    NoGapsBack(dependsOn, w, Named(ordered));
    NamedAll(ordered);
    WalkIsListing(walk.w, ordered);
    ListingIsNeeded(Inverse(dependsOn), services, expand, ordered);
    if rank :| Ranks(Inverse(dependsOn), services, expand, rank) {
      RankedIsInOrder(Inverse(dependsOn), services, expand, ordered, rank);
    }
    if !expand {
      StaysInScope(walk.w, ordered);
    }
  }

  /** Whoever depends on a service is one. */
  lemma {:induction false} NoGapsBack(dependsOn: Graph, w: Walk, listed: seq<string>)
    requires w == Walk(Inverse(dependsOn), w.scope, w.expand)
    ensures Gaps(w, listed) == 0
    decreases |listed|
  {
    if listed != [] {
      NoGapsBack(dependsOn, w, listed[..|listed| - 1]);
      assert Missing(w, listed[|listed| - 1]) == {};
    }
  }

  lemma {:induction false} NamedAll(s: seq<string>)
    requires |Named(s)| == |s|
    ensures Named(s) == s
    decreases |s|
  {
    if s != [] {
      NamedAll(s[..|s| - 1]);
    }
  }

  lemma {:induction false} PathInScope(w: Walk, s: string, p: seq<string>, t: string)
    requires !w.expand && Path(w, s, p, t)
    ensures t in w.scope
    decreases |p|
  {
    if |p| > 1 { PathInScope(w, p[0], p[1..], t); }
  }

  /** A walk that may not expand lists exactly the services it was given. */
  lemma StaysInScope(w: Walk, ordered: seq<string>)
    requires !w.expand && Listing(w, ordered)
    ensures Elems(ordered) == w.scope
  {
    forall x | x in ordered ensures x in w.scope {
      assert FromScope(w, x);
      if x !in w.scope {
        var s :| s in w.scope && Reach(w, s, x);
        var p :| Path(w, s, p, x);
        PathInScope(w, s, p, x);
      }
    }
    forall x | x in w.scope ensures x in ordered { assert FromScope(w, x); }
  }

  // What the callers rely on.

  /** Without cycles every required dependency that is listed, and in scope, comes
      before its dependant. */
  lemma DependenciesFirst(
      dependsOn: Graph, services: set<string>, expand: bool, ordered: seq<string>, i: nat, d: string)
    requires var w := Walk(dependsOn, services, expand);
             FullListing(w, ordered) && Acyclic(w, Elems(Named(ordered)))
    requires var listed := Named(ordered);
             i < |listed| && Edge(Walk(dependsOn, services, expand), listed[i], d)
    ensures exists j :: 0 <= j < i && Named(ordered)[j] == d
  {
    assert d in Named(ordered)[..i];
  }

  /** An edge to a name that is no service puts an empty service into the list. */
  lemma MissingShowsUp(w: Walk, ordered: seq<string>, s: string)
    requires FullListing(w, ordered) && s in Named(ordered) && Missing(w, s) != {}
    ensures "" in ordered
  {
    var listed := Named(ordered);
    var k :| 0 <= k < |listed| && listed[k] == s;
    GapsAtLeast(w, listed, k);
    if "" !in ordered { NamedIsAll(ordered); }
  }

  lemma {:induction false} GapsAtLeast(w: Walk, listed: seq<string>, k: nat)
    requires k < |listed|
    ensures Gaps(w, listed) >= |Missing(w, listed[k])|
    decreases |listed|
  {
    if k < |listed| - 1 {
      GapsAtLeast(w, listed[..|listed| - 1], k);
    }
  }

  lemma {:induction false} NamedIsAll(s: seq<string>)
    requires "" !in s
    ensures Named(s) == s
    decreases |s|
  {
    if s != [] {
      NamedIsAll(s[..|s| - 1]);
    }
  }

  /** Reversed, it comes after its dependant. */
  lemma DependantsFirst(dependsOn: Graph, services: set<string>, expand: bool, ordered: seq<string>, i: nat, j: nat)
    requires var w := Walk(Inverse(dependsOn), services, expand); Listing(w, ordered) && Acyclic(w, Elems(ordered))
    requires i < |ordered| && j < |ordered|
    requires Edge(Walk(dependsOn, services, expand), ordered[j], ordered[i]) && ordered[i] in dependsOn
    ensures j < i
  {
    var w := Walk(Inverse(dependsOn), services, expand);
    InverseIs(dependsOn, services, expand, ordered[i], ordered[j]);
    assert FromScope(w, ordered[j]);
    if !expand {
      StaysInScope(w, ordered);
      assert ordered[j] in Elems(ordered);
    }
    assert Edge(w, ordered[i], ordered[j]);
    var k :| 0 <= k < i && ordered[k] == ordered[j];
  }
}
