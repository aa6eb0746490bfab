/** `DependsOn` (kconfig/kconfig.go): the transitive dependencies of an entry,
    computed at most once per entry under its `sync.Once`. A call that comes back
    to an entry whose computation is still running waits for itself forever;
    that outcome is the result `hangs`. */
module KconfigDeps {
  import opened Options
  import opened KconfigExpr
  import KconfigMenu

  datatype Once = Fresh | Running | Done(deps: set<string>)

  /** Entries are numbered. `direct` are the symbols of an entry's conditions,
      `configs` maps the known names to entries. */
  datatype Graph = Graph(direct: seq<set<string>>, configs: map<string, nat>)

  /** The graph of a parsed file: a menu's direct dependencies are the symbols
      that `collectDeps` finds in its two conditions. */
  function DirectOf(m: KconfigMenu.Menu): set<string> {
    (if m.dependsOn.Some? then CollectDeps(m.dependsOn.value) else {}) +
    (if m.visibleIf.Some? then CollectDeps(m.visibleIf.value) else {})
  }

  predicate WfGraph(g: Graph) { forall c | c in g.configs :: g.configs[c] < |g.direct| }

  /** The known direct dependencies. */
  function Known(g: Graph, m: nat): set<string>
    requires m < |g.direct|
  {
    set c | c in g.direct[m] && c in g.configs
  }

  /** Each name is a known direct dependency of the entry before it. */
  ghost predicate IsPath(g: Graph, m: nat, p: seq<string>)
    requires WfGraph(g) && m < |g.direct|
    decreases |p|
  {
    p != [] && p[0] in Known(g, m) && (|p| == 1 || IsPath(g, g.configs[p[0]], p[1..]))
  }

  ghost predicate Path(g: Graph, m: nat, p: seq<string>, c: string)
    requires WfGraph(g) && m < |g.direct|
  {
    IsPath(g, m, p) && p[|p| - 1] == c
  }

  ghost predicate Reaches(g: Graph, m: nat, c: string)
    requires WfGraph(g) && m < |g.direct|
  {
    exists p :: Path(g, m, p, c)
  }

  /** Some entry that `m` depends on depends on itself. */
  ghost predicate Cyclic(g: Graph, m: nat)
    requires WfGraph(g) && m < |g.direct|
  {
    exists c | c in g.configs && Reaches(g, m, c) :: SelfReaching(g, g.configs[c])
  }

  ghost predicate SelfReaching(g: Graph, m: nat)
    requires WfGraph(g) && m < |g.direct|
  {
    exists c | c in g.configs && g.configs[c] == m :: Reaches(g, m, c)
  }

  /** Reachability unfolds at its first step. */
  lemma ReachStep(g: Graph, m: nat, c: string)
    requires WfGraph(g) && m < |g.direct|
    ensures Reaches(g, m, c) <==>
            c in Known(g, m) || exists d | d in Known(g, m) :: Reaches(g, g.configs[d], c)
  {
    if c in Known(g, m) {
      assert Path(g, m, [c], c);
    }
    if d :| d in Known(g, m) && Reaches(g, g.configs[d], c) {
      var p :| Path(g, g.configs[d], p, c);
      assert ([d] + p)[1..] == p;
      assert Path(g, m, [d] + p, c);
    }
    if Reaches(g, m, c) {
      var p :| Path(g, m, p, c);
      if |p| > 1 {
        assert Path(g, g.configs[p[0]], p[1..], c);
      }
    }
  }

  /** Reached through one of the direct dependencies `via`. */
  ghost predicate ThroughOne(g: Graph, m: nat, via: set<string>, c: string)
    requires WfGraph(g) && m < |g.direct| && via <= Known(g, m)
  {
    exists d | d in via :: Reaches(g, g.configs[d], c)
  }

  lemma ThroughMore(g: Graph, m: nat, via: set<string>, d: string, c: string)
    requires WfGraph(g) && m < |g.direct| && via <= Known(g, m) && d in Known(g, m)
    ensures ThroughOne(g, m, via + {d}, c) <==> ThroughOne(g, m, via, c) || Reaches(g, g.configs[d], c)
  {
  }

  lemma {:induction false} PathConcat(g: Graph, m: nat, p: seq<string>, d: string, q: seq<string>, c: string)
    requires WfGraph(g) && m < |g.direct| && Path(g, m, p, d) && d in g.configs && Path(g, g.configs[d], q, c)
    ensures Path(g, m, p + q, c)
    decreases |p|
  {
    if |p| == 1 {
      assert (p + q)[1..] == q;
    } else {
      assert (p + q)[1..] == p[1..] + q;
      PathConcat(g, g.configs[p[0]], p[1..], d, q, c);
    }
  }

  lemma ReachTrans(g: Graph, m: nat, d: string, c: string)
    requires WfGraph(g) && m < |g.direct| && d in g.configs && Reaches(g, m, d) && Reaches(g, g.configs[d], c)
    ensures Reaches(g, m, c)
  {
    var p :| Path(g, m, p, d);
    var q :| Path(g, g.configs[d], q, c);
    PathConcat(g, m, p, d, q, c);
  }

  /** `r` has the entry `m` among its transitive dependencies. */
  ghost predicate Leads(g: Graph, r: nat, m: nat)
    requires WfGraph(g) && r < |g.direct|
  {
    exists c | c in g.configs && g.configs[c] == m :: Reaches(g, r, c)
  }

  /** Coming back to an entry on the way here closes a cycle. */
  lemma BackEdge(g: Graph, m: nat)
    requires WfGraph(g) && m < |g.direct| && Leads(g, m, m)
    ensures Cyclic(g, m)
  {
  }

  lemma CyclicUp(g: Graph, m: nat, d: string)
    requires WfGraph(g) && m < |g.direct| && d in Known(g, m) && Cyclic(g, g.configs[d])
    ensures Cyclic(g, m)
  {
    var c :| c in g.configs && Reaches(g, g.configs[d], c) && SelfReaching(g, g.configs[c]);
    ReachStep(g, m, c);
  }

  lemma LeadsOn(g: Graph, r: nat, m: nat, d: string)
    requires WfGraph(g) && r < |g.direct| && m < |g.direct| && d in Known(g, m)
    requires r == m || Leads(g, r, m)
    ensures Leads(g, r, g.configs[d])
  {
    ReachStep(g, m, d);
    if r != m {
      var c :| c in g.configs && g.configs[c] == m && Reaches(g, r, c);
      ReachTrans(g, r, c, d);
    }
  }

  /** The dependency graph of a file after `walk`. */
  function GraphOf(menus: seq<KconfigMenu.Menu>, configs: map<string, nat>): Graph {
    Graph(seq(|menus|, i requires 0 <= i < |menus| => DirectOf(menus[i])), configs)
  }

  /** The operand at the end of a way down through binary operators. */
  function Operand(e: Expr, way: seq<bool>): Option<Expr>
    decreases |way|
  {
    if way == [] then Some(e)
    else if e.Bin? then Operand(if way[0] then e.lex else e.rex, way[1..])
    else None
  }

  ghost predicate HasOperand(e: Expr, name: string) { exists way :: Operand(e, way) == Some(Ident(name)) }

  lemma OperandBelow(e: Expr, name: string, left: bool)
    requires e.Bin? && HasOperand(if left then e.lex else e.rex, name)
    ensures HasOperand(e, name)
  {
    var way :| Operand(if left then e.lex else e.rex, way) == Some(Ident(name));
    assert ([left] + way)[1..] == way;
    assert Operand(e, [left] + way) == Some(Ident(name));
  }

  /** `collectDeps` finds exactly the identifiers that binary operators lead to: what is
      below a negation, and text, is not counted. */
  lemma {:induction false} CollectsExactly(e: Expr, name: string)
    ensures name in CollectDeps(e) <==> HasOperand(e, name)
    decreases e
  {
    if e.Bin? {
      CollectsExactly(e.lex, name);
      CollectsExactly(e.rex, name);
      if name in CollectDeps(e.lex) { OperandBelow(e, name, true); }
      if name in CollectDeps(e.rex) { OperandBelow(e, name, false); }
      if HasOperand(e, name) {
        var way :| Operand(e, way) == Some(Ident(name));
        assert way != [];
        assert Operand(if way[0] then e.lex else e.rex, way[1..]) == Some(Ident(name));
      }
    } else if e.Ident? && e.name == name {
      assert Operand(e, []) == Some(Ident(name));
    }
  }

  /** In the graph of a file an entry leads to the known names that stand in its conditions. */
  lemma KnownExactly(menus: seq<KconfigMenu.Menu>, configs: map<string, nat>, m: nat, c: string)
    requires m < |menus|
    ensures c in Known(GraphOf(menus, configs), m) <==>
            c in configs && ((menus[m].dependsOn.Some? && HasOperand(menus[m].dependsOn.value, c)) ||
                             (menus[m].visibleIf.Some? && HasOperand(menus[m].visibleIf.value, c)))
  {
    if menus[m].dependsOn.Some? { CollectsExactly(menus[m].dependsOn.value, c); }
    if menus[m].visibleIf.Some? { CollectsExactly(menus[m].visibleIf.value, c); }
  }

  /** Computations that were begun or finished stay so, and no other one is left running. */
  predicate Frame(before: seq<Once>, now: seq<Once>) {
    |now| == |before| &&
    (forall i | 0 <= i < |now| && !before[i].Fresh? :: now[i] == before[i]) &&
    (forall i | 0 <= i < |now| && now[i] == Running :: before[i] == Running)
  }

  /** Every running computation is that of `m` or waits for it. */
  ghost predicate Waits(g: Graph, once: seq<Once>, m: nat)
    requires WfGraph(g) && |once| == |g.direct|
  {
    forall r | 0 <= r < |once| && once[r] == Running :: r == m || Leads(g, r, m)
  }

  lemma FrameKeepsWaits(g: Graph, before: seq<Once>, now: seq<Once>, m: nat)
    requires WfGraph(g) && |before| == |g.direct| && Frame(before, now) && Waits(g, before, m)
    ensures Waits(g, now, m)
  {
  }

  lemma FrameTrans(a: seq<Once>, b: seq<Once>, c: seq<Once>)
    requires Frame(a, b) && Frame(b, c)
    ensures Frame(a, c)
  {
  }

  ghost predicate Finds(g: Graph, m: nat, deps: set<string>)
    requires WfGraph(g) && m < |g.direct|
  {
    forall c :: c in deps <==> Reaches(g, m, c)
  }

  /** Exactly what the dependencies outside of `todo` lead to. */
  ghost predicate Collected(g: Graph, m: nat, todo: set<string>, indirect: set<string>)
    requires WfGraph(g) && m < |g.direct|
  {
    forall c :: c in indirect <==> ThroughOne(g, m, Known(g, m) - todo, c)
  }

  lemma CollectedSkip(g: Graph, m: nat, todo: set<string>, cfg: string, indirect: set<string>)
    requires WfGraph(g) && m < |g.direct| && Collected(g, m, todo, indirect) && cfg !in g.configs
    ensures Collected(g, m, todo - {cfg}, indirect) && Known(g, m) + todo - {cfg} == Known(g, m) + (todo - {cfg})
  {
    assert Known(g, m) - (todo - {cfg}) == Known(g, m) - todo;
  }

  lemma CollectedMore(
      g: Graph, m: nat, todo: set<string>, cfg: string, indirect: set<string>, sub: set<string>)
    requires WfGraph(g) && m < |g.direct| && Collected(g, m, todo, indirect) && cfg in Known(g, m) && cfg in todo
    requires Finds(g, g.configs[cfg], sub)
    ensures Collected(g, m, todo - {cfg}, indirect + sub) && Known(g, m) + todo == Known(g, m) + (todo - {cfg})
  {
    var via := Known(g, m) - todo;
    assert Known(g, m) - (todo - {cfg}) == via + {cfg};
    forall c ensures c in indirect + sub <==> ThroughOne(g, m, via + {cfg}, c) {
      ThroughMore(g, m, via, cfg, c);
    }
  }

  lemma CollectedAll(g: Graph, m: nat, deps: set<string>, indirect: set<string>)
    requires WfGraph(g) && m < |g.direct| && Collected(g, m, {}, indirect) && deps == Known(g, m) + indirect
    ensures Finds(g, m, deps)
  {
    assert Known(g, m) - {} == Known(g, m);
    forall c ensures c in deps <==> Reaches(g, m, c) {
      ReachStep(g, m, c);
    }
  }

  class Dependencies {
    const g: Graph
    var once: seq<Once>
    /** When each finished computation finished. */
    ghost var rank: seq<nat>
    ghost var clock: nat

    constructor (g: Graph)
      requires WfGraph(g)
      ensures this.g == g && Valid() && forall i | 0 <= i < |once| :: once[i].Fresh?
    {
      this.g := g;
      once := seq(|g.direct|, i => Once.Fresh);
      rank := seq(|g.direct|, i => 0);
      clock := 0;
    }

    ghost function Fresh(): set<nat>
      reads this
    {
      set i | 0 <= i < |once| && once[i] == Once.Fresh
    }

    ghost predicate Right(i: nat)
      reads this
      requires WfGraph(g) && |once| == |rank| == |g.direct| && i < |once| && once[i].Done?
    {
      && rank[i] < clock
      && (forall c :: c in once[i].deps <==> Reaches(g, i, c))
      && (forall c | c in Known(g, i) :: once[g.configs[c]].Done? && rank[g.configs[c]] < rank[i])
    }

    /** Finished entries hold exactly what they reach and rest on entries that finished earlier. */
    ghost predicate Valid()
      reads this
    {
      WfGraph(g) && |once| == |rank| == |g.direct| &&
      forall i | 0 <= i < |once| && once[i].Done? :: Right(i)
    }

    method DependsOn(m: nat) returns (deps: set<string>, hangs: bool)
      requires Valid() && m < |once|
      requires forall r | 0 <= r < |once| && once[r] == Running :: Leads(g, r, m)
      modifies this
      ensures hangs <==> Cyclic(g, m)
      ensures !hangs ==> Finds(g, m, deps) && Valid() && Frame(old(once), once) && once[m] == Done(deps)
      decreases Fresh(), 1
    {
      if once[m].Done? {
        assert Right(m);
        DoneIsAcyclic(this, m);
        return once[m].deps, false;
      }
      if once[m] == Running {
        BackEdge(g, m);
        return {}, true;
      }
      assert m in Fresh();
      once := once[m := Running];
      assert m !in Fresh();
      ghost var marked := once;
      deps, hangs := Gather(m);
      if hangs {
        return {}, true;
      }
      Finish(m, deps);
      assert Frame(marked, once[m := Running]);
    }

    /** The loop over the direct dependencies of a running entry. */
    method Gather(m: nat) returns (deps: set<string>, hangs: bool)
      requires Valid() && m < |once| && once[m] == Running
      requires Waits(g, once, m)
      modifies this
      ensures hangs ==> Cyclic(g, m)
      ensures !hangs ==> Valid() && Frame(old(once), once) && AllDone(m, {}) && Finds(g, m, deps)
      decreases Fresh(), 4
    {
      deps := g.direct[m];
      var todo := deps;
      var indirect: set<string> := {};
      hangs := false;
      while todo != {}
        invariant Valid() && Frame(old(once), once) && todo <= g.direct[m] && AllDone(m, todo)
        invariant deps == Known(g, m) + todo && Collected(g, m, todo, indirect)
        decreases todo
      {
        var cfg :| cfg in todo;
        if cfg !in g.configs {
          CollectedSkip(g, m, todo, cfg, indirect);
          todo := todo - {cfg};
          deps := deps - {cfg};
          continue;
        }
        FrameKeepsWaits(g, old(once), once, m);
        ghost var was := once;
        indirect, hangs := Follow(m, cfg, todo, indirect);
        if hangs {
          return {}, true;
        }
        FrameTrans(old(once), was, once);
        todo := todo - {cfg};
      }
      deps := deps + indirect;
      CollectedAll(g, m, deps, indirect);
    }

    /** The known dependencies that were looked at are finished. */
    ghost predicate AllDone(m: nat, todo: set<string>)
      reads this
      requires WfGraph(g) && |once| == |g.direct| && m < |once|
    {
      forall c | c in Known(g, m) && c !in todo :: once[g.configs[c]].Done?
    }

    /** One known dependency, and what it leads to. */
    method Follow(m: nat, cfg: string, ghost todo: set<string>, indirect: set<string>)
      returns (more: set<string>, hangs: bool)
      requires Valid() && m < |once| && once[m] == Running && Waits(g, once, m)
      requires cfg in Known(g, m) && cfg in todo && AllDone(m, todo) && Collected(g, m, todo, indirect)
      modifies this
      ensures hangs ==> Cyclic(g, m)
      ensures !hangs ==> Valid() && Frame(old(once), once) && AllDone(m, todo - {cfg})
      ensures !hangs ==> Collected(g, m, todo - {cfg}, more) && Known(g, m) + todo == Known(g, m) + (todo - {cfg})
      decreases Fresh(), 3
    {
      var sub;
      sub, hangs := Below(m, cfg);
      if hangs {
        return {}, true;
      }
      CollectedMore(g, m, todo, cfg, indirect, sub);
      more := indirect + sub;
    }

    /** The recursive call for one known dependency of a running entry. */
    method Below(m: nat, cfg: string) returns (sub: set<string>, hangs: bool)
      requires Valid() && m < |once| && once[m] == Running && cfg in Known(g, m)
      requires Waits(g, once, m)
      modifies this
      ensures hangs ==> Cyclic(g, m)
      ensures !hangs ==> Valid() && Frame(old(once), once)
      ensures !hangs ==> once[g.configs[cfg]].Done? && Finds(g, g.configs[cfg], sub)
      decreases Fresh(), 2
    {
      forall r | 0 <= r < |once| && once[r] == Running ensures Leads(g, r, g.configs[cfg]) {
        LeadsOn(g, r, m, cfg);
      }
      sub, hangs := DependsOn(g.configs[cfg]);
      if hangs {
        CyclicUp(g, m, cfg);
      }
    }

    method Finish(m: nat, deps: set<string>)
      requires Valid() && m < |once| && once[m] == Running
      requires AllDone(m, {}) && Finds(g, m, deps)
      modifies this
      ensures Valid() && once == old(once)[m := Done(deps)] && !Cyclic(g, m)
    {
      once := once[m := Done(deps)];
      rank := rank[m := clock];
      clock := clock + 1;
      assert Right(m);
      forall i | 0 <= i < |once| && once[i].Done? ensures Right(i) {
        if i != m { assert old(Right(i)); }
      }
      DoneIsAcyclic(this, m);
    }
  }

  lemma {:induction false} PathRank(d: Dependencies, m: nat, p: seq<string>, c: string)
    requires d.Valid() && m < |d.once| && d.once[m].Done? && Path(d.g, m, p, c)
    ensures c in d.g.configs && d.once[d.g.configs[c]].Done? && d.rank[d.g.configs[c]] < d.rank[m]
    decreases |p|
  {
    assert d.Right(m);
    if |p| > 1 {
      PathRank(d, d.g.configs[p[0]], p[1..], c);
    }
  }

  /** What a finished computation rests on has no cycle. */
  lemma DoneIsAcyclic(d: Dependencies, m: nat)
    requires d.Valid() && m < |d.once| && d.once[m].Done?
    ensures !Cyclic(d.g, m)
  {
    if Cyclic(d.g, m) {
      var c :| c in d.g.configs && Reaches(d.g, m, c) && SelfReaching(d.g, d.g.configs[c]);
      var p :| Path(d.g, m, p, c);
      PathRank(d, m, p, c);
      var n := d.g.configs[c];
      var e :| e in d.g.configs && d.g.configs[e] == n && Reaches(d.g, n, e);
      var q :| Path(d.g, n, q, e);
      PathRank(d, n, q, e);
    }
  }

  /** A config that depends on itself waits for itself. */
  lemma SelfDependencyHangs(g: Graph)
    requires g == Graph([{"X"}], map["X" := 0])
    ensures WfGraph(g) && Cyclic(g, 0)
  {
    assert "X" in Known(g, 0);
    assert IsPath(g, 0, ["X"]);
    assert Path(g, 0, ["X"], "X");
  }
}
