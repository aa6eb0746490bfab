/** `walk` (kconfig/kconfig.go): pushes every menu's conditions down to the
    entries below it, in place, and registers the config entries by name. */
module KconfigWalk {
  import opened Options
  import opened KconfigExpr
  import opened KconfigMenu

  /** `n` is `m` or below it. */
  predicate Under(menus: seq<Menu>, n: nat, m: nat)
    requires Linked(menus) && n < |menus|
    decreases n
  {
    assert Hangs(menus, n);
    n == m || (menus[n].parent.Some? && Under(menus, menus[n].parent.value, m))
  }

  function Own(m: Menu, visible: bool): Option<Expr> {
    if visible then m.visibleIf else m.dependsOn
  }

  /** The condition `n` ends up with when the walk enters at `m` with `base`. */
  function Inherited(menus: seq<Menu>, n: nat, m: nat, base: Option<Expr>, visible: bool): Option<Expr>
    requires Linked(menus) && n < |menus| && Under(menus, n, m)
    decreases n
  {
    assert Hangs(menus, n);
    var above := if n == m then base else Inherited(menus, menus[n].parent.value, m, base, visible);
    ExprAnd(above, Own(menus[n], visible))
  }

  function Narrowed(menus: seq<Menu>, n: nat, m: nat, dep: Option<Expr>, vis: Option<Expr>): Menu
    requires Linked(menus) && n < |menus| && Under(menus, n, m)
  {
    menus[n].(dependsOn := Inherited(menus, n, m, dep, false), visibleIf := Inherited(menus, n, m, vis, true))
  }

  /** The child of `m` on the way down to `n`. */
  function Branch(menus: seq<Menu>, n: nat, m: nat): (c: nat)
    requires Linked(menus) && n < |menus| && Under(menus, n, m) && n != m
    ensures c < |menus| && m < |menus| && menus[c].parent == Some(m) && c in menus[m].children
    ensures Under(menus, n, c)
    decreases n
  {
    assert Hangs(menus, n);
    if menus[n].parent.value == m then n else Branch(menus, menus[n].parent.value, m)
  }

  lemma {:induction false} UnderIsYounger(menus: seq<Menu>, n: nat, m: nat)
    requires Linked(menus) && n < |menus| && Under(menus, n, m)
    ensures m <= n
    decreases n
  {
    assert Hangs(menus, n);
    if n != m { UnderIsYounger(menus, menus[n].parent.value, m); }
  }

  /** Below a child is below its parent, through that child only. */
  lemma {:induction false} UnderChild(menus: seq<Menu>, n: nat, m: nat, c: nat)
    requires Linked(menus) && n < |menus| && c < |menus| && menus[c].parent == Some(m)
    requires Under(menus, n, c)
    ensures Under(menus, n, m) && n != m && Branch(menus, n, m) == c
    decreases n
  {
    assert Hangs(menus, n) && Hangs(menus, c);
    UnderIsYounger(menus, n, c);
    if n != c {
      UnderChild(menus, menus[n].parent.value, m, c);
    }
  }

  /** Only conditions differ. */
  predicate SameShape(a: seq<Menu>, b: seq<Menu>) {
    |a| == |b| && forall i | 0 <= i < |a| ::
      b[i] == a[i].(dependsOn := b[i].dependsOn, visibleIf := b[i].visibleIf)
  }

  lemma SameShapeLinked(a: seq<Menu>, b: seq<Menu>)
    requires Linked(a) && SameShape(a, b)
    ensures Linked(b)
  {
    forall m | 0 <= m < |b| ensures Holds(b, m) && Hangs(b, m) {
      assert Holds(a, m) && Hangs(a, m);
    }
  }

  lemma {:induction false} SameShapeUnder(a: seq<Menu>, b: seq<Menu>, n: nat, m: nat)
    requires Linked(a) && Linked(b) && SameShape(a, b) && n < |a|
    ensures Under(a, n, m) == Under(b, n, m)
    decreases n
  {
    assert Hangs(a, n) && Hangs(b, n);
    if n != m && a[n].parent.Some? { SameShapeUnder(a, b, a[n].parent.value, m); }
  }

  /** Entering at a child with the parent's new condition gives the same result
      as entering at the parent, while the branch below the child is untouched. */
  lemma {:induction false} InheritedThroughChild(
      a: seq<Menu>, b: seq<Menu>, n: nat, m: nat, c: nat, base: Option<Expr>, visible: bool)
    requires Linked(a) && Linked(b) && SameShape(a, b)
    requires n < |a| && c < |a| && m < |a| && a[c].parent == Some(m) && Under(a, n, c)
    requires forall i | 0 <= i < |a| && Under(a, i, c) :: b[i] == a[i]
    ensures Under(a, n, m) && Under(b, n, c)
    ensures Inherited(b, n, c, ExprAnd(base, Own(a[m], visible)), visible) == Inherited(a, n, m, base, visible)
    decreases n
  {
    assert Hangs(a, n) && Hangs(a, c);
    UnderChild(a, n, m, c);
    SameShapeUnder(a, b, n, c);
    if n != c {
      InheritedThroughChild(a, b, a[n].parent.value, m, c, base, visible);
    } else {
      assert Inherited(a, m, m, base, visible) == ExprAnd(base, Own(a[m], visible));
    }
  }

  /** The nodes below `m` in the order of the walk. */
  function Preorder(menus: seq<Menu>, m: nat): seq<nat>
    requires Linked(menus) && m < |menus|
    decreases |menus| - m, |menus[m].children| + 1
  {
    [m] + PreorderKids(menus, m, 0)
  }

  function PreorderKids(menus: seq<Menu>, m: nat, k: nat): seq<nat>
    requires Linked(menus) && m < |menus| && k <= |menus[m].children|
    decreases |menus| - m, |menus[m].children| - k
  {
    assert Holds(menus, m);
    if k == |menus[m].children| then []
    else Preorder(menus, menus[m].children[k]) + PreorderKids(menus, m, k + 1)
  }

  lemma {:induction false} SameShapePreorder(a: seq<Menu>, b: seq<Menu>, m: nat)
    requires Linked(a) && Linked(b) && SameShape(a, b) && m < |a|
    ensures Preorder(a, m) == Preorder(b, m)
    decreases |a| - m, |a[m].children| + 1
  {
    SameShapePreorderKids(a, b, m, 0);
  }

  lemma {:induction false} SameShapePreorderKids(a: seq<Menu>, b: seq<Menu>, m: nat, k: nat)
    requires Linked(a) && Linked(b) && SameShape(a, b) && m < |a| && k <= |a[m].children|
    ensures PreorderKids(a, m, k) == PreorderKids(b, m, k)
    decreases |a| - m, |a[m].children| - k
  {
    assert Holds(a, m);
    if k < |a[m].children| {
      SameShapePreorder(a, b, a[m].children[k]);
      SameShapePreorderKids(a, b, m, k + 1);
    }
  }

  /** Registering in walk order: a later entry replaces an earlier one of its name. */
  function Register(configs: map<string, nat>, menus: seq<Menu>, order: seq<nat>): map<string, nat>
    requires AllBelow(order, |menus|)
    decreases |order|
  {
    if order == [] then configs
    else
      var m := order[0];
      Register(if menus[m].kind == MenuConfig then configs[menus[m].name := m] else configs, menus, order[1..])
  }

  lemma {:induction false} RegisterConcat(configs: map<string, nat>, menus: seq<Menu>, a: seq<nat>, b: seq<nat>)
    requires AllBelow(a, |menus|)
    requires AllBelow(b, |menus|)
    ensures Register(configs, menus, a + b) == Register(Register(configs, menus, a), menus, b)
    decreases |a|
  {
    if a == [] {
      assert a + b == b;
    } else {
      assert (a + b)[1..] == a[1..] + b;
      var m := a[0];
      RegisterConcat(if menus[m].kind == MenuConfig then configs[menus[m].name := m] else configs, menus, a[1..], b);
    }
  }

  lemma {:induction false} RegisterShape(configs: map<string, nat>, a: seq<Menu>, b: seq<Menu>, order: seq<nat>)
    requires SameShape(a, b) && AllBelow(order, |a|)
    ensures Register(configs, a, order) == Register(configs, b, order)
    decreases |order|
  {
    if order != [] {
      var m := order[0];
      RegisterShape(if a[m].kind == MenuConfig then configs[a[m].name := m] else configs, a, b, order[1..]);
    }
  }

  /** The walk below `m` has dealt with `m` and its first k children. */
  ghost predicate Walked(a: seq<Menu>, now: seq<Menu>, m: nat, k: nat, dep: Option<Expr>, vis: Option<Expr>)
    requires Linked(a) && m < |a| && k <= |a[m].children|
  {
    SameShape(a, now) &&
    forall n | 0 <= n < |a| ::
      now[n] == if Under(a, n, m) && (n == m || Branch(a, n, m) in a[m].children[..k])
                then Narrowed(a, n, m, dep, vis) else a[n]
  }

  /** Exactly the nodes below `m` have taken over the conditions above them. */
  ghost predicate WalkedAll(a: seq<Menu>, now: seq<Menu>, m: nat, dep: Option<Expr>, vis: Option<Expr>)
    requires Linked(a)
  {
    SameShape(a, now) &&
    forall n | 0 <= n < |a| :: now[n] == if Under(a, n, m) then Narrowed(a, n, m, dep, vis) else a[n]
  }

  lemma WalkedEnd(a: seq<Menu>, now: seq<Menu>, m: nat, dep: Option<Expr>, vis: Option<Expr>)
    requires Linked(a) && m < |a| && Walked(a, now, m, |a[m].children|, dep, vis)
    ensures WalkedAll(a, now, m, dep, vis)
  {
    assert a[m].children[..|a[m].children|] == a[m].children;
  }

  lemma ChildIsLater(a: seq<Menu>, now: seq<Menu>, m: nat, k: nat)
    requires Linked(a) && SameShape(a, now) && m < |a| && k < |a[m].children|
    ensures now[m].children == a[m].children && m < a[m].children[k] < |now|
  {
    assert Holds(a, m);
  }

  /** One more child. */
  lemma WalkedOneMore(
      a: seq<Menu>, mid: seq<Menu>, now: seq<Menu>, m: nat, k: nat, dep: Option<Expr>, vis: Option<Expr>)
    requires Linked(a) && Linked(mid) && m < |a| && k < |a[m].children| && Walked(a, mid, m, k, dep, vis)
    requires WalkedAll(mid, now, a[m].children[k], mid[m].dependsOn, mid[m].visibleIf)
    ensures Walked(a, now, m, k + 1, dep, vis)
  {
    var c := a[m].children[k];
    assert Holds(a, m);
    assert a[m].children[..k + 1] == a[m].children[..k] + [c];
    assert c !in a[m].children[..k];
    forall n | 0 <= n < |a| ensures now[n] ==
      if Under(a, n, m) && (n == m || Branch(a, n, m) in a[m].children[..k + 1]) then Narrowed(a, n, m, dep, vis)
      else a[n]
    {
      SameShapeUnder(a, mid, n, c);
      if Under(a, n, c) {
        UnderChild(a, n, m, c);
        forall i | 0 <= i < |a| && Under(a, i, c) ensures mid[i] == a[i] {
          UnderChild(a, i, m, c);
        }
        InheritedThroughChild(a, mid, n, m, c, dep, false);
        InheritedThroughChild(a, mid, n, m, c, vis, true);
      }
    }
  }

  lemma {:induction false} PreorderBound(menus: seq<Menu>, m: nat)
    requires Linked(menus) && m < |menus|
    ensures AllBelow(Preorder(menus, m), |menus|)
    decreases |menus| - m, |menus[m].children| + 1
  {
    PreorderKidsBound(menus, m, 0);
  }

  lemma {:induction false} PreorderKidsBound(menus: seq<Menu>, m: nat, k: nat)
    requires Linked(menus) && m < |menus| && k <= |menus[m].children|
    ensures AllBelow(PreorderKids(menus, m, k), |menus|)
    decreases |menus| - m, |menus[m].children| - k
  {
    assert Holds(menus, m);
    if k < |menus[m].children| {
      PreorderBound(menus, menus[m].children[k]);
      PreorderKidsBound(menus, m, k + 1);
    }
  }

  lemma RegisterChild(a: seq<Menu>, now: seq<Menu>, m: nat, k: nat, reg: map<string, nat>)
    requires Linked(a) && Linked(now) && SameShape(a, now) && m < |a| && k < |a[m].children|
    ensures a[m].children[k] < |a|
    ensures var c := a[m].children[k];
            && AllBelow(Preorder(now, c), |now|)
            && AllBelow(PreorderKids(a, m, k), |a|)
            && AllBelow(PreorderKids(a, m, k + 1), |a|)
            && Register(Register(reg, now, Preorder(now, c)), a, PreorderKids(a, m, k + 1)) ==
               Register(reg, a, PreorderKids(a, m, k))
  {
    assert Holds(a, m);
    var c := a[m].children[k];
    PreorderBound(a, c);
    PreorderBound(now, c);
    PreorderKidsBound(a, m, k);
    PreorderKidsBound(a, m, k + 1);
    SameShapePreorder(a, now, c);
    RegisterShape(reg, a, now, Preorder(a, c));
    RegisterConcat(reg, a, Preorder(a, c), PreorderKids(a, m, k + 1));
  }

  /** Registering the children from the k-th on completes the registration. */
  ghost predicate Remaining(before: map<string, nat>, reg: map<string, nat>, a: seq<Menu>, m: nat, k: nat)
    requires Linked(a) && m < |a| && k <= |a[m].children|
  {
    PreorderBound(a, m);
    PreorderKidsBound(a, m, k);
    Register(before, a, Preorder(a, m)) == Register(reg, a, PreorderKids(a, m, k))
  }

  lemma RemainingFirst(before: map<string, nat>, a: seq<Menu>, m: nat)
    requires Linked(a) && m < |a|
    ensures Remaining(before, if a[m].kind == MenuConfig then before[a[m].name := m] else before, a, m, 0)
  {
    PreorderBound(a, m);
    PreorderKidsBound(a, m, 0);
    assert Preorder(a, m)[1..] == PreorderKids(a, m, 0);
  }

  lemma RemainingNext(before: map<string, nat>, reg: map<string, nat>, next: map<string, nat>,
                      a: seq<Menu>, now: seq<Menu>, m: nat, k: nat)
    requires Linked(a) && Linked(now) && SameShape(a, now) && m < |a| && k < |a[m].children|
    requires Remaining(before, reg, a, m, k) && a[m].children[k] < |a|
    requires AllBelow(Preorder(now, a[m].children[k]), |now|)
    requires next == Register(reg, now, Preorder(now, a[m].children[k]))
    ensures Remaining(before, next, a, m, k + 1)
  {
    RegisterChild(a, now, m, k, reg);
  }

  lemma RemainingNone(before: map<string, nat>, reg: map<string, nat>, a: seq<Menu>, now: seq<Menu>, m: nat)
    requires Linked(a) && Linked(now) && SameShape(a, now) && m < |a| && Remaining(before, reg, a, m, |a[m].children|)
    ensures AllBelow(Preorder(now, m), |now|) && reg == Register(before, now, Preorder(now, m))
  {
    PreorderBound(a, m);
    SameShapePreorder(a, now, m);
    RegisterShape(before, a, now, Preorder(a, m));
  }

  class KConfigFile {
    var menus: seq<Menu>
    var configs: map<string, nat>

    constructor (menus: seq<Menu>)
      ensures this.menus == menus && configs == map[]
    {
      this.menus, configs := menus, map[];
    }

    /** The entry's own conditions and its registration. */
    method Enter(m: nat, dependsOn: Option<Expr>, visibleIf: Option<Expr>)
      requires Linked(menus) && m < |menus|
      modifies this
      ensures Linked(menus) && Walked(old(menus), menus, m, 0, dependsOn, visibleIf)
      ensures Remaining(old(configs), configs, old(menus), m, 0)
    {
      ghost var a := menus;
      menus := menus[m := menus[m].(dependsOn := ExprAnd(dependsOn, menus[m].dependsOn),
                                    visibleIf := ExprAnd(visibleIf, menus[m].visibleIf))];
      RemainingFirst(configs, a, m);
      if menus[m].kind == MenuConfig {
        configs := configs[menus[m].name := m];
      }
      SameShapeLinked(a, menus);
    }

    method Walk(m: nat, dependsOn: Option<Expr>, visibleIf: Option<Expr>)
      requires Linked(menus) && m < |menus|
      modifies this
      ensures Linked(menus) && WalkedAll(old(menus), menus, m, dependsOn, visibleIf)
      ensures AllBelow(Preorder(menus, m), |menus|)
      ensures configs == Register(old(configs), menus, Preorder(menus, m))
      decreases |menus| - m
    {
      ghost var a := menus;
      ghost var before := configs;
      Enter(m, dependsOn, visibleIf);
      var k := 0;
      while k < |menus[m].children|
        invariant k <= |a[m].children|
        invariant Walked(a, menus, m, k, dependsOn, visibleIf) && Linked(menus)
        invariant Remaining(before, configs, a, m, k)
      {
        ChildIsLater(a, menus, m, k);
        ghost var mid := menus;
        ghost var reg := configs;
        var elem := menus[m].children[k];
        Walk(elem, menus[m].dependsOn, menus[m].visibleIf);
        WalkedOneMore(a, mid, menus, m, k, dependsOn, visibleIf);
        RemainingNext(before, reg, configs, a, menus, m, k);
        k := k + 1;
      }
      WalkedEnd(a, menus, m, dependsOn, visibleIf);
      RemainingNone(before, configs, a, menus, m);
    }
  }

  // What the walk means.

  /** Truth of a condition under any valuation that reads `&&` as conjunction; a
      missing condition holds. */
  predicate Holding(e: Expr, val: Expr -> bool) {
    if e.Bin? && e.op == OpAnd then Holding(e.lex, val) && Holding(e.rex, val) else val(e)
  }

  predicate Met(e: Option<Expr>, val: Expr -> bool) { e.Some? ==> Holding(e.value, val) }

  lemma ExprAndMeans(a: Option<Expr>, b: Option<Expr>, val: Expr -> bool)
    ensures Met(ExprAnd(a, b), val) <==> Met(a, val) && Met(b, val)
  {
  }

  /** The nodes from `m` down to `n`. */
  function Path(menus: seq<Menu>, n: nat, m: nat): (path: seq<nat>)
    requires Linked(menus) && n < |menus| && Under(menus, n, m)
    ensures AllBelow(path, |menus|)
    decreases n
  {
    assert Hangs(menus, n);
    (if n == m then [] else Path(menus, menus[n].parent.value, m)) + [n]
  }

  predicate AllMet(menus: seq<Menu>, path: seq<nat>, visible: bool, val: Expr -> bool)
    requires AllBelow(path, |menus|)
  {
    forall i | 0 <= i < |path| :: Met(Own(menus[path[i]], visible), val)
  }

  lemma AllMetSnoc(menus: seq<Menu>, path: seq<nat>, n: nat, visible: bool, val: Expr -> bool)
    requires AllBelow(path, |menus|) && n < |menus|
    ensures AllBelow(path + [n], |menus|)
    ensures AllMet(menus, path + [n], visible, val) <==>
            AllMet(menus, path, visible, val) && Met(Own(menus[n], visible), val)
  {
    var all := path + [n];
    assert all[|path|] == n;
    assert forall i | 0 <= i < |path| :: all[i] == path[i];
  }

  /** After the walk an entry's condition is its own and all its ancestors'. */
  lemma {:induction false} InheritedMeans(
      menus: seq<Menu>, n: nat, m: nat, base: Option<Expr>, visible: bool, val: Expr -> bool)
    requires Linked(menus) && n < |menus| && Under(menus, n, m)
    ensures Met(Inherited(menus, n, m, base, visible), val) <==>
            Met(base, val) && AllMet(menus, Path(menus, n, m), visible, val)
    decreases n
  {
    assert Hangs(menus, n);
    if n == m {
      assert Path(menus, n, m) == [] + [n];
      AllMetSnoc(menus, [], n, visible, val);
      ExprAndMeans(base, Own(menus[n], visible), val);
    } else {
      var p := menus[n].parent.value;
      InheritedMeans(menus, p, m, base, visible, val);
      AllMetSnoc(menus, Path(menus, p, m), n, visible, val);
      ExprAndMeans(Inherited(menus, p, m, base, visible), Own(menus[n], visible), val);
    }
  }

  /** The walk visits exactly the nodes below its root. */
  lemma {:induction false} PreorderIsUnder(menus: seq<Menu>, m: nat, n: nat)
    requires Linked(menus) && m < |menus| && n < |menus|
    ensures n in Preorder(menus, m) <==> Under(menus, n, m)
    decreases |menus| - m, |menus[m].children| + 1
  {
    PreorderKidsIsUnder(menus, m, 0, n);
    assert Holds(menus, m);
    if Under(menus, n, m) && n != m {
      var c := Branch(menus, n, m);
      var k :| 0 <= k < |menus[m].children| && menus[m].children[k] == c;
      assert Under(menus, n, menus[m].children[k]);
    }
    if k :| 0 <= k < |menus[m].children| && Under(menus, n, menus[m].children[k]) {
      UnderChild(menus, n, m, menus[m].children[k]);
    }
  }

  lemma {:induction false} PreorderKidsIsUnder(menus: seq<Menu>, m: nat, k: nat, n: nat)
    requires Linked(menus) && m < |menus| && n < |menus| && k <= |menus[m].children|
    ensures n in PreorderKids(menus, m, k) <==>
            exists j | k <= j < |menus[m].children| :: Under(menus, n, menus[m].children[j])
    decreases |menus| - m, |menus[m].children| - k
  {
    assert Holds(menus, m);
    if k < |menus[m].children| {
      PreorderIsUnder(menus, menus[m].children[k], n);
      PreorderKidsIsUnder(menus, m, k + 1, n);
    }
  }

  /** The registered entry of a name is the last one of the walk with that name. */
  lemma {:induction false} RegisteredLast(configs: map<string, nat>, menus: seq<Menu>, order: seq<nat>, k: nat)
    requires AllBelow(order, |menus|) && k < |order| && menus[order[k]].kind == MenuConfig
    requires forall j | k < j < |order| && menus[order[j]].kind == MenuConfig ::
               menus[order[j]].name != menus[order[k]].name
    ensures var reg := Register(configs, menus, order);
            menus[order[k]].name in reg && reg[menus[order[k]].name] == order[k]
    decreases |order|
  {
    var m := order[0];
    var next := if menus[m].kind == MenuConfig then configs[menus[m].name := m] else configs;
    if k > 0 {
      assert order[1..][k - 1] == order[k];
      RegisteredLast(next, menus, order[1..], k - 1);
    } else {
      RegisterKeeps(next, menus, order[1..], menus[m].name);
    }
  }

  lemma {:induction false} RegisterKeeps(configs: map<string, nat>, menus: seq<Menu>, order: seq<nat>, name: string)
    requires AllBelow(order, |menus|)
    requires forall j | 0 <= j < |order| :: menus[order[j]].kind == MenuConfig ==> menus[order[j]].name != name
    ensures var reg := Register(configs, menus, order);
            (name in reg <==> name in configs) && (name in configs ==> reg[name] == configs[name])
    decreases |order|
  {
    if order != [] {
      var m := order[0];
      var next := if menus[m].kind == MenuConfig then configs[menus[m].name := m] else configs;
      RegisterKeeps(next, menus, order[1..], name);
    }
  }
}
