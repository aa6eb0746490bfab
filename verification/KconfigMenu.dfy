/** The menu tree (kconfig/kconfig.go): a stack of open menus and a current entry
    build it. A node is its index in `menus`, the nodes in the order in which the
    builder received them; `parent` and `children` are such indices. */
module KconfigMenu {
  import opened Options
  import opened KconfigExpr

  datatype MenuKind = MenuConfig | MenuGroup | MenuChoice | MenuComment

  datatype Menu = Menu(
    kind: MenuKind, name: string, dependsOn: Option<Expr>, visibleIf: Option<Expr>,
    parent: Option<nat>, children: seq<nat>)

  datatype Building = Building(menus: seq<Menu>, stack: seq<nat>, cur: Option<nat>, lost: set<nat>)

  predicate Increasing(s: seq<nat>) { forall i, j | 0 <= i < j < |s| :: s[i] < s[j] }

  predicate AllBelow(s: seq<nat>, n: nat) { forall i | 0 <= i < |s| :: s[i] < n }

  /** Children are younger than their parent, point back to it and stand in
      document order, so none occurs twice. */
  predicate Holds(menus: seq<Menu>, m: nat)
    requires m < |menus|
  {
    var kids := menus[m].children;
    Increasing(kids) && forall k | 0 <= k < |kids| :: m < kids[k] < |menus| && menus[kids[k]].parent == Some(m)
  }

  predicate Hangs(menus: seq<Menu>, m: nat)
    requires m < |menus|
  {
    menus[m].parent.Some? ==> menus[m].parent.value < m && m in menus[menus[m].parent.value].children
  }

  predicate Linked(menus: seq<Menu>) {
    forall m | 0 <= m < |menus| :: Holds(menus, m) && Hangs(menus, m)
  }

  /** The node is an open menu, the current entry, or was given up with an error. */
  predicate Loose(b: Building, m: nat) { m in b.stack || b.cur == Some(m) || m in b.lost }

  predicate ValidStack(b: Building) {
    && Increasing(b.stack) && AllBelow(b.stack, |b.menus|)
    && forall i | 0 < i < |b.stack| :: AllBelow(b.menus[b.stack[i - 1]].children, b.stack[i])
  }

  predicate ValidCur(b: Building) {
    b.cur.Some? ==>
      && b.cur.value < |b.menus|
      && if b.cur.value in b.stack then b.cur.value == b.stack[|b.stack| - 1]
         else b.cur.value == |b.menus| - 1 && b.menus[b.cur.value].children == []
  }

  /** The forest: every node received so far is in exactly one place, either
      loose or in exactly one children list, at one position, of its parent. */
  predicate Forest(b: Building) {
    && Linked(b.menus) && ValidStack(b) && ValidCur(b)
    && (forall m | m in b.lost :: m < |b.menus| && m !in b.stack && b.cur != Some(m))
    && forall m | 0 <= m < |b.menus| :: b.menus[m].parent.None? <==> Loose(b, m)
  }

  const Empty := Building([], [], None, {})

  function Attach(menus: seq<Menu>, top: nat, m: nat): (r: seq<Menu>)
    requires top < |menus| && m < |menus| && top != m
  {
    menus[top := menus[top].(children := menus[top].children + [m])][m := menus[m].(parent := Some(top))]
  }

  lemma AttachKeepsLinked(menus: seq<Menu>, top: nat, m: nat)
    requires Linked(menus) && top < m < |menus| && menus[m].parent.None?
    requires AllBelow(menus[top].children, m)
    ensures Linked(Attach(menus, top, m))
  {
    var r := Attach(menus, top, m);
    forall n | 0 <= n < |r| ensures Holds(r, n) && Hangs(r, n) {
      assert Holds(menus, n) && Hangs(menus, n);
      if n == m {
        assert r[top].children[|menus[top].children|] == m;
      }
    }
  }

  function EndCurrent(b: Building): Building
    requires ValidStack(b) && ValidCur(b)
  {
    if b.cur.None? then b
    else if b.stack == [] then b.(cur := None, lost := b.lost + {b.cur.value})
    else
      var top := b.stack[|b.stack| - 1];
      if top == b.cur.value then b.(cur := None)
      else b.(cur := None, menus := Attach(b.menus, top, b.cur.value))
  }

  lemma EndCurrentKeeps(b: Building)
    requires Forest(b)
    ensures Forest(EndCurrent(b))
  {
    if b.cur.Some? && b.stack != [] {
      var top, c := b.stack[|b.stack| - 1], b.cur.value;
      if top != c {
        assert Holds(b.menus, top);
        AttachKeepsLinked(b.menus, top, c);
      }
    }
  }

  /** A node as it is handed to the builder. */
  predicate Fresh(m: Menu) { m.parent.None? && m.children == [] }

  function PushCurrent(b: Building, m: Menu): Building
    requires ValidStack(b) && ValidCur(b)
  {
    var e := EndCurrent(b);
    Building(e.menus + [m], e.stack + [|e.menus|], Some(|e.menus|), e.lost)
  }

  function NewCurrent(b: Building, m: Option<Menu>): Building
    requires ValidStack(b) && ValidCur(b)
  {
    var e := EndCurrent(b);
    if m.None? then e else e.(menus := e.menus + [m.value], cur := Some(|e.menus|))
  }

  /** Closing the outermost menu is ignored: the stack keeps its root. */
  function PopCurrent(b: Building): Building
    requires ValidStack(b) && ValidCur(b)
  {
    var e := EndCurrent(b);
    if |e.stack| < 2 then e
    else
      var n := |e.stack| - 1;
      assert e.stack == b.stack;
      e.(stack := e.stack[..n], menus := Attach(e.menus, e.stack[n - 1], e.stack[n]))
  }

  lemma EndCurrentShape(b: Building)
    requires Forest(b)
    ensures var e := EndCurrent(b);
            |e.menus| == |b.menus| && e.stack == b.stack && e.cur.None? && b.lost <= e.lost
  {
  }

  lemma PushCurrentKeeps(b: Building, m: Menu)
    requires Forest(b) && Fresh(m)
    ensures Forest(PushCurrent(b, m))
  {
    EndCurrentKeeps(b);
    EndCurrentShape(b);
    var e := EndCurrent(b);
    var r := PushCurrent(b, m);
    AppendKeepsLinked(e.menus, m);
    forall i | 0 < i < |r.stack| ensures AllBelow(r.menus[r.stack[i - 1]].children, r.stack[i]) {
      assert Holds(e.menus, r.stack[i - 1]);
    }
  }

  lemma AppendKeepsLinked(menus: seq<Menu>, m: Menu)
    requires Linked(menus) && Fresh(m)
    ensures Linked(menus + [m])
  {
    var r := menus + [m];
    forall n | 0 <= n < |r| ensures Holds(r, n) && Hangs(r, n) {
      if n < |menus| { assert Holds(menus, n) && Hangs(menus, n); }
    }
  }

  lemma NewCurrentKeeps(b: Building, m: Option<Menu>)
    requires Forest(b) && (m.Some? ==> Fresh(m.value))
    ensures Forest(NewCurrent(b, m))
  {
    EndCurrentKeeps(b);
    EndCurrentShape(b);
    if m.Some? {
      AppendKeepsLinked(EndCurrent(b).menus, m.value);
    }
  }

  lemma PopCurrentKeeps(b: Building)
    requires Forest(b)
    ensures Forest(PopCurrent(b))
  {
    EndCurrentKeeps(b);
    EndCurrentShape(b);
    var e := EndCurrent(b);
    if |e.stack| >= 2 {
      PopKeeps(e);
    }
  }

  lemma PopKeeps(e: Building)
    requires Forest(e) && e.cur.None? && |e.stack| >= 2
    ensures var n := |e.stack| - 1;
            Forest(e.(stack := e.stack[..n], menus := Attach(e.menus, e.stack[n - 1], e.stack[n])))
  {
    var n := |e.stack| - 1;
    assert Loose(e, e.stack[n]);
    AttachKeepsLinked(e.menus, e.stack[n - 1], e.stack[n]);
    PopLooseness(e);
    PopStack(e);
  }

  lemma PopStack(e: Building)
    requires Forest(e) && e.cur.None? && |e.stack| >= 2
    ensures var n := |e.stack| - 1;
            ValidStack(e.(stack := e.stack[..n], menus := Attach(e.menus, e.stack[n - 1], e.stack[n])))
  {
  }

  lemma PopLooseness(e: Building)
    requires Forest(e) && e.cur.None? && |e.stack| >= 2
    ensures var n := |e.stack| - 1;
            var r := e.(stack := e.stack[..n], menus := Attach(e.menus, e.stack[n - 1], e.stack[n]));
            forall m | 0 <= m < |r.menus| :: r.menus[m].parent.None? <==> Loose(r, m)
  {
    var n := |e.stack| - 1;
    assert e.stack == e.stack[..n] + [e.stack[n]];
    forall m: nat ensures m in e.stack <==> m in e.stack[..n] || m == e.stack[n] {
    }
    assert e.stack[n] !in e.stack[..n];
  }

  // Whole runs of the builder.

  datatype Command =
    | Push(m: Menu)
    | Pop
    | New(entry: Option<Menu>)
    | End
    | DependsOn(ex: Expr)
    | VisibleIf(ex: Expr)

  predicate GoodCommand(c: Command) {
    match c
    case Push(m) => Fresh(m)
    case New(m) => m.Some? ==> Fresh(m.value)
    case _ => true
  }

  /** A property line narrows the condition of the current entry. */
  function AddCondition(b: Building, ex: Expr, visible: bool): Building
    requires ValidCur(b)
  {
    if b.cur.None? then b
    else
      var m := b.menus[b.cur.value];
      b.(menus := b.menus[b.cur.value :=
        if visible then m.(visibleIf := ExprAnd(m.visibleIf, Some(ex)))
        else m.(dependsOn := ExprAnd(m.dependsOn, Some(ex)))])
  }

  function Apply(b: Building, c: Command): Building
    requires ValidStack(b) && ValidCur(b)
  {
    match c
    case Push(m) => PushCurrent(b, m)
    case Pop => PopCurrent(b)
    case New(m) => NewCurrent(b, m)
    case End => EndCurrent(b)
    case DependsOn(ex) => AddCondition(b, ex, false)
    case VisibleIf(ex) => AddCondition(b, ex, true)
  }

  lemma AddConditionKeeps(b: Building, ex: Expr, visible: bool)
    requires Forest(b)
    ensures Forest(AddCondition(b, ex, visible))
  {
    var r := AddCondition(b, ex, visible);
    forall n | 0 <= n < |r.menus| ensures Holds(r.menus, n) && Hangs(r.menus, n) {
      assert Holds(b.menus, n) && Hangs(b.menus, n);
    }
  }

  lemma ApplyKeeps(b: Building, c: Command)
    requires Forest(b) && GoodCommand(c)
    ensures Forest(Apply(b, c))
  {
    match c
    case Push(m) => PushCurrentKeeps(b, m);
    case Pop => PopCurrentKeeps(b);
    case New(m) => NewCurrentKeeps(b, m);
    case End => EndCurrentKeeps(b);
    case DependsOn(ex) => AddConditionKeeps(b, ex, false);
    case VisibleIf(ex) => AddConditionKeeps(b, ex, true);
  }

  /** `b` is what some run of the builder has built. */
  ghost predicate Reached(cmds: seq<Command>, b: Building)
  {
    if cmds == [] then b == Empty
    else
      var n := |cmds| - 1;
      GoodCommand(cmds[n]) &&
      exists a :: Reached(cmds[..n], a) && ValidStack(a) && ValidCur(a) && b == Apply(a, cmds[n])
  }

  /** In every state a run can reach the nodes form a forest. */
  lemma {:induction false} ReachedForest(cmds: seq<Command>, b: Building)
    requires Reached(cmds, b)
    ensures Forest(b)
  {
    if cmds != [] {
      var n := |cmds| - 1;
      var a :| Reached(cmds[..n], a) && ValidStack(a) && ValidCur(a) && b == Apply(a, cmds[n]);
      ReachedForest(cmds[..n], a);
      ApplyKeeps(a, cmds[n]);
    }
  }

  /** `m` stands at position k of the children of p. */
  predicate ChildAt(b: Building, p: nat, k: nat, m: nat) {
    p < |b.menus| && k < |b.menus[p].children| && b.menus[p].children[k] == m
  }

  /** A node that is not loose stands in one children list, at one position, and
      its parent link names that list; a loose node stands in none. */
  lemma OnePlace(b: Building, m: nat)
    requires Forest(b) && m < |b.menus|
    ensures Loose(b, m) <==> !exists p: nat, k: nat :: ChildAt(b, p, k, m)
    ensures forall p: nat, k: nat, q: nat, j: nat :: ChildAt(b, p, k, m) && ChildAt(b, q, j, m) ==> p == q && k == j
    ensures forall p: nat, k: nat :: ChildAt(b, p, k, m) ==> b.menus[m].parent == Some(p)
    ensures forall i, j | 0 <= i < |b.stack| && 0 <= j < |b.stack| :: b.stack[i] == b.stack[j] ==> i == j
  {
    forall p: nat, k: nat | ChildAt(b, p, k, m) ensures b.menus[m].parent == Some(p) {
      assert Holds(b.menus, p);
    }
    forall p: nat, k: nat, q: nat, j: nat | ChildAt(b, p, k, m) && ChildAt(b, q, j, m) ensures p == q && k == j {
      assert Holds(b.menus, p) && Holds(b.menus, q);
    }
    if !Loose(b, m) {
      assert Hangs(b.menus, m);
      var p := b.menus[m].parent.value;
      var k :| 0 <= k < |b.menus[p].children| && b.menus[p].children[k] == m;
      assert ChildAt(b, p, k, m);
    }
  }

  /** The top of the tree a node belongs to. */
  function RootOf(menus: seq<Menu>, m: nat): (r: nat)
    requires Linked(menus) && m < |menus|
    ensures r <= m && menus[r].parent.None?
    decreases m
  {
    assert Hangs(menus, m);
    if menus[m].parent.None? then m else RootOf(menus, menus[m].parent.value)
  }

  // What can be told from the commands alone.

  /** How many menus are open after the commands. The outermost one cannot be closed. */
  function Depth(cmds: seq<Command>): nat {
    if cmds == [] then 0
    else
      var n := |cmds| - 1;
      var d := Depth(cmds[..n]);
      match cmds[n]
      case Push(_) => d + 1
      case Pop => if d < 2 then d else d - 1
      case _ => d
  }

  /** An entry is made where no menu is open. */
  predicate Strays(cmds: seq<Command>) { exists k | 0 <= k < |cmds| :: StraysAt(cmds, k) }

  predicate StraysAt(cmds: seq<Command>, k: nat)
    requires k < |cmds|
  {
    cmds[k].New? && cmds[k].entry.Some? && Depth(cmds[..k]) == 0
  }

  lemma StraysMore(cmds: seq<Command>, n: nat)
    requires n < |cmds|
    ensures Strays(cmds[..n + 1]) <==> Strays(cmds[..n]) || StraysAt(cmds, n)
  {
    var now, next := cmds[..n], cmds[..n + 1];
    forall k | 0 <= k <= n ensures next[k] == cmds[k] && next[..k] == cmds[..k] {
    }
    forall k | 0 <= k < n ensures now[k] == cmds[k] && now[..k] == cmds[..k] {
    }
    if Strays(now) {
      var k :| 0 <= k < |now| && StraysAt(now, k);
      assert StraysAt(next, k);
    }
    if StraysAt(cmds, n) {
      assert StraysAt(next, n);
    }
    if Strays(next) {
      var k :| 0 <= k < |next| && StraysAt(next, k);
      if k < n { assert StraysAt(now, k); }
    }
  }

  /** The current entry has no menu to go to: the next command gives it up. */
  predicate Homeless(b: Building) { b.cur.Some? && b.stack == [] }

  lemma ApplyLoses(b: Building, c: Command)
    requires Forest(b)
    ensures Apply(b, c).lost == b.lost || Homeless(b)
  {
  }

  /** An entry was given up, or will be by the next command. */
  predicate GivenUp(b: Building) { b.lost != {} || Homeless(b) }

  predicate MakesEntry(c: Command) { c.New? && c.entry.Some? }

  lemma StepDepth(a: Building, c: Command)
    requires ValidStack(a) && ValidCur(a)
    ensures |Apply(a, c).stack| == match c
                                   case Push(_) => |a.stack| + 1
                                   case Pop => if |a.stack| < 2 then |a.stack| else |a.stack| - 1
                                   case _ => |a.stack|
  {
  }

  lemma StepGivesUp(a: Building, c: Command)
    requires ValidStack(a) && ValidCur(a)
    ensures GivenUp(Apply(a, c)) <==> GivenUp(a) || (MakesEntry(c) && a.stack == [])
  {
    if a.cur.Some? {
      assert a.cur.value in a.lost + {a.cur.value};
    }
  }

  /** The stack is as high as the depth, and an entry is given up, now or at the next
      command, exactly if one strays. */
  lemma {:induction false} ReachedDepth(cmds: seq<Command>, b: Building)
    requires Reached(cmds, b)
    ensures |b.stack| == Depth(cmds)
    ensures Strays(cmds) <==> GivenUp(b)
  {
    if cmds != [] {
      var n := |cmds| - 1;
      var a :| Reached(cmds[..n], a) && ValidStack(a) && ValidCur(a) && b == Apply(a, cmds[n]);
      ReachedDepth(cmds[..n], a);
      StepDepth(a, cmds[n]);
      StepGivesUp(a, cmds[n]);
      StraysMore(cmds, n);
      assert cmds[..n + 1] == cmds;
    }
  }

  /** When the file ends, nothing that it declared is missing from the tree exactly when
      its commands leave only the outermost menu open and made no entry outside of it;
      an unclosed menu drops out silently. */
  lemma CompleteExactly(cmds: seq<Command>, b: Building)
    requires Reached(cmds, b) && b.cur.None? && Depth(cmds) > 0
    ensures Linked(b.menus) && b.stack != []
    ensures (forall m | 0 <= m < |b.menus| :: RootOf(b.menus, m) == b.stack[0]) <==> Depth(cmds) == 1 && !Strays(cmds)
  {
    ReachedForest(cmds, b);
    ReachedDepth(cmds, b);
    CompleteByState(b);
  }

  lemma CompleteByState(b: Building)
    requires Forest(b) && b.cur.None? && b.stack != []
    ensures (forall m | 0 <= m < |b.menus| :: RootOf(b.menus, m) == b.stack[0]) <==>
            |b.stack| == 1 && b.lost == {}
  {
    if |b.stack| == 1 && b.lost == {} {
      forall m | 0 <= m < |b.menus| ensures RootOf(b.menus, m) == b.stack[0] {
        assert Loose(b, RootOf(b.menus, m));
      }
    } else if |b.stack| > 1 {
      assert Loose(b, b.stack[1]);
      assert RootOf(b.menus, b.stack[1]) == b.stack[1];
    } else {
      var m :| m in b.lost;
      assert Loose(b, m) && b.stack[0] in b.stack;
      assert RootOf(b.menus, m) == m;
    }
  }

  function Plain(kind: MenuKind, name: string): Menu { Menu(kind, name, None, None, None, []) }

  /** A main menu, a menu that is never closed, and a config in it. */
  const Unclosed := [Push(Plain(MenuConfig, "")), Push(Plain(MenuGroup, "")), New(Some(Plain(MenuConfig, "X"))), End]

  lemma {:induction false} ReachesSome(cmds: seq<Command>) returns (b: Building)
    requires forall k | 0 <= k < |cmds| :: GoodCommand(cmds[k])
    ensures Reached(cmds, b)
    ensures cmds != [] && cmds[|cmds| - 1] == End ==> b.cur.None?
    decreases |cmds|
  {
    b := Empty;
    if cmds != [] {
      var n := |cmds| - 1;
      var a := ReachesSome(cmds[..n]);
      ReachedForest(cmds[..n], a);
      b := Apply(a, cmds[n]);
    }
  }

  lemma UnclosedDepth(cmds: seq<Command>, root: Menu, menu: Menu, entry: Menu)
    requires cmds == [Push(root), Push(menu), New(Some(entry)), End]
    ensures Depth(cmds) == 2 && !Strays(cmds)
  {
    assert cmds[..3][..2][..1][..0] == [] && cmds[..1] == cmds[..2][..1] && cmds[..2] == cmds[..3][..2];
    assert Depth(cmds[..0]) == 0;
    assert Depth(cmds[..1]) == 1;
    assert Depth(cmds[..2]) == 2;
    assert Depth(cmds[..3]) == 2;
  }

  /** No error is recorded, and yet not everything is under the main menu. */
  lemma UnclosedIsDropped() returns (b: Building)
    ensures Reached(Unclosed, b) && b.cur.None? && b.lost == {} && Linked(b.menus) && b.stack != []
    ensures exists m :: 0 <= m < |b.menus| && RootOf(b.menus, m) != b.stack[0]
  {
    b := ReachesSome(Unclosed);
    UnclosedDepth(Unclosed, Plain(MenuConfig, ""), Plain(MenuGroup, ""), Plain(MenuConfig, "X"));
    ReachedDepth(Unclosed, b);
    CompleteExactly(Unclosed, b);
  }

  /** `kconfigParser`'s menu stack, current entry and nodes, updated in place. */
  class Builder {
    var menus: seq<Menu>
    var stack: seq<nat>
    var cur: Option<nat>
    ghost var lost: set<nat>

    constructor ()
      ensures State() == Empty
    {
      menus, stack, cur, lost := [], [], None, {};
    }

    ghost function State(): Building
      reads this
    {
      Building(menus, stack, cur, lost)
    }

    method DoEndCurrent() returns (fail: bool)
      requires Forest(State())
      modifies this
      ensures State() == EndCurrent(old(State())) && Forest(State())
      ensures fail <==> Homeless(old(State()))
    {
      EndCurrentKeeps(State());
      if cur.None? {
        return false;
      }
      if |stack| == 0 {
        lost := lost + {cur.value};
        cur := None;
        return true;
      }
      var top := stack[|stack| - 1];
      if top != cur.value {
        menus := menus[top := menus[top].(children := menus[top].children + [cur.value])];
        menus := menus[cur.value := menus[cur.value].(parent := Some(top))];
      }
      cur := None;
      return false;
    }

    method DoPushCurrent(m: Menu) returns (fail: bool)
      requires Forest(State()) && Fresh(m)
      modifies this
      ensures State() == PushCurrent(old(State()), m) && Forest(State())
      ensures fail <==> Homeless(old(State()))
    {
      PushCurrentKeeps(State(), m);
      fail := DoEndCurrent();
      cur := Some(|menus|);
      stack := stack + [|menus|];
      menus := menus + [m];
    }

    method DoPopCurrent() returns (fail: bool)
      requires Forest(State())
      modifies this
      ensures State() == PopCurrent(old(State())) && Forest(State())
      ensures fail <==> Homeless(old(State()))
    {
      PopCurrentKeeps(State());
      fail := DoEndCurrent();
      if |stack| < 2 {
        return;
      }
      var last := stack[|stack| - 1];
      stack := stack[..|stack| - 1];
      var top := stack[|stack| - 1];
      menus := menus[top := menus[top].(children := menus[top].children + [last])];
      menus := menus[last := menus[last].(parent := Some(top))];
    }

    method DoNewCurrent(m: Option<Menu>) returns (fail: bool)
      requires Forest(State()) && (m.Some? ==> Fresh(m.value))
      modifies this
      ensures State() == NewCurrent(old(State()), m) && Forest(State())
      ensures fail <==> Homeless(old(State()))
    {
      NewCurrentKeeps(State(), m);
      fail := DoEndCurrent();
      if m.Some? {
        cur := Some(|menus|);
        menus := menus + [m.value];
      }
    }

    method DoAddCondition(ex: Expr, visible: bool)
      requires Forest(State())
      modifies this`menus
      ensures State() == AddCondition(old(State()), ex, visible) && Forest(State())
    {
      AddConditionKeeps(State(), ex, visible);
      if cur.Some? {
        var m := menus[cur.value];
        if visible {
          menus := menus[cur.value := m.(visibleIf := ExprAnd(m.visibleIf, Some(ex)))];
        } else {
          menus := menus[cur.value := m.(dependsOn := ExprAnd(m.dependsOn, Some(ex)))];
        }
      }
    }
  }
}
