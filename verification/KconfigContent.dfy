/** The builder's menus hold what their lines say: kind, name and conditions. */
module KconfigContent {
  import opened Options
  import opened KconfigExpr
  import opened KconfigMenu
  import opened KconfigWalk
  import opened KconfigText
  import opened KconfigShape

  /** One of the two conditions of a file, line by line: what a line begins its menu with,
      and what it adds to the menu or entry that it belongs to. */
  datatype Conds = Conds(visible: bool, begins: seq<Option<Expr>>, adds: seq<Option<Expr>>)

  predicate Wf(marks: seq<Mark>, cs: Conds) { |cs.begins| == |cs.adds| == |marks| }

  /** What line i and the lines before k that belong to it say. */
  ghost predicate Says(marks: seq<Mark>, k: nat, i: nat, cs: Conds, val: Expr -> bool)
    requires i < |marks| && k <= |marks| && Wf(marks, cs)
  {
    Met(cs.begins[i], val) && forall j | i < j < k && CurLine(marks, j) == Some(i) :: Met(cs.adds[j], val)
  }

  ghost predicate CondFollows(marks: seq<Mark>, k: nat, i: nat, menus: seq<Menu>, cs: Conds, val: Expr -> bool)
    requires i < |marks| && k <= |marks| && Wf(marks, cs)
  {
    Made(marks, i) < |menus| && (Met(Own(menus[Made(marks, i)], cs.visible), val) <==> Says(marks, k, i, cs, val))
  }

  ghost predicate CondsFollow(marks: seq<Mark>, k: nat, menus: seq<Menu>, cs: Conds, val: Expr -> bool)
    requires k <= |marks| && Wf(marks, cs)
  {
    forall i | 0 <= i < k && IsNode(marks[i]) :: CondFollows(marks, k, i, menus, cs, val)
  }

  /** What a command adds to the condition. */
  function Adds(c: Option<Command>, visible: bool): Option<Expr> {
    if c.None? then None
    else if c.value.DependsOn? && !visible then Some(c.value.ex)
    else if c.value.VisibleIf? && visible then Some(c.value.ex)
    else None
  }

  /** What it begins a menu with. */
  function Begins(c: Option<Command>, visible: bool): Option<Expr> {
    if c.None? then None
    else if c.value.Push? then Own(c.value.m, visible)
    else if c.value.New? && c.value.entry.Some? then Own(c.value.entry.value, visible)
    else None
  }

  lemma SaysMore(marks: seq<Mark>, k: nat, i: nat, cs: Conds, val: Expr -> bool)
    requires i < k < |marks| && Wf(marks, cs)
    ensures Says(marks, k + 1, i, cs, val) <==>
            Says(marks, k, i, cs, val) && (CurLine(marks, k) == Some(i) ==> Met(cs.adds[k], val))
  {
  }

  /** Menus that agree in their conditions agree with the lines alike. */
  lemma SameOwn(marks: seq<Mark>, k: nat, a: seq<Menu>, b: seq<Menu>, cs: Conds, val: Expr -> bool)
    requires k < |marks| && Wf(marks, cs) && CondsFollow(marks, k, a, cs, val) && cs.adds[k].None?
    requires |a| <= |b| && forall n | 0 <= n < |a| :: Own(b[n], cs.visible) == Own(a[n], cs.visible)
    ensures forall i | 0 <= i < k && IsNode(marks[i]) :: CondFollows(marks, k + 1, i, b, cs, val)
  {
    forall i | 0 <= i < k && IsNode(marks[i]) ensures CondFollows(marks, k + 1, i, b, cs, val) {
      assert CondFollows(marks, k, i, a, cs, val);
      SaysMore(marks, k, i, cs, val);
    }
  }

  lemma EndOwn(b: Building, n: nat, visible: bool)
    requires ValidStack(b) && ValidCur(b) && n < |b.menus|
    ensures |EndCurrent(b).menus| == |b.menus| && Own(EndCurrent(b).menus[n], visible) == Own(b.menus[n], visible)
    ensures EndCurrent(b).menus[n].kind == b.menus[n].kind && EndCurrent(b).menus[n].name == b.menus[n].name
  {
  }

  lemma PopOwn(b: Building, n: nat, visible: bool)
    requires ValidStack(b) && ValidCur(b) && n < |b.menus|
    ensures |PopCurrent(b).menus| == |b.menus| && Own(PopCurrent(b).menus[n], visible) == Own(b.menus[n], visible)
    ensures PopCurrent(b).menus[n].kind == b.menus[n].kind && PopCurrent(b).menus[n].name == b.menus[n].name
  {
    EndOwn(b, n, visible);
  }

  lemma NodeCondFollows(marks: seq<Mark>, k: nat, b: Building, r: seq<Menu>, m: Menu, cs: Conds, val: Expr -> bool)
    requires k < |marks| && Wf(marks, cs) && Forest(b) && |b.menus| == Made(marks, k) && IsNode(marks[k])
    requires CondsFollow(marks, k, b.menus, cs, val) && cs.adds[k].None? && cs.begins[k] == Own(m, cs.visible)
    requires r == EndCurrent(b).menus + [m]
    ensures CondsFollow(marks, k + 1, r, cs, val)
  {
    EndCurrentShape(b);
    forall n | 0 <= n < |b.menus| ensures Own(r[n], cs.visible) == Own(b.menus[n], cs.visible) {
      EndOwn(b, n, cs.visible);
    }
    SameOwn(marks, k, b.menus, r, cs, val);
    assert r[Made(marks, k)] == m;
    assert CondFollows(marks, k + 1, k, r, cs, val);
  }

  lemma PopCondFollows(marks: seq<Mark>, k: nat, b: Building, cs: Conds, val: Expr -> bool)
    requires k < |marks| && Wf(marks, cs) && Forest(b) && !IsNode(marks[k])
    requires CondsFollow(marks, k, b.menus, cs, val) && cs.adds[k].None?
    ensures CondsFollow(marks, k + 1, PopCurrent(b).menus, cs, val)
  {
    forall n | 0 <= n < |b.menus|
      ensures n < |PopCurrent(b).menus| && Own(PopCurrent(b).menus[n], cs.visible) == Own(b.menus[n], cs.visible)
    {
      PopOwn(b, n, cs.visible);
    }
    if |b.menus| > 0 { PopOwn(b, 0, cs.visible); }
    SameOwn(marks, k, b.menus, PopCurrent(b).menus, cs, val);
  }

  /** A property narrows the condition it is about, of the entry it belongs to, by conjunction. */
  lemma AddConditionMeans(b: Building, ex: Expr, visible: bool, val: Expr -> bool)
    requires ValidCur(b) && b.cur.Some?
    ensures var r, c := AddCondition(b, ex, visible), b.cur.value;
            && |r.menus| == |b.menus| && r.stack == b.stack && r.cur == b.cur && r.lost == b.lost
            && (forall n | 0 <= n < |b.menus| && n != c :: r.menus[n] == b.menus[n])
            && (Met(Own(r.menus[c], visible), val) <==> Met(Own(b.menus[c], visible), val) && Holding(ex, val))
            && Own(r.menus[c], !visible) == Own(b.menus[c], !visible)
            && r.menus[c].kind == b.menus[c].kind && r.menus[c].name == b.menus[c].name
            && r.menus[c].parent == b.menus[c].parent && r.menus[c].children == b.menus[c].children
  {
    ExprAndMeans(Own(b.menus[b.cur.value], visible), Some(ex), val);
  }

  lemma AddCondFollows(marks: seq<Mark>, k: nat, b: Building, ex: Expr, visible: bool, cs: Conds, val: Expr -> bool)
    requires k < |marks| && Wf(marks, cs) && Forest(b) && b.cur.Some? && CurFollows(marks, k, b.cur)
    requires !IsNode(marks[k])
    requires CondsFollow(marks, k, b.menus, cs, val)
    requires cs.adds[k] == if visible == cs.visible then Some(ex) else None
    ensures CondsFollow(marks, k + 1, AddCondition(b, ex, visible).menus, cs, val)
  {
    var r := AddCondition(b, ex, visible).menus;
    AddConditionMeans(b, ex, visible, val);
    CurOpen(marks, k);
    var c := CurLine(marks, k).value;
    forall i | 0 <= i < k && IsNode(marks[i]) ensures CondFollows(marks, k + 1, i, r, cs, val) {
      assert CondFollows(marks, k, i, b.menus, cs, val);
      SaysMore(marks, k, i, cs, val);
      if Made(marks, i) == b.cur.value {
        NodeIsOnce(marks, i, c);
      }
    }
  }

  lemma SkipCondFollows(marks: seq<Mark>, k: nat, menus: seq<Menu>, cs: Conds, val: Expr -> bool)
    requires k < |marks| && Wf(marks, cs) && !IsNode(marks[k])
    requires CondsFollow(marks, k, menus, cs, val) && cs.adds[k].None?
    ensures CondsFollow(marks, k + 1, menus, cs, val)
  {
    SameOwn(marks, k, menus, menus, cs, val);
  }

  lemma StepCondsFollow(marks: seq<Mark>, k: nat, b: Building, c: Option<Command>, cs: Conds, val: Expr -> bool)
    requires k < |marks| && Wf(marks, cs) && Forest(b) && Follows(marks, k, b) && Fits(marks[k], c)
    requires CondsFollow(marks, k, b.menus, cs, val)
    requires cs.adds[k] == Adds(c, cs.visible) && cs.begins[k] == Begins(c, cs.visible)
    requires c.Some? && (c.value.DependsOn? || c.value.VisibleIf?) ==> b.cur.Some?
    ensures CondsFollow(marks, k + 1, Effect(b, c).menus, cs, val)
  {
    if c.None? {
      SkipCondFollows(marks, k, b.menus, cs, val);
    } else {
      match c.value
      case Push(m) => NodeCondFollows(marks, k, b, PushCurrent(b, m).menus, m, cs, val);
      case New(m) => NodeCondFollows(marks, k, b, NewCurrent(b, m).menus, m.value, cs, val);
      case Pop => PopCondFollows(marks, k, b, cs, val);
      case DependsOn(ex) => AddCondFollows(marks, k, b, ex, false, cs, val);
      case VisibleIf(ex) => AddCondFollows(marks, k, b, ex, true, cs, val);
    }
  }

  // Kinds and names.

  datatype Head = Head(kind: MenuKind, name: string)

  predicate HeadFollows(marks: seq<Mark>, i: nat, menus: seq<Menu>, heads: seq<Head>)
    requires i < |marks| == |heads|
  {
    Made(marks, i) < |menus| && Head(menus[Made(marks, i)].kind, menus[Made(marks, i)].name) == heads[i]
  }

  predicate HeadsFollow(marks: seq<Mark>, k: nat, menus: seq<Menu>, heads: seq<Head>)
    requires k <= |marks| == |heads|
  {
    forall i | 0 <= i < k && IsNode(marks[i]) :: HeadFollows(marks, i, menus, heads)
  }

  predicate HeadIs(c: Option<Command>, h: Head) {
    c.Some? ==>
      && (c.value.Push? ==> h == Head(c.value.m.kind, c.value.m.name))
      && (c.value.New? && c.value.entry.Some? ==> h == Head(c.value.entry.value.kind, c.value.entry.value.name))
  }

  predicate SameHeads(a: seq<Menu>, b: seq<Menu>) {
    |a| <= |b| && forall n | 0 <= n < |a| :: b[n].kind == a[n].kind && b[n].name == a[n].name
  }

  lemma EndHeads(b: Building)
    requires Forest(b)
    ensures SameHeads(b.menus, EndCurrent(b).menus)
  {
  }

  lemma PopHeads(b: Building)
    requires Forest(b)
    ensures SameHeads(b.menus, PopCurrent(b).menus)
  {
    EndHeads(b);
    EndCurrentShape(b);
  }

  lemma AddConditionHeads(b: Building, ex: Expr, visible: bool)
    requires Forest(b)
    ensures SameHeads(b.menus, AddCondition(b, ex, visible).menus)
  {
  }

  lemma EffectHeads(b: Building, c: Option<Command>)
    requires Forest(b)
    ensures SameHeads(b.menus, Effect(b, c).menus)
  {
    if c.Some? {
      match c.value
      case Pop => PopHeads(b);
      case DependsOn(ex) => AddConditionHeads(b, ex, false);
      case VisibleIf(ex) => AddConditionHeads(b, ex, true);
      case _ => EndHeads(b);
    }
  }

  lemma StepHeadsFollow(marks: seq<Mark>, k: nat, b: Building, c: Option<Command>, heads: seq<Head>)
    requires k < |marks| == |heads| && Forest(b) && Follows(marks, k, b) && Fits(marks[k], c)
    requires HeadsFollow(marks, k, b.menus, heads) && HeadIs(c, heads[k])
    ensures HeadsFollow(marks, k + 1, Effect(b, c).menus, heads)
  {
    EffectHeads(b, c);
    EndCurrentShape(b);
    forall i | 0 <= i < k && IsNode(marks[i]) ensures HeadFollows(marks, i, Effect(b, c).menus, heads) {
      assert HeadFollows(marks, i, b.menus, heads);
    }
    if IsNode(marks[k]) {
      assert HeadFollows(marks, k, Effect(b, c).menus, heads);
    }
  }
}
