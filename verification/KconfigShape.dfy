/** The builder's menus follow the marks of the lines: each line that opens or makes
    something has its node, whose parent is that of the innermost line open around it. */
module KconfigShape {
  import opened Options
  import opened KconfigExpr
  import opened KconfigMenu
  import opened KconfigText

  /** The line around line i. */
  function Around(marks: seq<Mark>, i: nat): Option<nat>
    requires i <= |marks|
    ensures Around(marks, i).Some? ==> Around(marks, i).value < i
  {
    var o := OpenAt(marks, i);
    if o == [] then None
    else
      OpenBelow(marks, i, |o| - 1);
      Some(o[|o| - 1])
  }

  predicate StackFollows(marks: seq<Mark>, k: nat, stack: seq<nat>)
    requires k <= |marks|
  {
    |stack| == |OpenAt(marks, k)| &&
    forall q | 0 <= q < |stack| :: OpenAt(marks, k)[q] < k && stack[q] == Made(marks, OpenAt(marks, k)[q])
  }

  predicate CurFollows(marks: seq<Mark>, k: nat, cur: Option<nat>)
    requires k <= |marks|
  {
    var c := CurLine(marks, k);
    if c.None? then cur.None? else c.value < k && cur == Some(Made(marks, c.value))
  }

  predicate ParentFollows(marks: seq<Mark>, i: nat, menus: seq<Menu>)
    requires i < |marks|
  {
    var n := Made(marks, i);
    && n < |menus|
    && (menus[n].parent.Some? ==>
          Around(marks, i).Some? && menus[n].parent.value == Made(marks, Around(marks, i).value))
  }

  predicate ParentsFollow(marks: seq<Mark>, k: nat, menus: seq<Menu>)
    requires k <= |marks|
  {
    forall i | 0 <= i < k && IsNode(marks[i]) :: ParentFollows(marks, i, menus)
  }

  predicate Follows(marks: seq<Mark>, k: nat, b: Building)
    requires k <= |marks|
  {
    && |b.menus| == Made(marks, k)
    && StackFollows(marks, k, b.stack) && CurFollows(marks, k, b.cur) && ParentsFollow(marks, k, b.menus)
  }

  /** The command is one that a line with this mark gives. */
  predicate Fits(mark: Mark, c: Option<Command>) {
    match mark
    case Opening => c.Some? && c.value.Push?
    case Making => c.Some? && c.value.New? && c.value.entry.Some?
    case Closing => c == Some(Pop)
    case Other => c.None? || c.value.DependsOn? || c.value.VisibleIf?
  }

  function Effect(b: Building, c: Option<Command>): Building
    requires ValidStack(b) && ValidCur(b)
  {
    if c.Some? then Apply(b, c.value) else b
  }

  lemma NodeIsOnce(marks: seq<Mark>, i: nat, j: nat)
    requires i < |marks| && j < |marks| && IsNode(marks[i]) && IsNode(marks[j]) && Made(marks, i) == Made(marks, j)
    ensures i == j
  {
    if i < j {
      MadeMono(marks, i, j);
    } else if j < i {
      MadeMono(marks, j, i);
    }
  }

  /** Giving node c of line l the parent of the line around it keeps the parents. */
  lemma AttachFollows(marks: seq<Mark>, k: nat, menus: seq<Menu>, l: nat, top: nat)
    requires k <= |marks| && ParentsFollow(marks, k, menus) && l < k && IsNode(marks[l])
    requires Around(marks, l).Some? && top == Made(marks, Around(marks, l).value)
    requires top < |menus| && Made(marks, l) < |menus| && top != Made(marks, l)
    ensures ParentsFollow(marks, k, Attach(menus, top, Made(marks, l)))
  {
    var r := Attach(menus, top, Made(marks, l));
    forall i | 0 <= i < k && IsNode(marks[i]) ensures ParentFollows(marks, i, r) {
      assert ParentFollows(marks, i, menus);
      if Made(marks, i) == Made(marks, l) {
        NodeIsOnce(marks, i, l);
      }
    }
  }

  /** Ending the current entry hangs it below the line around it. */
  lemma EndFollows(marks: seq<Mark>, k: nat, b: Building)
    requires k <= |marks| && Forest(b) && Follows(marks, k, b) && !Homeless(b)
    ensures var e := EndCurrent(b);
            |e.menus| == |b.menus| && e.stack == b.stack && e.cur.None? && ParentsFollow(marks, k, e.menus)
  {
    if b.cur.Some? {
      var c := CurLine(marks, k).value;
      CurOpen(marks, k);
      var o := OpenAt(marks, k);
      var top := b.stack[|b.stack| - 1];
      assert top == Made(marks, o[|o| - 1]);
      if top != b.cur.value {
        assert !marks[c].Opening?;
        assert Around(marks, c) == Some(o[|o| - 1]);
        AttachFollows(marks, k, b.menus, c, top);
      }
    }
  }

  lemma AppendFollows(marks: seq<Mark>, k: nat, menus: seq<Menu>, m: Menu)
    requires k < |marks| && |menus| == Made(marks, k) && ParentsFollow(marks, k, menus) && m.parent.None?
    requires IsNode(marks[k])
    ensures ParentsFollow(marks, k + 1, menus + [m])
  {
    var all := menus + [m];
    assert all[|menus|] == m;
    forall i | 0 <= i < k && IsNode(marks[i]) ensures ParentFollows(marks, i, all) {
      assert ParentFollows(marks, i, menus) && all[Made(marks, i)] == menus[Made(marks, i)];
    }
  }

  lemma StackStays(marks: seq<Mark>, k: nat, stack: seq<nat>)
    requires k < |marks| && StackFollows(marks, k, stack)
    ensures marks[k].Opening? ==> StackFollows(marks, k + 1, stack + [Made(marks, k)])
    ensures marks[k].Closing? && |stack| >= 2 ==> StackFollows(marks, k + 1, stack[..|stack| - 1])
    ensures !marks[k].Opening? && !(marks[k].Closing? && |stack| >= 2) ==> StackFollows(marks, k + 1, stack)
  {
  }

  lemma PushFollows(marks: seq<Mark>, k: nat, b: Building, m: Menu)
    requires k < |marks| && Forest(b) && Follows(marks, k, b) && !Homeless(b) && marks[k].Opening? && Fresh(m)
    ensures Follows(marks, k + 1, PushCurrent(b, m))
  {
    EndFollows(marks, k, b);
    AppendFollows(marks, k, EndCurrent(b).menus, m);
    StackStays(marks, k, b.stack);
  }

  lemma NewFollows(marks: seq<Mark>, k: nat, b: Building, m: Menu)
    requires k < |marks| && Forest(b) && Follows(marks, k, b) && !Homeless(b) && marks[k].Making? && Fresh(m)
    ensures Follows(marks, k + 1, NewCurrent(b, Some(m)))
  {
    EndFollows(marks, k, b);
    AppendFollows(marks, k, EndCurrent(b).menus, m);
    StackStays(marks, k, b.stack);
  }

  lemma OneMoreLine(marks: seq<Mark>, k: nat, menus: seq<Menu>)
    requires k < |marks| && ParentsFollow(marks, k, menus) && !IsNode(marks[k])
    ensures ParentsFollow(marks, k + 1, menus)
  {
  }

  lemma PopFollows(marks: seq<Mark>, k: nat, b: Building)
    requires k < |marks| && Forest(b) && Follows(marks, k, b) && !Homeless(b) && marks[k].Closing?
    ensures Follows(marks, k + 1, PopCurrent(b))
  {
    EndFollows(marks, k, b);
    EndCurrentKeeps(b);
    var e := EndCurrent(b);
    var n := |e.stack| - 1;
    StackStays(marks, k, b.stack);
    if n >= 1 {
      var o := OpenAt(marks, k);
      OpenBelow(marks, k, n);
      assert Around(marks, o[n]) == Some(o[n - 1]);
      AttachFollows(marks, k, e.menus, o[n], e.stack[n - 1]);
      OneMoreLine(marks, k, Attach(e.menus, e.stack[n - 1], e.stack[n]));
    } else {
      OneMoreLine(marks, k, e.menus);
    }
  }

  lemma ConditionFollows(marks: seq<Mark>, k: nat, b: Building, ex: Expr, visible: bool)
    requires k < |marks| && Forest(b) && Follows(marks, k, b) && marks[k].Other?
    ensures Follows(marks, k + 1, AddCondition(b, ex, visible))
  {
    var r := AddCondition(b, ex, visible);
    forall i | 0 <= i < k && IsNode(marks[i]) ensures ParentFollows(marks, i, r.menus) {
      assert ParentFollows(marks, i, b.menus);
    }
    OneMoreLine(marks, k, r.menus);
    StackStays(marks, k, b.stack);
  }

  lemma StepFollows(marks: seq<Mark>, k: nat, b: Building, c: Option<Command>)
    requires k < |marks| && Forest(b) && Follows(marks, k, b) && Fits(marks[k], c)
    requires (c.Some? ==> GoodCommand(c.value)) && (!marks[k].Other? ==> !Homeless(b))
    ensures Follows(marks, k + 1, Effect(b, c))
  {
    if c.None? {
      OneMoreLine(marks, k, b.menus);
      StackStays(marks, k, b.stack);
    } else {
      match c.value
      case Push(m) => PushFollows(marks, k, b, m);
      case New(m) => NewFollows(marks, k, b, m.value);
      case Pop => PopFollows(marks, k, b);
      case DependsOn(ex) => ConditionFollows(marks, k, b, ex, false);
      case VisibleIf(ex) => ConditionFollows(marks, k, b, ex, true);
    }
  }

  /** Where every entry is made in a menu, the current one has a menu to go to. */
  lemma NeverHomeless(marks: seq<Mark>, k: nat, b: Building)
    requires k <= |marks| && Follows(marks, k, b) && forall i | 0 <= i < k && marks[i].Making? :: OpenAt(marks, i) != []
    ensures !Homeless(b)
  {
    if b.cur.Some? {
      CurOpen(marks, k);
    }
  }
}
