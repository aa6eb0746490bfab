/** What the tree of a parsed file says, told from the words of its lines: every line that
    opens or makes something has a node of its kind and name below that of the line around
    it, the configs are those declared, and a node's conditions are those of its own lines
    and of the lines around it. */
module KconfigSays {
  import opened Options
  import opened KconfigExpr
  import opened KconfigMenu
  import opened KconfigWalk
  import opened KconfigLines
  import opened KconfigText
  import opened KconfigShape
  import opened KconfigContent
  import opened KconfigMeaning
  import T = KconfigTree
  import S = KconfigScan

  /** The menus as they are when the file ends and its outermost menu alone is open. */
  ghost predicate Built(lines: seq<string>, e: Building, val: Expr -> bool) {
    var marks := Marks(lines);
    && Forest(e) && e.cur.None? && e.lost == {} && |e.stack| == 1 && |e.menus| == Made(marks, |lines|)
    && StackFollows(marks, |lines|, e.stack) && ParentsFollow(marks, |lines|, e.menus)
    && HeadsFollow(marks, |lines|, e.menus, HeadsOf(lines))
    && CondsFollow(marks, |lines|, e.menus, CondsOf(lines, false), val)
    && CondsFollow(marks, |lines|, e.menus, CondsOf(lines, true), val)
  }

  lemma EndConds(marks: seq<Mark>, b: Building, cs: Conds, val: Expr -> bool)
    requires Forest(b) && Wf(marks, cs) && CondsFollow(marks, |marks|, b.menus, cs, val)
    ensures CondsFollow(marks, |marks|, EndCurrent(b).menus, cs, val)
  {
    var e := EndCurrent(b);
    forall i | 0 <= i < |marks| && IsNode(marks[i]) ensures CondFollows(marks, |marks|, i, e.menus, cs, val) {
      assert CondFollows(marks, |marks|, i, b.menus, cs, val);
      EndOwn(b, Made(marks, i), cs.visible);
    }
  }

  lemma EndHeadsFollow(marks: seq<Mark>, b: Building, heads: seq<Head>)
    requires Forest(b) && |heads| == |marks| && HeadsFollow(marks, |marks|, b.menus, heads)
    ensures HeadsFollow(marks, |marks|, EndCurrent(b).menus, heads)
  {
    EndHeads(b);
    forall i | 0 <= i < |marks| && IsNode(marks[i]) ensures HeadFollows(marks, i, EndCurrent(b).menus, heads) {
      assert HeadFollows(marks, i, b.menus, heads);
    }
  }

  lemma BuiltIs(lines: seq<string>, b: Building, val: Expr -> bool)
    requires Forest(b) && Told(lines, |lines|, b, val) && !Homeless(b) && b.lost == {}
    requires |OpenAt(Marks(lines), |lines|)| == 1
    ensures Built(lines, EndCurrent(b), val)
  {
    var marks := Marks(lines);
    EndCurrentKeeps(b);
    EndFollows(marks, |lines|, b);
    EndHeadsFollow(marks, b, HeadsOf(lines));
    EndConds(marks, b, CondsOf(lines, false), val);
    EndConds(marks, b, CondsOf(lines, true), val);
  }

  // Nesting.

  lemma LooseIsRoot(e: Building, n: nat)
    requires Forest(e) && e.cur.None? && e.lost == {} && |e.stack| == 1 && n < |e.menus| && e.menus[n].parent.None?
    ensures n == e.stack[0]
  {
    assert Loose(e, n);
  }

  lemma ParentIs(marks: seq<Mark>, e: Building, i: nat)
    requires Forest(e) && e.cur.None? && e.lost == {} && |e.stack| == 1
    requires StackFollows(marks, |marks|, e.stack) && ParentsFollow(marks, |marks|, e.menus)
    requires i < |marks| && IsNode(marks[i])
    ensures var n := Made(marks, i);
            && n < |e.menus|
            && (Around(marks, i).None? ==> e.menus[n].parent.None? && n == e.stack[0])
            && (Around(marks, i).Some? ==> e.menus[n].parent == Some(Made(marks, Around(marks, i).value)))
  {
    var n := Made(marks, i);
    var o := OpenAt(marks, |marks|);
    assert ParentFollows(marks, i, e.menus);
    OpenBelow(marks, |marks|, 0);
    if e.menus[n].parent.None? {
      LooseIsRoot(e, n);
      NodeIsOnce(marks, i, o[0]);
      assert o[..0] == [];
    }
  }

  /** What stands around a line is the line around it and what stands around that. */
  lemma AroundIs(marks: seq<Mark>, i: nat)
    requires i <= |marks|
    ensures Around(marks, i).None? ==> OpenAt(marks, i) == []
    ensures Around(marks, i).Some? ==>
              var p := Around(marks, i).value; marks[p].Opening? && OpenAt(marks, i) == OpenAt(marks, p) + [p]
  {
    var o := OpenAt(marks, i);
    if o != [] {
      OpenBelow(marks, i, |o| - 1);
      assert o == o[..|o| - 1] + [o[|o| - 1]];
    }
  }

  /** The conditions of all lines around line i, and its own, are met. */
  ghost predicate SaysAround(marks: seq<Mark>, i: nat, cs: Conds, val: Expr -> bool)
    requires i < |marks| && Wf(marks, cs)
  {
    Says(marks, |marks|, i, cs, val) &&
    forall q | 0 <= q < |OpenAt(marks, i)| ::
      OpenAt(marks, i)[q] < |marks| && Says(marks, |marks|, OpenAt(marks, i)[q], cs, val)
  }

  lemma SaysAroundStep(marks: seq<Mark>, i: nat, p: nat, cs: Conds, val: Expr -> bool)
    requires i < |marks| && Wf(marks, cs) && Around(marks, i) == Some(p)
    ensures SaysAround(marks, i, cs, val) <==> SaysAround(marks, p, cs, val) && Says(marks, |marks|, i, cs, val)
  {
    AroundIs(marks, i);
    var o, u := OpenAt(marks, i), OpenAt(marks, p);
    assert o[|u|] == p;
    assert forall q | 0 <= q < |u| :: o[q] == u[q];
  }

  /** From the root down to the node of line i lie the nodes of the lines around it. */
  lemma {:induction false} PathTold(lines: seq<string>, e: Building, val: Expr -> bool, i: nat, cs: Conds)
    requires Built(lines, e, val) && i < |lines| && IsNode(Marks(lines)[i])
    requires cs == CondsOf(lines, false) || cs == CondsOf(lines, true)
    ensures var marks := Marks(lines);
            var n := Made(marks, i);
            && n < |e.menus| && Under(e.menus, n, e.stack[0])
            && (AllMet(e.menus, Path(e.menus, n, e.stack[0]), cs.visible, val) <==> SaysAround(marks, i, cs, val))
    decreases i
  {
    var marks := Marks(lines);
    var n, root := Made(marks, i), e.stack[0];
    ParentIs(marks, e, i);
    AroundIs(marks, i);
    assert CondFollows(marks, |lines|, i, e.menus, cs, val);
    if Around(marks, i).None? {
      assert Path(e.menus, n, root) == [] + [n];
      AllMetSnoc(e.menus, [], n, cs.visible, val);
    } else {
      var p := Around(marks, i).value;
      PathTold(lines, e, val, p, cs);
      SaysAroundStep(marks, i, p, cs, val);
      RootHangsNot(e, n);
      AllMetSnoc(e.menus, Path(e.menus, Made(marks, p), root), n, cs.visible, val);
    }
  }

  lemma RootHangsNot(e: Building, n: nat)
    requires Forest(e) && |e.stack| > 0 && n < |e.menus| && e.menus[n].parent.Some?
    ensures n != e.stack[0]
  {
    if n == e.stack[0] {
      assert Loose(e, n);
    }
  }

  // The tree in the words of the text.

  /** Line p itself, if it is an `if`, and the `depends on` or `visible if` lines that belong
      to it are met. */
  ghost predicate LineSays(lines: seq<string>, p: nat, visible: bool, val: Expr -> bool)
    requires p < |lines|
  {
    && (visible && Cmd(lines[p]) == "if" ==> Met(CondOf(lines[p]), val))
    && forall j | p < j < |lines| && CurLine(Marks(lines), j) == Some(p) &&
                  Cmd(lines[j]) == (if visible then "visible" else "depends") :: Met(CondOf(lines[j]), val)
  }

  lemma LineSaysIs(lines: seq<string>, p: nat, visible: bool, val: Expr -> bool)
    requires p < |lines|
    ensures LineSays(lines, p, visible, val) <==> Says(Marks(lines), |lines|, p, CondsOf(lines, visible), val)
  {
    var marks, cs := Marks(lines), CondsOf(lines, visible);
    if LineSays(lines, p, visible, val) {
      forall j | p < j < |lines| && CurLine(marks, j) == Some(p) ensures Met(cs.adds[j], val) {
        assert cs.adds[j] == AddsOf(lines[j], visible);
      }
    }
    if Says(marks, |lines|, p, cs, val) {
      forall j | p < j < |lines| && CurLine(marks, j) == Some(p) &&
                 Cmd(lines[j]) == (if visible then "visible" else "depends")
        ensures Met(CondOf(lines[j]), val)
      {
        assert Met(cs.adds[j], val);
      }
    }
  }

  /** So are those of all lines around line i. */
  ghost predicate AllSay(lines: seq<string>, i: nat, visible: bool, val: Expr -> bool)
    requires i < |lines|
  {
    var around := OpenAt(Marks(lines), i);
    && LineSays(lines, i, visible, val)
    && forall q | 0 <= q < |around| :: around[q] < |lines| && LineSays(lines, around[q], visible, val)
  }

  lemma AllSayIs(lines: seq<string>, i: nat, visible: bool, val: Expr -> bool)
    requires i < |lines|
    ensures AllSay(lines, i, visible, val) <==> SaysAround(Marks(lines), i, CondsOf(lines, visible), val)
  {
    var marks, cs := Marks(lines), CondsOf(lines, visible);
    LineSaysIs(lines, i, visible, val);
    forall q | 0 <= q < |OpenAt(marks, i)|
      ensures OpenAt(marks, i)[q] < |lines|
      ensures LineSays(lines, OpenAt(marks, i)[q], visible, val) <==>
              Says(marks, |lines|, OpenAt(marks, i)[q], cs, val)
    {
      OpenBelow(marks, i, q);
      LineSaysIs(lines, OpenAt(marks, i)[q], visible, val);
    }
  }

  /** The node of line i: its kind, its name and its place. */
  predicate NodeTold(lines: seq<string>, i: nat, menus: seq<Menu>)
    requires i < |lines|
  {
    var marks := Marks(lines);
    var n := Made(marks, i);
    && n < |menus| && menus[n].kind == KindOf(lines[i]) && menus[n].name == NameOf(lines[i])
    && menus[n].parent == if Around(marks, i).Some? then Some(Made(marks, Around(marks, i).value)) else None
  }

  /** Its two conditions. */
  ghost predicate ConditionsTold(lines: seq<string>, i: nat, menus: seq<Menu>, val: Expr -> bool)
    requires i < |lines|
  {
    var n := Made(Marks(lines), i);
    && n < |menus|
    && (Met(menus[n].dependsOn, val) <==> AllSay(lines, i, false, val))
    && (Met(menus[n].visibleIf, val) <==> AllSay(lines, i, true, val))
  }

  lemma NodeIsTold(lines: seq<string>, e: Building, val: Expr -> bool, menus: seq<Menu>, i: nat)
    requires Built(lines, e, val) && WalkedAll(e.menus, menus, e.stack[0], None, None)
    requires i < |lines| && IsNode(Marks(lines)[i])
    ensures NodeTold(lines, i, menus)
  {
    var marks := Marks(lines);
    ParentIs(marks, e, i);
    assert HeadFollows(marks, i, e.menus, HeadsOf(lines));
  }

  lemma ConditionIsTold(lines: seq<string>, e: Building, val: Expr -> bool, menus: seq<Menu>, i: nat, visible: bool)
    requires Built(lines, e, val) && WalkedAll(e.menus, menus, e.stack[0], None, None)
    requires i < |lines| && IsNode(Marks(lines)[i])
    ensures var n := Made(Marks(lines), i);
            n < |menus| && (Met(Own(menus[n], visible), val) <==> AllSay(lines, i, visible, val))
  {
    var marks := Marks(lines);
    var n := Made(marks, i);
    PathTold(lines, e, val, i, CondsOf(lines, visible));
    InheritedMeans(e.menus, n, e.stack[0], None, visible, val);
    AllSayIs(lines, i, visible, val);
  }
}
