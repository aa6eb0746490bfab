/** The configs of a parsed file are those that its lines declare, and the whole of what a
    parse gives is told from the text. */
module KconfigDeclared {
  import opened Options
  import opened KconfigExpr
  import opened KconfigMenu
  import opened KconfigWalk
  import opened KconfigLines
  import opened KconfigText
  import opened KconfigShape
  import opened KconfigMeaning
  import opened KconfigSays
  import T = KconfigTree

  /** Line i declares a config of this name; a main menu is one without a name. */
  predicate Declares(line: string, name: string) {
    (DeclaresConfig(line) && name == NameOf(line)) || (Cmd(line) == "mainmenu" && name == "")
  }

  lemma DeclaresIs(line: string, name: string)
    ensures Declares(line, name) <==> IsNode(MarkOf(line)) && KindOf(line) == MenuConfig && NameOf(line) == name
  {
  }

  predicate HasConfig(menus: seq<Menu>, n: nat, name: string) {
    n < |menus| && menus[n].kind == MenuConfig && menus[n].name == name
  }

  /** The order holds a config of this name. */
  ghost predicate HoldsConfig(menus: seq<Menu>, order: seq<nat>, name: string) {
    exists n | n in order :: HasConfig(menus, n, name)
  }

  lemma HoldsMore(menus: seq<Menu>, order: seq<nat>, name: string)
    requires order != []
    ensures HoldsConfig(menus, order, name) <==>
            HasConfig(menus, order[0], name) || HoldsConfig(menus, order[1..], name)
  {
    var m, rest := order[0], order[1..];
    assert order == [m] + rest;
    if HoldsConfig(menus, rest, name) {
      var n :| n in rest && HasConfig(menus, n, name);
      assert n in order;
    }
    if HasConfig(menus, m, name) {
      assert m in order;
    }
    if HoldsConfig(menus, order, name) {
      var n :| n in order && HasConfig(menus, n, name);
      if n != m { assert n in rest; }
    }
  }

  lemma {:induction false} RegisterKeys(configs: map<string, nat>, menus: seq<Menu>, order: seq<nat>, name: string)
    requires AllBelow(order, |menus|)
    ensures name in Register(configs, menus, order) <==> name in configs || HoldsConfig(menus, order, name)
    decreases |order|
  {
    if order != [] {
      var m := order[0];
      var next := if menus[m].kind == MenuConfig then configs[menus[m].name := m] else configs;
      RegisterKeys(next, menus, order[1..], name);
      HoldsMore(menus, order, name);
    }
  }

  lemma {:induction false} RegisterMaps(configs: map<string, nat>, menus: seq<Menu>, order: seq<nat>, name: string)
    requires AllBelow(order, |menus|) && name in Register(configs, menus, order)
    requires name in configs ==> HasConfig(menus, configs[name], name)
    ensures HasConfig(menus, Register(configs, menus, order)[name], name)
    decreases |order|
  {
    if order != [] {
      var m := order[0];
      var next := if menus[m].kind == MenuConfig then configs[menus[m].name := m] else configs;
      RegisterMaps(next, menus, order[1..], name);
    }
  }

  lemma {:induction false} MadeHits(marks: seq<Mark>, k: nat, n: nat) returns (i: nat)
    requires k <= |marks| && n < Made(marks, k)
    ensures i < k && IsNode(marks[i]) && Made(marks, i) == n
    decreases k
  {
    if IsNode(marks[k - 1]) && n == Made(marks, k - 1) {
      i := k - 1;
    } else {
      i := MadeHits(marks, k - 1, n);
    }
  }

  /** The result of the walk over what was built. */
  ghost predicate WalkedTree(
      lines: seq<string>, e: Building, val: Expr -> bool, menus: seq<Menu>, configs: map<string, nat>) {
    && Built(lines, e, val) && Linked(menus) && WalkedAll(e.menus, menus, e.stack[0], None, None)
    && AllBelow(Preorder(menus, e.stack[0]), |menus|)
    && configs == Register(map[], menus, Preorder(menus, e.stack[0]))
  }

  lemma ConfigIsDeclared(lines: seq<string>, e: Building, val: Expr -> bool, menus: seq<Menu>, n: nat, name: string)
    requires Built(lines, e, val) && WalkedAll(e.menus, menus, e.stack[0], None, None) && HasConfig(menus, n, name)
    ensures exists i :: 0 <= i < |lines| && Declares(lines[i], name)
  {
    var i := MadeHits(Marks(lines), |lines|, n);
    NodeIsTold(lines, e, val, menus, i);
    DeclaresIs(lines[i], name);
  }

  lemma DeclaredIsConfig(
      lines: seq<string>, e: Building, val: Expr -> bool, menus: seq<Menu>, configs: map<string, nat>, i: nat,
      name: string)
    requires WalkedTree(lines, e, val, menus, configs) && i < |lines| && Declares(lines[i], name)
    ensures name in configs
  {
    var marks := Marks(lines);
    DeclaresIs(lines[i], name);
    var n := Made(marks, i);
    NodeIsTold(lines, e, val, menus, i);
    PathTold(lines, e, val, i, CondsOf(lines, false));
    SameShapeUnder(e.menus, menus, n, e.stack[0]);
    PreorderIsUnder(menus, e.stack[0], n);
    assert HasConfig(menus, n, name);
    assert HoldsConfig(menus, Preorder(menus, e.stack[0]), name);
    RegisterKeys(map[], menus, Preorder(menus, e.stack[0]), name);
  }

  lemma KeysAreDeclared(
      lines: seq<string>, e: Building, val: Expr -> bool, menus: seq<Menu>, configs: map<string, nat>, name: string)
    requires WalkedTree(lines, e, val, menus, configs)
    ensures name in configs <==> exists i :: 0 <= i < |lines| && Declares(lines[i], name)
    ensures name in configs ==> HasConfig(menus, configs[name], name)
  {
    if name in configs {
      RegisterMaps(map[], menus, Preorder(menus, e.stack[0]), name);
      ConfigIsDeclared(lines, e, val, menus, configs[name], name);
    }
    if i :| 0 <= i < |lines| && Declares(lines[i], name) {
      DeclaredIsConfig(lines, e, val, menus, configs, i, name);
    }
  }

  /** The result of a parse, in the words of the text. */
  ghost predicate TreeTold(lines: seq<string>, menus: seq<Menu>, configs: map<string, nat>) {
    && |menus| == Made(Marks(lines), |lines|)
    && (forall i | 0 <= i < |lines| && IsNode(Marks(lines)[i]) :: NodeTold(lines, i, menus))
    && (forall val: Expr -> bool, i | 0 <= i < |lines| && IsNode(Marks(lines)[i]) ::
          ConditionsTold(lines, i, menus, val))
    && (forall name :: name in configs <==> exists i :: 0 <= i < |lines| && Declares(lines[i], name))
    && (forall name | name in configs :: HasConfig(menus, configs[name], name))
  }

  lemma WalkedTreeTold(lines: seq<string>, e: Building, menus: seq<Menu>, configs: map<string, nat>)
    requires forall val: Expr -> bool :: WalkedTree(lines, e, val, menus, configs)
    ensures TreeTold(lines, menus, configs)
  {
    var any: Expr -> bool := _ => true;
    assert WalkedTree(lines, e, any, menus, configs);
    forall i | 0 <= i < |lines| && IsNode(Marks(lines)[i]) ensures NodeTold(lines, i, menus) {
      NodeIsTold(lines, e, any, menus, i);
    }
    forall val: Expr -> bool, i | 0 <= i < |lines| && IsNode(Marks(lines)[i])
      ensures ConditionsTold(lines, i, menus, val)
    {
      assert WalkedTree(lines, e, val, menus, configs);
      ConditionIsTold(lines, e, val, menus, i, false);
      ConditionIsTold(lines, e, val, menus, i, true);
    }
    forall name
      ensures name in configs <==> exists i :: 0 <= i < |lines| && Declares(lines[i], name)
      ensures name in configs ==> HasConfig(menus, configs[name], name)
    {
      KeysAreDeclared(lines, e, any, menus, configs, name);
    }
  }

  lemma FoldIsBuilt(lines: seq<string>, val: Expr -> bool)
    requires NoInclude(lines) && !T.Fold(Empty, lines).err && !Homeless(T.Fold(Empty, lines).b)
    requires T.Fold(Empty, lines).b.lost == {} && |OpenAt(Marks(lines), |lines|)| == 1
    ensures Built(lines, EndCurrent(T.Fold(Empty, lines).b), val)
  {
    assert lines[0..] == lines;
    EmptyTold(lines, val);
    FoldTold(lines, 0, Empty, val);
    BuiltIs(lines, T.Fold(Empty, lines).b, val);
  }

  /** No includes, no help texts, and every menu but the outermost is closed. */
  predicate Balanced(lines: seq<string>) {
    NoInclude(lines) && |OpenAt(Marks(lines), |lines|)| == 1
  }

  lemma NoIncludeIsPlain(lines: seq<string>)
    requires NoInclude(lines)
    ensures T.PlainText(lines)
  {
    forall k | 0 <= k < |lines| ensures T.PlainLine(lines[k]) {
      PlainTold(lines[k]);
    }
  }

  lemma EndIsFold(fs: Files, rank: map<string, nat>, top: nat, data: string, end: State)
    requires AcyclicIncludes(fs, rank) && Ranked(fs, rank, data, top) && NoInclude(T.Lines(data))
    requires end == FileRun(fs, rank, top, data, State(Empty, 0, false)) && !end.err
    ensures var f := T.Fold(Empty, T.Lines(data));
            !f.err && !Homeless(f.b) && f.b.lost == {} && end.b == EndCurrent(f.b)
  {
    NoIncludeIsPlain(T.Lines(data));
    T.PlainFileFolds(fs, rank, top, data, Empty);
  }

  /** What a successful parse of a balanced file gives is told by its lines. */
  lemma ParsedIsTold(fs: Files, rank: map<string, nat>, top: nat, data: string, end: State,
                     menus: seq<Menu>, configs: map<string, nat>)
    requires AcyclicIncludes(fs, rank) && Ranked(fs, rank, data, top) && Balanced(T.Lines(data))
    requires end == FileRun(fs, rank, top, data, State(Empty, 0, false)) && !end.err && end.b.stack != []
    requires Linked(menus) && WalkedAll(end.b.menus, menus, end.b.stack[0], None, None)
    requires end.b.stack[0] < |menus| && AllBelow(Preorder(menus, end.b.stack[0]), |menus|)
    requires configs == Register(map[], menus, Preorder(menus, end.b.stack[0]))
    ensures TreeTold(T.Lines(data), menus, configs)
  {
    var lines := T.Lines(data);
    EndIsFold(fs, rank, top, data, end);
    forall val: Expr -> bool ensures WalkedTree(lines, end.b, val, menus, configs) {
      FoldIsBuilt(lines, val);
    }
    WalkedTreeTold(lines, end.b, menus, configs);
  }
}
