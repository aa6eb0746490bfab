/** Parsing a whole Kconfig file with its includes (kconfig/kconfig.go): each
    line feeds the menu builder. Types, prompts, defaults and help texts are read
    but not kept. Every method computes the function of KconfigLines, errors
    included. */
module KconfigFile {
  import opened Options
  import opened KconfigExpr
  import opened KconfigMenu
  import opened KconfigLines
  import opened KconfigWalk
  import opened KconfigParser
  import opened KconfigText
  import opened KconfigMeaning
  import opened KconfigDeclared
  import opened KconfigFaults
  import T = KconfigTree
  import S = KconfigScan

  class FileParser {
    var p: Parser
    const b: Builder
    const fs: Files
    var helpIdent: nat

    constructor (data: string, fs: Files)
      ensures fresh(p) && fresh(b) && Valid() && this.fs == fs
      ensures p.data == data && Now() == State(Empty, 0, false)
    {
      p := new Parser(data);
      b := new Builder();
      this.fs, helpIdent := fs, 0;
    }

    ghost predicate Valid()
      reads this, p, b
    {
      p.Valid() && Forest(b.State())
    }

    ghost function Now(): State
      reads this, p, b
    {
      State(b.State(), helpIdent, p.err)
    }

    twostate predicate Kept()
      reads this, p
    {
      p.Valid() && p == old(p)
    }

    /** As above, on the same line, with the cursor not moved back. */
    twostate predicate KeptLine()
      reads this, p
    {
      Kept() && p.data == old(p.data) && p.current == old(p.current) && old(p.col) <= p.col
    }

    method Note(fail: bool)
      modifies p`err
      ensures p.err == (old(p.err) || fail)
    {
      if fail {
        p.Failf();
      }
    }

    /** `current()`: a property needs an entry to belong to. */
    method Current() returns (ok: bool)
      requires p.Valid()
      modifies p`err
      ensures KeptLine() && ok == b.cur.Some? && p.err == (old(p.err) || b.cur.None?)
    {
      ok := b.cur.Some?;
      Note(!ok);
    }

    method TryIf()
      requires p.Valid()
      modifies p
      ensures KeptLine() && p.err == IfErr(old(p.Rest()), old(p.err))
    {
      var ok := p.TryConsume("if");
      if ok {
        var _ := p.ParseExpr();
      }
    }

    method TryParsePrompt()
      requires p.Valid() && (p.err || b.cur.Some?)
      modifies p
      ensures KeptLine() && p.err == PromptErr(old(p.Rest()), old(p.err))
    {
      var str, ok := p.TryQuotedString();
      if ok {
        TryIf();
        var _ := Current();
      }
    }

    method ParseDefaultValue()
      requires p.Valid() && (p.err || b.cur.Some?)
      modifies p
      ensures KeptLine() && p.err == DefaultErr(old(p.Rest()), old(p.err))
    {
      var _ := p.ParseExpr();
      TryIf();
      var _ := Current();
    }

    /** Reads on while lines are indented at least as far as the first one. */
    method TryParseHelp()
      requires p.Valid() && (p.err || b.cur.Some?)
      modifies this`helpIdent, p
      ensures Kept() && p.err == old(p.err)
      ensures if p.err then p.data == old(p.data) && helpIdent == old(helpIdent)
              else var h := HelpText(old(p.data), None, old(helpIdent)); p.data == h.data && helpIdent == h.help
    {
      var lines := 0;
      var base: int := -1;
      while true
        invariant Kept() && p.err == old(p.err) && base >= -1 && (lines > 0 <==> base >= 0)
        invariant p.err ==> p.data == old(p.data) && helpIdent == old(helpIdent)
        invariant !p.err ==> HelpText(p.data, if base < 0 then None else Some(base), helpIdent) ==
                             HelpText(old(p.data), None, old(helpIdent))
        decreases |p.data|
      {
        var more := p.NextLine();
        if !more {
          break;
        }
        assert p.current[p.col..] == S.SkipSpaces(p.current);
        assert p.col == |p.current| - |S.SkipSpaces(p.current)|;
        if p.Eol() {
          continue;
        }
        var level := p.IdentLevel();
        if lines > 0 && level < base {
          break;
        }
        if base == -1 {
          base := level;
        }
        var _ := p.ConsumeLine();
        lines := lines + 1;
        assert p.current[..p.col] == p.current;
        helpIdent := p.IdentLevel();
      }
      var _ := Current();
    }

    /** The conditions of an entry. */
    method ParseCondition(visible: bool)
      requires Valid()
      modifies p, b
      ensures KeptLine()
      ensures b.State() == AddCondition(old(b.State()), ConditionOf(old(p.Rest()), old(p.err), visible), visible)
      ensures p.err == ConditionErr(old(p.Rest()), old(p.err), visible)
    {
      p.MustConsume(if visible then "if" else "on");
      var ex := p.ParseExpr();
      b.DoAddCondition(ex, visible);
    }

    method ParseSelect()
      requires p.Valid()
      modifies p
      ensures KeptLine() && p.err == SelectErr(old(p.Rest()), old(p.err))
    {
      var _ := p.Ident();
      TryIf();
    }

    method ParseRange()
      requires p.Valid()
      modifies p
      ensures KeptLine() && p.err == RangeErr(old(p.Rest()), old(p.err))
    {
      var _ := p.ParseExpr();
      var _ := p.ParseExpr();
      TryIf();
    }

    /** `parseConfigType` and `parseProperty`: lines that belong to the current entry. */
    method ParseProperty(w: Word)
      requires Valid() && IsProperty(w) && w != Help
      modifies p, b
      ensures KeptLine()
      ensures b.State() == LineEffect(old(b.State()), w, old(p.Rest()), old(p.err))
      ensures p.err == PropertyErr(w, old(p.Rest()), old(p.err) || old(b.cur).None?)
    {
      var ok := Current();
      if w == Depends {
        ParseCondition(false);
      } else if w == Visible {
        ParseCondition(true);
      } else {
        assert CommandOf(w, p.Rest(), p.err) == None;
        ParseOperands(w);
      }
    }

    /** The properties that give the menus nothing. */
    method ParseOperands(w: Word)
      requires p.Valid() && IsProperty(w) && w != Depends && w != Visible && w != Help && (p.err || b.cur.Some?)
      modifies p
      ensures KeptLine() && p.err == PropertyErr(w, old(p.Rest()), old(p.err))
    {
      match w
      case PlainType => TryParsePrompt();
      case DefaultType => ParseDefaultValue();
      case Prompt => TryParsePrompt();
      case Select => ParseSelect();
      case OptionLine => var _ := p.ConsumeLine();
      case Flag =>
      case Default => ParseDefaultValue();
      case Range => ParseRange();
      case Unknown => p.Failf();
    }

    method Open(m: Menu)
      requires Valid() && Fresh(m)
      modifies p`err, b
      ensures KeptLine() && b.State() == PushCurrent(old(b.State()), m)
      ensures p.err == (old(p.err) || Homeless(old(b.State())))
    {
      var fail := b.DoPushCurrent(m);
      Note(fail);
    }

    method CloseMenu()
      requires Valid()
      modifies p`err, b
      ensures KeptLine() && b.State() == PopCurrent(old(b.State()))
      ensures p.err == (old(p.err) || Homeless(old(b.State())))
    {
      var fail := b.DoPopCurrent();
      Note(fail);
    }

    method Make(m: Option<Menu>)
      requires Valid() && (m.Some? ==> Fresh(m.value))
      modifies p`err, b
      ensures KeptLine() && Forest(b.State()) && b.State() == NewCurrent(old(b.State()), m)
      ensures p.err == (old(p.err) || Homeless(old(b.State())))
    {
      var fail := b.DoNewCurrent(m);
      Note(fail);
    }

    /** Lines that open, make or close something. */
    method ParseEntry(w: Word)
      requires Valid() && IsMenu(w)
      modifies p, b
      ensures KeptLine()
      ensures b.State() == LineEffect(old(b.State()), w, old(p.Rest()), old(p.err))
      ensures p.err == LineErr(old(b.State()), w, old(p.Rest()), old(p.err))
    {
      match w
      case MainMenu =>
        var _ := p.QuotedString();
        Open(NewMenu(MenuConfig, "", None));
      case Comment =>
        var _ := p.QuotedString();
        Make(Some(NewMenu(MenuComment, "", None)));
      case Group =>
        var _ := p.QuotedString();
        Open(NewMenu(MenuGroup, "", None));
      case If =>
        var ex := p.ParseExpr();
        Open(NewMenu(MenuGroup, "", Some(ex)));
      case Choice => Open(NewMenu(MenuChoice, "", None));
      case Close => CloseMenu();
      case Config =>
        var name := p.Ident();
        Make(Some(NewMenu(MenuConfig, name, None)));
    }

    /** `parseMenu` without `source`. */
    method ParseMenu(w: Word)
      requires Valid() && w != Source
      modifies this`helpIdent, p, b
      ensures Kept()
      ensures Outcome(Now(), p.data) ==
              PlainRun(w, old(p.Rest()), old(p.err), old(p.data), State(old(b.State()), old(helpIdent), false))
    {
      if w == Help {
        ParseHelp();
      } else {
        ParsePlain(w);
      }
    }

    method ParseHelp()
      requires p.Valid()
      modifies this`helpIdent, p
      ensures Kept() && p.err == (old(p.err) || b.cur.None?)
      ensures if p.err then p.data == old(p.data) && helpIdent == old(helpIdent)
              else var h := HelpText(old(p.data), None, old(helpIdent)); p.data == h.data && helpIdent == h.help
    {
      var _ := Current();
      TryParseHelp();
    }

    method ParsePlain(w: Word)
      requires Valid() && w != Source && w != Help
      modifies p, b
      ensures KeptLine()
      ensures b.State() == LineEffect(old(b.State()), w, old(p.Rest()), old(p.err))
      ensures p.err == LineErr(old(b.State()), w, old(p.Rest()), old(p.err))
    {
      if IsProperty(w) {
        ParseProperty(w);
      } else {
        ParseEntry(w);
      }
    }

    method ParseSource(ghost rank: map<string, nat>, ghost top: nat)
      requires Valid() && AcyclicIncludes(fs, rank)
      requires RankedFile(fs, rank, S.FileOperand(p.Rest(), p.err), top)
      modifies this, p, b
      ensures KeptLine()
      ensures Now() ==
              SourceRun(fs, rank, top, old(p.Rest()), old(p.err), State(old(b.State()), old(helpIdent), false))
      decreases top, 0, 1
    {
      ghost var r, e := p.Rest(), p.err;
      var file, ok := p.TryQuotedString();
      if !ok {
        file := p.ConsumeLine();
      }
      if file != "" {
        Make(None);
        IncludeSource(file, rank, top);
      }
    }

    /** The included file is read by a parser of its own, whose error is taken over. */
    method IncludeSource(file: string, ghost rank: map<string, nat>, ghost top: nat)
      requires Valid() && AcyclicIncludes(fs, rank) && RankedFile(fs, rank, file, top)
      modifies this, p, b
      ensures KeptLine()
      ensures file !in fs ==> Now() == old(Now()).(err := true)
      ensures file in fs ==>
                var inner := FileRun(fs, rank, rank[file], fs[file], old(Now()).(err := false));
                Now() == inner.(err := old(p.err) || inner.err)
      decreases top, 0, 0
    {
      if file !in fs {
        p.Failf();
        return;
      }
      var outer := p;
      p := new Parser(fs[file]);
      ParseFile(rank, rank[file]);
      var err := p.err;
      p := outer;
      Note(err);
    }

    /** A line that still belongs to the help text above it. */
    method SkipHelp() returns (skip: bool)
      requires p.Valid() && p.Rest() == S.SkipSpaces(p.current)
      modifies this`helpIdent, p`col
      ensures KeptLine() && p.err == old(p.err) && (!skip ==> p.col == old(p.col))
      ensures skip <==> old(helpIdent) != 0 && Indent(p.current) >= old(helpIdent)
      ensures helpIdent == if skip then old(helpIdent) else 0
    {
      assert p.col == |p.current| - |S.SkipSpaces(p.current)|;
      if helpIdent != 0 {
        var level := p.IdentLevel();
        if level >= helpIdent {
          var _ := p.ConsumeLine();
          return true;
        }
        helpIdent := 0;
      }
      return false;
    }

    method SkipComment() returns (skip: bool)
      requires p.Valid()
      modifies p`col
      ensures KeptLine() && p.err == old(p.err)
      ensures skip <==> "#" <= old(p.Rest())
      ensures !skip ==> p.Rest() == old(p.Rest())
    {
      skip := p.TryConsume("#");
      if skip {
        var _ := p.ConsumeLine();
      }
    }

    method SkipMacro() returns (skip: bool)
      requires p.Valid()
      modifies p`col
      ensures KeptLine() && p.err == old(p.err)
      ensures skip <==> Assigns(old(p.Rest()))
      ensures !skip ==> p.Rest() == old(p.Rest())
    {
      skip := p.TryConsume("=");
      if !skip {
        skip := p.TryConsume(":=");
      }
      if skip {
        var _ := p.ConsumeLine();
      }
    }

    method ParseLine(ghost rank: map<string, nat>, ghost top: nat)
      requires Valid() && AcyclicIncludes(fs, rank) && Ranked(fs, rank, p.data, top)
      requires !p.err && p.Rest() == S.SkipSpaces(p.current) && RankedLine(fs, rank, p.current, top)
      modifies this, p, b
      ensures Kept()
      ensures Outcome(Now(), p.data) == LineRun(fs, rank, top, old(p.current), old(p.data), old(Now()))
      decreases top, 3
    {
      if p.Eol() {
        return;
      }
      var skip := SkipHelp();
      if skip {
        return;
      }
      skip := SkipComment();
      if skip {
        return;
      }
      ParseCommand(rank, top);
    }

    /** A line that is neither blank nor a comment. */
    method ParseCommand(ghost rank: map<string, nat>, ghost top: nat)
      requires Valid() && AcyclicIncludes(fs, rank) && Ranked(fs, rank, p.data, top)
      requires !p.err && p.Rest() == S.SkipSpaces(p.current) && RankedLine(fs, rank, p.current, top)
      requires p.Rest() != "" && !("#" <= p.Rest())
      modifies this, p, b
      ensures Kept()
      ensures Outcome(Now(), p.data) == CommandRun(fs, rank, top, old(p.current), old(p.data), old(Now()))
      decreases top, 2
    {
      var ident := p.Ident();
      var skip := SkipMacro();
      if skip {
        return;
      }
      ParseWord(ident, rank, top);
    }

    method ParseWord(cmd: string, ghost rank: map<string, nat>, ghost top: nat)
      requires Valid() && AcyclicIncludes(fs, rank) && Ranked(fs, rank, p.data, top)
      requires cmd == "source" ==> RankedFile(fs, rank, S.FileOperand(p.Rest(), p.err), top)
      modifies this, p, b
      ensures Kept()
      ensures Outcome(Now(), p.data) == WordRun(fs, rank, top, cmd, old(p.Rest()), old(p.err), old(p.data),
                                                State(old(b.State()), old(helpIdent), false))
      decreases top, 1
    {
      if cmd == "source" {
        ParseSource(rank, top);
      } else {
        ParseMenu(WordOf(cmd));
      }
    }

    /** Terminates whatever the file holds, as long as includes are acyclic. */
    method ParseFile(ghost rank: map<string, nat>, ghost top: nat)
      requires Valid() && AcyclicIncludes(fs, rank) && Ranked(fs, rank, p.data, top)
      modifies this, p, b
      ensures Kept() && Now() == FileRun(fs, rank, top, old(p.data), old(Now()))
      decreases top, 4
    {
      ghost var goal := FileRun(fs, rank, top, p.data, Now());
      while true
        invariant Kept() && Valid() && Ranked(fs, rank, p.data, top) && FileRun(fs, rank, top, p.data, Now()) == goal
        decreases |p.data|
      {
        var more := p.NextLine();
        if !more {
          break;
        }
        ParseLine(rank, top);
        SkipTrailing();
      }
      var fail := b.DoEndCurrent();
      Note(fail);
    }

    /** A comment after the line; it leaves everything but the cursor. */
    method SkipTrailing()
      requires p.Valid()
      modifies p`col
      ensures KeptLine()
    {
      var hash := p.TryConsume("#");
      if hash {
        var _ := p.ConsumeLine();
      }
    }
  }

  /** What a finished build gives after `walk`: every entry of the root's tree has
      its own condition and those of all menus around it. */
  ghost predicate Finished(end: Building, menus: seq<Menu>, root: nat) {
    && Forest(end) && end.cur.None? && end.lost == {} && |end.stack| > 0 && end.stack[0] == root
    && WalkedAll(end.menus, menus, root, None, None)
  }

  /** `ParseData`: the nodes, the root and the entries by name, or an error. */
  method ParseData(data: string, fs: Files, ghost rank: map<string, nat>, ghost top: nat)
      returns (menus: seq<Menu>, root: Option<nat>, configs: map<string, nat>)
    requires AcyclicIncludes(fs, rank) && Ranked(fs, rank, data, top)
    ensures var end := FileRun(fs, rank, top, data, State(Empty, 0, false));
            && (root.Some? <==> !end.err && end.b.stack != [])
            && (root.Some? ==> Finished(end.b, menus, root.value))
    ensures var lines := T.Lines(data);
            NoInclude(lines) ==> (root.Some? <==> !Faulty(lines) && OpenAt(Marks(lines), |lines|) != [])
    ensures root.Some? && Balanced(T.Lines(data)) ==> TreeTold(T.Lines(data), menus, configs)
    ensures root.Some? ==> Linked(menus) && root.value < |menus|
    ensures root.Some? ==> AllBelow(Preorder(menus, root.value), |menus|)
    ensures root.Some? ==> configs == Register(map[], menus, Preorder(menus, root.value))
  {
    var kp := new FileParser(data, fs);
    kp.ParseFile(rank, top);
    if NoInclude(T.Lines(data)) {
      RefusedExactly(fs, rank, top, data, Empty);
    }
    if kp.p.err || |kp.b.stack| == 0 {
      return [], None, map[];
    }
    ghost var end := FileRun(fs, rank, top, data, State(Empty, 0, false));
    root := Some(kp.b.stack[0]);
    var kconf := new KConfigFile(kp.b.menus);
    kconf.Walk(root.value, None, None);
    menus, configs := kconf.menus, kconf.configs;
    if Balanced(T.Lines(data)) {
      ParsedIsTold(fs, rank, top, data, end, menus, configs);
    }
  }
}
