/** What can be told of a parse (kconfig/kconfig.go) from the text of the file: the
    builder's commands are those of the lines in order, the tree is complete exactly when
    they balance, and a help text takes one line too many. */
module KconfigTree {
  import opened Options
  import opened KconfigExpr
  import opened KconfigMenu
  import opened KconfigLines
  import opened KconfigGrammar
  import S = KconfigScan

  /** The logical lines of a file. */
  function Lines(data: string): seq<string>
    decreases |data|
  {
    if data == "" then []
    else
      var s := S.NextLogical(data);
      [s.line] + Lines(s.data)
  }

  // The commands of a whole parse.

  lemma ReachedMore(cmds: seq<Command>, b: Building, c: Command)
    requires Reached(cmds, b) && GoodCommand(c)
    ensures Forest(b) && Reached(cmds + [c], Apply(b, c))
  {
    ReachedForest(cmds, b);
    assert (cmds + [c])[..|cmds|] == cmds;
  }

  function Commands(c: Option<Command>): seq<Command> { if c.Some? then [c.value] else [] }

  lemma EffectReaches(b: Building, w: Word, rest: string, err: bool, cmds: seq<Command>)
    requires Reached(cmds, b) && Forest(b)
    ensures Reached(cmds + Commands(CommandOf(w, rest, err)), LineEffect(b, w, rest, err))
  {
    var c := CommandOf(w, rest, err);
    if c.Some? {
      ReachedMore(cmds, b, c.value);
    } else {
      assert cmds + [] == cmds;
    }
  }

  lemma PlainReaches(w: Word, rest: string, err: bool, data: string, st: State, cmds: seq<Command>)
    returns (all: seq<Command>)
    requires Reached(cmds, st.b) && Forest(st.b)
    ensures Reached(all, PlainRun(w, rest, err, data, st).st.b)
  {
    EffectReaches(st.b, w, rest, err, cmds);
    all := cmds + Commands(CommandOf(w, rest, err));
  }

  lemma {:induction false} SourceReaches(fs: Files, rank: map<string, nat>, top: nat, rest: string, err: bool,
                                         st: State, cmds: seq<Command>) returns (all: seq<Command>)
    requires AcyclicIncludes(fs, rank) && RankedFile(fs, rank, S.FileOperand(rest, err), top)
    requires Reached(cmds, st.b) && Forest(st.b)
    ensures Reached(all, SourceRun(fs, rank, top, rest, err, st).b)
    decreases top, 0, 0
  {
    var file := S.FileOperand(rest, err);
    if file == "" {
      all := cmds;
    } else {
      ReachedMore(cmds, st.b, New(None));
      ApplyKeeps(st.b, New(None));
      all := cmds + [New(None)];
      if file in fs {
        all := FileReaches(fs, rank, rank[file], fs[file], State(NewCurrent(st.b, None), st.help, false), all);
      }
    }
  }

  lemma {:induction false} WordReaches(fs: Files, rank: map<string, nat>, top: nat, cmd: string, rest: string,
                                       err: bool, data: string, st: State, cmds: seq<Command>)
    returns (all: seq<Command>)
    requires AcyclicIncludes(fs, rank) && Ranked(fs, rank, data, top) && Reached(cmds, st.b) && Forest(st.b)
    requires cmd == "source" ==> RankedFile(fs, rank, S.FileOperand(rest, err), top)
    ensures Reached(all, WordRun(fs, rank, top, cmd, rest, err, data, st).st.b)
    decreases top, 1, 0
  {
    if cmd == "source" {
      all := SourceReaches(fs, rank, top, rest, err, st, cmds);
    } else {
      all := PlainReaches(WordOf(cmd), rest, err, data, st, cmds);
    }
  }

  lemma {:induction false} CommandReaches(fs: Files, rank: map<string, nat>, top: nat, line: string, data: string,
                                          st: State, cmds: seq<Command>) returns (all: seq<Command>)
    requires AcyclicIncludes(fs, rank) && RankedLine(fs, rank, line, top) && Ranked(fs, rank, data, top)
    requires S.SkipSpaces(line) != "" && !("#" <= S.SkipSpaces(line)) && Reached(cmds, st.b) && Forest(st.b)
    ensures Reached(all, CommandRun(fs, rank, top, line, data, st).st.b)
    decreases top, 2, 0
  {
    var t := S.ScanIdent(S.SkipSpaces(line), false);
    if Assigns(t.rest) {
      all := cmds;
    } else {
      all := WordReaches(fs, rank, top, t.text, t.rest, t.err, data, st, cmds);
    }
  }

  lemma {:induction false} LineReaches(fs: Files, rank: map<string, nat>, top: nat, line: string, data: string,
                                       st: State, cmds: seq<Command>) returns (all: seq<Command>)
    requires AcyclicIncludes(fs, rank) && RankedLine(fs, rank, line, top) && Ranked(fs, rank, data, top)
    requires Reached(cmds, st.b) && Forest(st.b) && !st.err
    ensures Reached(all, LineRun(fs, rank, top, line, data, st).st.b)
    decreases top, 3, 0
  {
    var r := S.SkipSpaces(line);
    if r == "" || (st.help != 0 && Indent(line) >= st.help) || "#" <= r {
      all := cmds;
    } else {
      all := CommandReaches(fs, rank, top, line, data, st.(help := 0), cmds);
    }
  }

  /** Whatever the file and its includes hold, the parse is a run of the builder. */
  lemma {:induction false} FileReaches(fs: Files, rank: map<string, nat>, top: nat, data: string,
                                       st: State, cmds: seq<Command>) returns (all: seq<Command>)
    requires AcyclicIncludes(fs, rank) && Ranked(fs, rank, data, top) && Reached(cmds, st.b) && Forest(st.b)
    ensures Reached(all, FileRun(fs, rank, top, data, st).b)
    decreases top, 4, |data|
  {
    if st.err || data == "" {
      ReachedMore(cmds, st.b, End);
      all := cmds + [End];
    } else {
      var s := S.NextLogical(data);
      var o := LineRun(fs, rank, top, s.line, s.data, st);
      var more := LineReaches(fs, rank, top, s.line, s.data, st, cmds);
      all := FileReaches(fs, rank, top, o.data, o.st, more);
    }
  }

  // Files without includes and help texts.

  /** The first word of a line that is not blank, a comment or a macro. */
  function LineWord(line: string): Option<Word> {
    var r := S.SkipSpaces(line);
    var t := S.ScanIdent(r, false);
    if r == "" || "#" <= r || Assigns(t.rest) then None else Some(WordOf(t.text))
  }

  predicate PlainLine(line: string) { LineWord(line) != Some(Source) && LineWord(line) != Some(Help) }

  predicate PlainText(lines: seq<string>) { forall k | 0 <= k < |lines| :: PlainLine(lines[k]) }

  function LineCommands(line: string): seq<Command> {
    var t := S.ScanIdent(S.SkipSpaces(line), false);
    var w := LineWord(line);
    if w.Some? then Commands(CommandOf(w.value, t.rest, t.err)) else []
  }

  /** The builder and the error flag after one line. */
  function LineMeans(b: Building, line: string): (st: State)
    requires Forest(b)
    ensures Forest(st.b)
  {
    var r := S.SkipSpaces(line);
    var t := S.ScanIdent(r, false);
    var w := LineWord(line);
    if w.None? then State(b, 0, r != "" && !("#" <= r) && t.err)
    else
      LineEffectKeeps(b, w.value, t.rest, t.err);
      State(LineEffect(b, w.value, t.rest, t.err), 0, LineErr(b, w.value, t.rest, t.err))
  }

  /** Line by line, up to the first error. */
  function Fold(b: Building, lines: seq<string>): (st: State)
    requires Forest(b)
    ensures Forest(st.b)
    decreases |lines|
  {
    if lines == [] then State(b, 0, false)
    else
      var next := LineMeans(b, lines[0]);
      if next.err then next else Fold(next.b, lines[1..])
  }

  lemma WordIsNoSource(cmd: string)
    ensures WordOf(cmd) == Source <==> cmd == "source"
  {
  }

  lemma PlainLineRuns(fs: Files, rank: map<string, nat>, top: nat, line: string, data: string, b: Building)
    requires AcyclicIncludes(fs, rank) && RankedLine(fs, rank, line, top) && Ranked(fs, rank, data, top)
    requires Forest(b) && PlainLine(line)
    ensures LineRun(fs, rank, top, line, data, State(b, 0, false)) == Outcome(LineMeans(b, line), data)
  {
    var r := S.SkipSpaces(line);
    if r != "" && !("#" <= r) {
      var t := S.ScanIdent(r, false);
      var st := State(b, 0, false);
      assert LineRun(fs, rank, top, line, data, st) == CommandRun(fs, rank, top, line, data, st);
      if !Assigns(t.rest) {
        WordIsNoSource(t.text);
        assert CommandRun(fs, rank, top, line, data, st) == WordRun(fs, rank, top, t.text, t.rest, t.err, data, st);
      }
    }
  }

  /** `endCurrent` at the end of the file. */
  function Ended(st: State): State
    requires Forest(st.b)
  {
    State(EndCurrent(st.b), st.help, st.err || Homeless(st.b))
  }

  /** A file without includes and help texts is the fold of its lines. */
  lemma {:induction false} PlainFileFolds(fs: Files, rank: map<string, nat>, top: nat, data: string, b: Building)
    requires AcyclicIncludes(fs, rank) && Ranked(fs, rank, data, top) && Forest(b) && PlainText(Lines(data))
    ensures FileRun(fs, rank, top, data, State(b, 0, false)) == Ended(Fold(b, Lines(data)))
    decreases |data|
  {
    if data != "" {
      var s := S.NextLogical(data);
      var lines := Lines(data);
      assert lines[0] == s.line && lines[1..] == Lines(s.data);
      assert forall k | 0 <= k < |lines[1..]| :: lines[1..][k] == lines[k + 1];
      PlainLineRuns(fs, rank, top, s.line, s.data, b);
      var next := LineMeans(b, s.line);
      if !next.err {
        PlainFileFolds(fs, rank, top, s.data, next.b);
      }
    }
  }

  /** A `source` line ends the current entry and puts the lines of the file it names in its
      place; an error in them is one of the line, and so is a file that is not there. */
  lemma SourceFolds(fs: Files, rank: map<string, nat>, top: nat, rest: string, b: Building, file: string)
    requires AcyclicIncludes(fs, rank) && RankedFile(fs, rank, file, top) && Forest(b)
    requires file == S.FileOperand(rest, false) && file != "" && (file in fs ==> PlainText(Lines(fs[file])))
    ensures Forest(EndCurrent(b))
    ensures var r := SourceRun(fs, rank, top, rest, false, State(b, 0, false));
            if file !in fs then r.b == EndCurrent(b) && r.err
            else var inner := Ended(Fold(EndCurrent(b), Lines(fs[file])));
                 r.b == inner.b && (r.err <==> FileErr(rest, false) || Homeless(b) || inner.err)
  {
    ApplyKeeps(b, New(None));
    if file in fs {
      PlainFileFolds(fs, rank, rank[file], fs[file], EndCurrent(b));
    }
  }

  /** The commands of the lines, in order. */
  function CommandsOf(lines: seq<string>): seq<Command> {
    if lines == [] then [] else LineCommands(lines[0]) + CommandsOf(lines[1..])
  }

  lemma MeansReaches(b: Building, line: string, cmds: seq<Command>)
    requires Forest(b) && Reached(cmds, b)
    ensures Reached(cmds + LineCommands(line), LineMeans(b, line).b)
  {
    var t := S.ScanIdent(S.SkipSpaces(line), false);
    var w := LineWord(line);
    if w.Some? {
      EffectReaches(b, w.value, t.rest, t.err, cmds);
    } else {
      assert cmds + [] == cmds;
    }
  }

  lemma Regroup(a: seq<Command>, b: seq<Command>, c: seq<Command>)
    ensures a + (b + c) == (a + b) + c
  {
  }

  lemma CommandsSplit(cmds: seq<Command>, lines: seq<string>)
    requires lines != []
    ensures cmds + CommandsOf(lines) == (cmds + LineCommands(lines[0])) + CommandsOf(lines[1..])
  {
    Regroup(cmds, LineCommands(lines[0]), CommandsOf(lines[1..]));
  }

  lemma StepReaches(b: Building, lines: seq<string>, cmds: seq<Command>) returns (next: Building, more: seq<Command>)
    requires Forest(b) && Reached(cmds, b) && lines != [] && !Fold(b, lines).err
    ensures Forest(next) && Reached(more, next) && Fold(b, lines) == Fold(next, lines[1..])
    ensures cmds + CommandsOf(lines) == more + CommandsOf(lines[1..])
  {
    MeansReaches(b, lines[0], cmds);
    CommandsSplit(cmds, lines);
    next, more := LineMeans(b, lines[0]).b, cmds + LineCommands(lines[0]);
  }

  lemma {:induction false} FoldReaches(b: Building, lines: seq<string>, cmds: seq<Command>)
    requires Forest(b) && Reached(cmds, b) && !Fold(b, lines).err
    ensures Reached(cmds + CommandsOf(lines), Fold(b, lines).b)
    decreases |lines|
  {
    if lines == [] {
      assert cmds + [] == cmds;
    } else {
      var next, more := StepReaches(b, lines, cmds);
      FoldReaches(next, lines[1..], more);
    }
  }

  /** A parse without errors built the commands of the file's lines, so its menus that
      stayed open, and with them what its tree lacks, can be read off the text. */
  lemma ParsedCompletely(fs: Files, rank: map<string, nat>, top: nat, data: string, end: State)
    requires AcyclicIncludes(fs, rank) && Ranked(fs, rank, data, top) && PlainText(Lines(data))
    requires end == FileRun(fs, rank, top, data, State(Empty, 0, false)) && !end.err
    ensures |end.b.stack| == Depth(CommandsOf(Lines(data)))
    ensures end.b.stack != [] ==>
              ((forall m | 0 <= m < |end.b.menus| :: RootOf(end.b.menus, m) == end.b.stack[0]) <==>
               Depth(CommandsOf(Lines(data))) == 1)
  {
    var lines := Lines(data);
    var cmds := CommandsOf(lines);
    PlainFileFolds(fs, rank, top, data, Empty);
    FoldReaches(Empty, lines, []);
    assert [] + cmds == cmds;
    ReachedMore(cmds, Fold(Empty, lines).b, End);
    ReachedDepth(cmds, Fold(Empty, lines).b);
    ReachedDepth(cmds + [End], end.b);
    assert (cmds + [End])[..|cmds|] == cmds;
    if end.b.stack != [] {
      CompleteByState(end.b);
    }
  }

  // Help texts.

  /** Columns: a tab reaches the next multiple of eight, any other character the next column. */
  lemma LevelIs(s: string, c: char)
    ensures c != '\t' ==> S.Level(s + [c]) == S.Level(s) + 1
    ensures c == '\t' ==> S.Level(s + [c]) % 8 == 0 && S.Level(s) < S.Level(s + [c]) <= S.Level(s) + 8
  {
    assert (s + [c])[..|s|] == s;
  }

  predicate BlankLine(line: string) { S.SkipSpaces(line) == "" }

  /** The line belongs to a help text whose first line is indented by `base`. */
  predicate InHelp(line: string, base: nat) { BlankLine(line) || Indent(line) >= base }

  /** The indentation of the first line that is not blank. */
  function BaseOf(lines: seq<string>): Option<nat> {
    if lines == [] then None
    else if BlankLine(lines[0]) then BaseOf(lines[1..])
    else Some(Indent(lines[0]))
  }

  predicate AllInHelp(lines: seq<string>, base: nat) { forall k | 0 <= k < |lines| :: InHelp(lines[k], base) }

  /** Line k is the first that does not belong to the help text. */
  predicate EndsHelp(lines: seq<string>, base: nat, k: nat) {
    k < |lines| && AllInHelp(lines[..k], base) && !InHelp(lines[k], base)
  }

  /** The help text with the given base, if there is one yet, took all lines, or those up
      to and with the first that does not belong to it. */
  ghost predicate Takes(lines: seq<string>, base: Option<nat>, h: HelpEnd) {
    if h.stop.None? then h.data == "" && (base.Some? ==> AllInHelp(lines, base.value))
    else base.Some? && exists k: nat :: TakesUpTo(lines, base.value, h, k)
  }

  ghost predicate TakesUpTo(lines: seq<string>, base: nat, h: HelpEnd, k: nat) {
    EndsHelp(lines, base, k) && h.stop == Some(lines[k]) && Lines(h.data) == lines[k + 1..]
  }

  lemma EndsHelpMore(line: string, lines: seq<string>, base: nat, k: nat)
    requires EndsHelp(lines, base, k) && InHelp(line, base)
    ensures EndsHelp([line] + lines, base, k + 1)
  {
    var all := [line] + lines;
    assert all[..k + 1] == [line] + lines[..k];
  }

  lemma TakesOneMore(line: string, lines: seq<string>, base: nat, h: HelpEnd)
    requires Takes(lines, Some(base), h) && InHelp(line, base)
    ensures Takes([line] + lines, Some(base), h)
  {
    var all := [line] + lines;
    if h.stop.Some? {
      var k: nat :| TakesUpTo(lines, base, h, k);
      EndsHelpMore(line, lines, base, k);
      assert all[k + 2..] == lines[k + 1..];
      assert TakesUpTo(all, base, h, k + 1);
    }
  }

  lemma {:induction false} HelpTakes(data: string, base: Option<nat>, help: nat)
    ensures Takes(Lines(data), if base.Some? then base else BaseOf(Lines(data)), HelpText(data, base, help))
    decreases |data|
  {
    if data != "" {
      var s := S.NextLogical(data);
      var lines, rest := Lines(data), Lines(s.data);
      assert lines == [s.line] + rest && lines[1..] == rest && lines[..0] == [];
      var b := if base.Some? then base else BaseOf(lines);
      if BlankLine(s.line) {
        HelpTakes(s.data, base, help);
        if b.Some? {
          TakesOneMore(s.line, rest, b.value, HelpText(s.data, base, help));
        }
      } else if base.Some? && Indent(s.line) < base.value {
        assert TakesUpTo(lines, base.value, HelpText(data, base, help), 0);
      } else {
        HelpTakes(s.data, b, S.Level(s.line));
        TakesOneMore(s.line, rest, b.value, HelpText(s.data, b, S.Level(s.line)));
      }
    }
  }

  /** The line that ends a help text is passed over with it: parsing goes on at the line
      after the first one that is indented less than the help text's first line. No line is
      lost exactly when no later line is indented less. */
  lemma HelpLosesExactly(data: string, help: nat)
    ensures var lines := Lines(data);
            var base := BaseOf(lines);
            var h := HelpText(data, None, help);
            && (h.stop.None? <==> base.None? || AllInHelp(lines, base.value))
            && Takes(lines, base, h)
  {
    HelpTakes(data, None, help);
    var lines := Lines(data);
    var base := BaseOf(lines);
    var h := HelpText(data, None, help);
    if h.stop.Some? {
      var k: nat :| TakesUpTo(lines, base.value, h, k);
      assert !InHelp(lines[k], base.value);
    }
  }

  /** A line as it stands in a file. */
  predicate WholeLine(line: string) { '\n' !in line && (line == "" || line[|line| - 1] != '\\') }

  lemma {:induction false} FindsNewline(line: string, rest: string)
    requires '\n' !in line
    ensures S.IndexNl(line + ("\n" + rest)) == |line|
    decreases |line|
  {
    var data := line + ("\n" + rest);
    if line == "" {
      assert data[0] == '\n';
    } else {
      assert data[0] == line[0] && data[1..] == line[1..] + ("\n" + rest);
      FindsNewline(line[1..], rest);
    }
  }

  lemma ReadsWhole(line: string, rest: string)
    requires WholeLine(line)
    ensures S.NextLogical(line + ("\n" + rest)) == S.Split(line, rest)
  {
    var data := line + ("\n" + rest);
    FindsNewline(line, rest);
    assert data[..|line|] == line && data[|line| + 1..] == rest;
  }

  /** Lines that go on, as they stand in a file: each but the last ends in a backslash. */
  function Continued(parts: seq<string>): string
    requires parts != []
  {
    if |parts| == 1 then parts[0] else parts[0] + ("\\" + ("\n" + Continued(parts[1..])))
  }

  function Joined(parts: seq<string>): string {
    if parts == [] then "" else parts[0] + Joined(parts[1..])
  }

  lemma ReadsPart(line: string, rest: string, data: string)
    requires '\n' !in line && data == line + ("\n" + rest)
    ensures S.ReadLine(data) == S.Split(line, rest)
  {
    FindsNewline(line, rest);
    assert data[..|line|] == line && data[|line| + 1..] == rest;
  }

  lemma Reassociates(part: string, more: string, rest: string)
    ensures part + ("\\" + ("\n" + more)) + ("\n" + rest) == part + "\\" + ("\n" + (more + ("\n" + rest)))
  {
  }

  lemma HeadJoins(head: string, part: string, more: string)
    ensures head + (part + more) == head + part + more
  {
  }

  lemma JoinsOn(head: string, part: string, data: string)
    requires data != ""
    ensures var next := S.ReadLine(data);
            S.JoinLines(head + (part + "\\"), data) == S.JoinLines(head + part + next.line, next.data)
  {
    var line := head + (part + "\\");
    assert line[|line| - 1] == '\\' && line[..|line| - 1] == head + part;
  }

  lemma {:induction false} ReadsContinued(parts: seq<string>, rest: string, head: string)
    requires parts != [] && NoNewlines(parts) && WholeEnd(head + Joined(parts))
    ensures var s := S.ReadLine(Continued(parts) + ("\n" + rest));
            S.JoinLines(head + s.line, s.data) == S.Split(head + Joined(parts), rest)
    decreases |parts|
  {
    if |parts| == 1 {
      ReadsPart(parts[0], rest, Continued(parts) + ("\n" + rest));
      assert Joined(parts) == parts[0] + "" == parts[0];
    } else {
      var part, tail := parts[0], parts[1..];
      HeadJoins(head, part, Joined(tail));
      ReadsContinued(tail, rest, head + part);
      ReadsOn(head, part, Continued(tail), rest, Joined(tail));
    }
  }

  lemma ReadsOn(head: string, part: string, more: string, rest: string, joined: string)
    requires '\n' !in part
    requires var next := S.ReadLine(more + ("\n" + rest));
             S.JoinLines(head + part + next.line, next.data) == S.Split(head + part + joined, rest)
    ensures var s := S.ReadLine(part + ("\\" + ("\n" + more)) + ("\n" + rest));
            S.JoinLines(head + s.line, s.data) == S.Split(head + (part + joined), rest)
  {
    var data := more + ("\n" + rest);
    Reassociates(part, more, rest);
    ReadsPart(part + "\\", data, part + ("\\" + ("\n" + more)) + ("\n" + rest));
    JoinsOn(head, part, data);
    HeadJoins(head, part, joined);
  }

  predicate NoNewlines(parts: seq<string>) { parts == [] || ('\n' !in parts[0] && NoNewlines(parts[1..])) }

  predicate WholeEnd(line: string) { line == "" || line[|line| - 1] != '\\' }

  lemma NoHead(line: string)
    ensures "" + line == line
  {
  }

  lemma NextIs(data: string, line: string, rest: string)
    requires var first := S.ReadLine(data); S.JoinLines("" + first.line, first.data) == S.Split(line, rest)
    ensures S.NextLogical(data) == S.Split(line, rest)
  {
    NoHead(S.ReadLine(data).line);
  }

  /** So the next logical line of a file is its continued lines, joined. */
  lemma LogicalIsJoined(parts: seq<string>, rest: string, data: string)
    requires parts != [] && NoNewlines(parts) && WholeEnd(Joined(parts)) && data == Continued(parts) + ("\n" + rest)
    ensures S.NextLogical(data) == S.Split(Joined(parts), rest)
  {
    NoHead(Joined(parts));
    ReadsContinued(parts, rest, "");
    NextIs(data, Joined(parts), rest);
  }

  /** The line after a help text of one line is lost. */
  lemma LineAfterHelpIsLost(text: string, line: string, rest: string, help: nat)
    requires WholeLine(text) && WholeLine(line) && !BlankLine(text) && !BlankLine(line) && Indent(line) < Indent(text)
    ensures HelpText(text + ("\n" + (line + ("\n" + rest))), None, help) == HelpEnd(rest, S.Level(text), Some(line))
  {
    var after := line + ("\n" + rest);
    ReadsWhole(text, after);
    ReadsWhole(line, rest);
    assert HelpText(after, Some(Indent(text)), S.Level(text)) == HelpEnd(rest, S.Level(text), Some(line));
  }

  /** A line that begins with a word and goes on with a name. */
  lemma FirstWord(word: string, name: string, line: string)
    requires line == word + (" " + name) && word != "" && forall i | 0 <= i < |word| :: S.IsIdent(word[i])
    requires name != "" && S.IsIdent(name[0])
    ensures LineWord(line) == Some(WordOf(word))
  {
    IdentSpan(word, " " + name);
    assert S.IsIdent(line[0]) && S.SkipSpaces(line) == line;
    assert line[..|word|] == word && line[|word|..] == " " + name;
    assert (" " + name)[1..] == name;
    assert S.SkipSpaces(" " + name) == name;
  }

  lemma IndentedText(text: string)
    requires text == "  Text."
    ensures WholeLine(text) && !BlankLine(text) && Indent(text) == 2
  {
    assert S.SkipSpaces(text[1..]) == text[2..];
    assert S.SkipSpaces(text) == text[2..] && text[..2][..1] == text[..1] && text[..1][..0] == "";
    assert S.Level(text[..1]) == 1 && S.Level(text[..2]) == 2;
  }

  lemma ConfigLine(word: string, name: string, line: string)
    requires word == "config" && name == "B" && line == word + (" " + name)
    ensures WholeLine(line) && !BlankLine(line) && Indent(line) == 0 && LineWord(line) == Some(Config)
  {
    FirstWord(word, name, line);
    assert line[0] == 'c' && line[7] == 'B' && |line| == 8;
    assert S.SkipSpaces(line) == line && line[..0] == "";
  }

  /** A config that follows a help text is not declared. */
  lemma ConfigAfterHelpIsLost(text: string, word: string, name: string, line: string, rest: string)
    requires text == "  Text." && word == "config" && name == "B" && line == word + (" " + name)
    ensures LineWord(line) == Some(Config)
    ensures HelpText(text + ("\n" + (line + ("\n" + rest))), None, 0) == HelpEnd(rest, S.Level(text), Some(line))
  {
    IndentedText(text);
    ConfigLine(word, name, line);
    LineAfterHelpIsLost(text, line, rest, 0);
  }
}
