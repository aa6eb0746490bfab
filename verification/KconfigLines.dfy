/** What the lines of a Kconfig file mean (kconfig/kconfig.go), as functions of the
    text: the command each line gives the menu builder, the errors it records, how far
    a help text reaches, and the outcome of a whole file with its includes. */
module KconfigLines {
  import opened Options
  import opened KconfigExpr
  import opened KconfigMenu
  import S = KconfigScan

  /** The files by the name a `source` line gives them: relative names are
      resolved against one directory that is fixed for the whole parse. */
  type Files = map<string, string>

  /** Every file that the lines of `data` include has a smaller rank. */
  ghost predicate Ranked(fs: Files, rank: map<string, nat>, data: string, top: nat)
    decreases |data|
  {
    data == "" ||
    var s := S.NextLogical(data);
    RankedLine(fs, rank, s.line, top) && Ranked(fs, rank, s.data, top)
  }

  ghost predicate RankedLine(fs: Files, rank: map<string, nat>, line: string, top: nat) {
    var f := S.IncludeOf(line);
    f.Some? ==> RankedFile(fs, rank, f.value, top)
  }

  ghost predicate RankedFile(fs: Files, rank: map<string, nat>, file: string, top: nat) {
    file in fs ==> file in rank && rank[file] < top
  }

  /** No file includes itself, directly or through others. */
  ghost predicate AcyclicIncludes(fs: Files, rank: map<string, nat>) {
    forall f | f in fs :: f in rank && Ranked(fs, rank, fs[f], rank[f])
  }

  // One line.

  /** The first words that the parser tells apart. */
  datatype Word =
    | Source
    | MainMenu
    | Comment
    | Group
    | If
    | Choice
    | Close
    | Config
    | PlainType
    | DefaultType
    | Prompt
    | Depends
    | Visible
    | Select
    | OptionLine
    | Flag
    | Default
    | Range
    | Help
    | Unknown

  function WordOf(cmd: string): Word {
    match cmd
    case "source" => Source
    case "mainmenu" => MainMenu
    case "comment" => Comment
    case "menu" => Group
    case "if" => If
    case "choice" => Choice
    case "endmenu" => Close
    case "endif" => Close
    case "endchoice" => Close
    case "config" => Config
    case "menuconfig" => Config
    case _ => TypeOf(cmd)
  }

  function TypeOf(typ: string): (w: Word)
    ensures w != Source
  {
    match typ
    case "tristate" => PlainType
    case "bool" => PlainType
    case "int" => PlainType
    case "hex" => PlainType
    case "string" => PlainType
    case "def_tristate" => DefaultType
    case "def_bool" => DefaultType
    case "def_int" => DefaultType
    case "def_hex" => DefaultType
    case "def_string" => DefaultType
    case _ => PropertyOf(typ)
  }

  function PropertyOf(prop: string): (w: Word)
    ensures w != Source
  {
    match prop
    case "prompt" => Prompt
    case "depends" => Depends
    case "visible" => Visible
    case "select" => Select
    case "imply" => Select
    case "option" => OptionLine
    case "modules" => Flag
    case "optional" => Flag
    case "default" => Default
    case "range" => Range
    case "help" => Help
    case "---help---" => Help
    case _ => Unknown
  }

  function NewMenu(kind: MenuKind, name: string, visibleIf: Option<Expr>): Menu {
    Menu(kind, name, None, visibleIf, None, [])
  }

  /** The condition that a line `depends on` or `visible if` adds. */
  function ConditionOf(rest: string, err: bool, visible: bool): Expr {
    var t := S.TryConsume(rest, if visible then "if" else "on");
    if t.Some? then S.ParseOr(t.value, err).ex else S.ParseOr(rest, true).ex
  }

  /** The command that a line gives the menu builder: lines that open a menu, make an
      entry or close a menu, and the two kinds of conditions. */
  function CommandOf(w: Word, rest: string, err: bool): (c: Option<Command>)
    ensures c.Some? ==> GoodCommand(c.value)
  {
    match w
    case MainMenu => Some(Push(NewMenu(MenuConfig, "", None)))
    case Group => Some(Push(NewMenu(MenuGroup, "", None)))
    case If => Some(Push(NewMenu(MenuGroup, "", Some(S.ParseOr(rest, err).ex))))
    case Choice => Some(Push(NewMenu(MenuChoice, "", None)))
    case Comment => Some(New(Some(NewMenu(MenuComment, "", None))))
    case Config => Some(New(Some(NewMenu(MenuConfig, S.ScanIdent(rest, err).text, None))))
    case Close => Some(Pop)
    case Depends => Some(DependsOn(ConditionOf(rest, err, false)))
    case Visible => Some(VisibleIf(ConditionOf(rest, err, true)))
    case _ => None
  }

  function LineEffect(b: Building, w: Word, rest: string, err: bool): Building
    requires ValidStack(b) && ValidCur(b)
  {
    var c := CommandOf(w, rest, err);
    if c.Some? then Apply(b, c.value) else b
  }

  /** The error flag after an optional trailing condition. */
  function IfErr(rest: string, err: bool): bool {
    var t := S.TryConsume(rest, "if");
    if t.Some? then S.ParseOr(t.value, err).err else err
  }

  function PromptErr(rest: string, err: bool): bool {
    if S.Peek(rest, err) == '"' || S.Peek(rest, err) == '\'' then
      var t := S.ScanQuoted(rest, err);
      IfErr(t.rest, t.err)
    else err
  }

  function DefaultErr(rest: string, err: bool): bool {
    var v := S.ParseOr(rest, err);
    IfErr(v.rest, v.err)
  }

  function SelectErr(rest: string, err: bool): bool {
    var t := S.ScanIdent(rest, err);
    IfErr(t.rest, t.err)
  }

  function RangeErr(rest: string, err: bool): bool {
    var from := S.ParseOr(rest, err);
    var to := S.ParseOr(from.rest, from.err);
    IfErr(to.rest, to.err)
  }

  function ConditionErr(rest: string, err: bool, visible: bool): bool {
    var t := S.TryConsume(rest, if visible then "if" else "on");
    t.None? || S.ParseOr(t.value, err).err
  }

  function PropertyErr(w: Word, rest: string, err: bool): bool {
    match w
    case PlainType => PromptErr(rest, err)
    case DefaultType => DefaultErr(rest, err)
    case Prompt => PromptErr(rest, err)
    case Depends => ConditionErr(rest, err, false)
    case Visible => ConditionErr(rest, err, true)
    case Select => SelectErr(rest, err)
    case Default => DefaultErr(rest, err)
    case Range => RangeErr(rest, err)
    case OptionLine => err
    case Flag => err
    case Help => err
    case _ => true
  }

  predicate IsMenu(w: Word) {
    w.MainMenu? || w.Comment? || w.Group? || w.If? || w.Choice? || w.Close? || w.Config?
  }

  predicate IsProperty(w: Word) { !IsMenu(w) && w != Source }

  /** A title that does not scan, an entry with no menu to go to, a property with no
      entry to belong to, or a malformed operand. */
  function LineErr(b: Building, w: Word, rest: string, err: bool): bool {
    match w
    case MainMenu => S.ScanQuoted(rest, err).err || Homeless(b)
    case Group => S.ScanQuoted(rest, err).err || Homeless(b)
    case Comment => S.ScanQuoted(rest, err).err || Homeless(b)
    case If => S.ParseOr(rest, err).err || Homeless(b)
    case Choice => err || Homeless(b)
    case Close => err || Homeless(b)
    case Config => S.ScanIdent(rest, err).err || Homeless(b)
    case _ => PropertyErr(w, rest, err || b.cur.None?)
  }

  lemma LineEffectKeeps(b: Building, w: Word, rest: string, err: bool)
    requires Forest(b)
    ensures Forest(LineEffect(b, w, rest, err))
    ensures LineEffect(b, w, rest, err).lost == b.lost || LineErr(b, w, rest, err)
  {
    var c := CommandOf(w, rest, err);
    if c.Some? {
      ApplyKeeps(b, c.value);
      ApplyLoses(b, c.value);
    }
  }

  // Help texts.

  /** The column of a line's first character that is not blank. */
  function Indent(line: string): nat { S.Level(line[..|line| - |S.SkipSpaces(line)|]) }

  /** Where reading goes on after a help text, the width of its last line, and the line
      that ended it. */
  datatype HelpEnd = HelpEnd(data: string, help: nat, stop: Option<string>)

  /** The lines of a help text: up to the first one that is indented less than `base`,
      its first line. */
  function HelpText(data: string, base: Option<nat>, help: nat): (h: HelpEnd)
    ensures |h.data| <= |data|
    decreases |data|
  {
    if data == "" then HelpEnd(data, help, None)
    else
      var s := S.NextLogical(data);
      if S.SkipSpaces(s.line) == "" then HelpText(s.data, base, help)
      else if base.Some? && Indent(s.line) < base.value then HelpEnd(s.data, help, Some(s.line))
      else HelpText(s.data, Some(if base.Some? then base.value else Indent(s.line)), S.Level(s.line))
  }

  lemma {:induction false} HelpRanked(
      fs: Files, rank: map<string, nat>, top: nat, data: string, base: Option<nat>, help: nat)
    requires Ranked(fs, rank, data, top)
    ensures Ranked(fs, rank, HelpText(data, base, help).data, top)
    decreases |data|
  {
    if data != "" {
      var s := S.NextLogical(data);
      if S.SkipSpaces(s.line) == "" {
        HelpRanked(fs, rank, top, s.data, base, help);
      } else if !(base.Some? && Indent(s.line) < base.value) {
        HelpRanked(fs, rank, top, s.data, Some(if base.Some? then base.value else Indent(s.line)), S.Level(s.line));
      }
    }
  }

  // Whole files.

  datatype State = State(b: Building, help: nat, err: bool)

  datatype Outcome = Outcome(st: State, data: string)

  /** A macro definition, which is passed over. */
  predicate Assigns(rest: string) { "=" <= rest || ":=" <= rest }

  function FileErr(rest: string, err: bool): bool {
    if S.Peek(rest, err) == '"' || S.Peek(rest, err) == '\'' then S.ScanQuoted(rest, err).err else err
  }

  /** The state is a forest, and an entry given up since `from` is reported. */
  ghost predicate Sound(from: State, st: State) { Forest(st.b) && (st.b.lost == from.b.lost || st.err) }

  /** A line without an include. */
  function PlainRun(w: Word, rest: string, err: bool, data: string, st: State): (o: Outcome)
    requires Forest(st.b)
    ensures Sound(st, o.st) && |o.data| <= |data|
  {
    LineEffectKeeps(st.b, w, rest, err);
    var next := State(LineEffect(st.b, w, rest, err), st.help, LineErr(st.b, w, rest, err));
    if w == Help && !next.err then
      var h := HelpText(data, None, st.help);
      Outcome(next.(help := h.help), h.data)
    else Outcome(next, data)
  }

  ghost function SourceRun(fs: Files, rank: map<string, nat>, top: nat, rest: string, err: bool, st: State): (r: State)
    requires AcyclicIncludes(fs, rank) && RankedFile(fs, rank, S.FileOperand(rest, err), top) && Forest(st.b)
    ensures Sound(st, r)
    decreases top, 0, 0
  {
    var file := S.FileOperand(rest, err);
    if file == "" then st.(err := FileErr(rest, err))
    else
      ApplyKeeps(st.b, New(None));
      ApplyLoses(st.b, New(None));
      var next := State(NewCurrent(st.b, None), st.help, FileErr(rest, err) || Homeless(st.b));
      if file !in fs then next.(err := true)
      else
        var inner := FileRun(fs, rank, rank[file], fs[file], next.(err := false));
        inner.(err := next.err || inner.err)
  }

  /** A line by its first word. */
  ghost function WordRun(fs: Files, rank: map<string, nat>, top: nat,
                         cmd: string, rest: string, err: bool, data: string, st: State): (o: Outcome)
    requires AcyclicIncludes(fs, rank) && Forest(st.b) && Ranked(fs, rank, data, top)
    requires cmd == "source" ==> RankedFile(fs, rank, S.FileOperand(rest, err), top)
    ensures Sound(st, o.st) && |o.data| <= |data| && Ranked(fs, rank, o.data, top)
    decreases top, 1, 0
  {
    if cmd == "source" then Outcome(SourceRun(fs, rank, top, rest, err, st), data)
    else
      HelpRanked(fs, rank, top, data, None, st.help);
      PlainRun(WordOf(cmd), rest, err, data, st)
  }

  /** A line that is neither blank nor a comment. */
  ghost function CommandRun(
      fs: Files, rank: map<string, nat>, top: nat, line: string, data: string, st: State): (o: Outcome)
    requires AcyclicIncludes(fs, rank) && RankedLine(fs, rank, line, top) && Forest(st.b)
    requires Ranked(fs, rank, data, top) && S.SkipSpaces(line) != "" && !("#" <= S.SkipSpaces(line))
    ensures Sound(st, o.st) && |o.data| <= |data| && Ranked(fs, rank, o.data, top)
    decreases top, 2, 0
  {
    var t := S.ScanIdent(S.SkipSpaces(line), false);
    if Assigns(t.rest) then Outcome(st.(err := t.err), data)
    else WordRun(fs, rank, top, t.text, t.rest, t.err, data, st)
  }

  ghost function LineRun(
      fs: Files, rank: map<string, nat>, top: nat, line: string, data: string, st: State): (o: Outcome)
    requires AcyclicIncludes(fs, rank) && RankedLine(fs, rank, line, top) && Forest(st.b) && !st.err
    requires Ranked(fs, rank, data, top)
    ensures Sound(st, o.st) && |o.data| <= |data| && Ranked(fs, rank, o.data, top)
    decreases top, 3, 0
  {
    var r := S.SkipSpaces(line);
    if r == "" || (st.help != 0 && Indent(line) >= st.help) then Outcome(st, data)
    else if "#" <= r then Outcome(st.(help := 0), data)
    else CommandRun(fs, rank, top, line, data, st.(help := 0))
  }

  /** A file from `data` on: line by line until the end or the first error. */
  ghost function FileRun(fs: Files, rank: map<string, nat>, top: nat, data: string, st: State): (r: State)
    requires AcyclicIncludes(fs, rank) && Ranked(fs, rank, data, top) && Forest(st.b)
    ensures Sound(st, r) && r.b.cur.None?
    decreases top, 4, |data|
  {
    if st.err || data == "" then
      ApplyKeeps(st.b, End);
      ApplyLoses(st.b, End);
      State(EndCurrent(st.b), st.help, st.err || Homeless(st.b))
    else
      var s := S.NextLogical(data);
      var o := LineRun(fs, rank, top, s.line, s.data, st);
      FileRun(fs, rank, top, o.data, o.st)
  }
}
