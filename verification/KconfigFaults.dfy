/** Which files the parser refuses (kconfig/kconfig.go): for files without includes and
    help texts, exactly those with a line that does not read, a property that belongs to
    nothing, or an entry outside of all menus, told from the words of the lines. */
module KconfigFaults {
  import opened Options
  import opened KconfigExpr
  import opened KconfigMenu
  import opened KconfigLines
  import opened KconfigText
  import opened KconfigShape
  import opened KconfigMeaning
  import T = KconfigTree
  import S = KconfigScan

  // What reads, by the words.

  predicate StringReads(args: string) { !S.ScanQuoted(args, false).err }

  predicate ExprReadsWell(args: string) { !S.ParseOr(args, false).err }

  predicate NameReadsWell(args: string) { args != "" && S.IsIdent(args[0]) }

  predicate StartsQuoted(args: string) { args != "" && (args[0] == '"' || args[0] == '\'') }

  /** If a condition follows, it reads. */
  predicate TailReadsWell(rest: string) { "if" <= rest ==> ExprReadsWell(S.SkipSpaces(rest[2..])) }

  /** What a word wants after it. */
  datatype Form = FString | FExpr | FName | FNothing | FOn | FIf | FPrompt | FValue | FSelect | FRange | FNone

  function FormOf(cmd: string): Form {
    if cmd in ["mainmenu", "menu", "comment"] then FString
    else if cmd == "if" then FExpr
    else if cmd in ["config", "menuconfig"] then FName
    else if cmd in ["choice", "endmenu", "endif", "endchoice"] then FNothing
    else PropertyForm(cmd)
  }

  function PropertyForm(cmd: string): Form {
    if cmd in ["modules", "optional", "option"] then FNothing
    else if cmd == "depends" then FOn
    else if cmd == "visible" then FIf
    else if cmd in ["prompt", "tristate", "bool", "int", "hex", "string"] then FPrompt
    else if cmd in ["default", "def_tristate", "def_bool", "def_int", "def_hex", "def_string"] then FValue
    else if cmd in ["select", "imply"] then FSelect
    else if cmd == "range" then FRange
    else FNone
  }

  predicate FormReads(form: Form, args: string) {
    match form
    case FString => StringReads(args)
    case FExpr => ExprReadsWell(args)
    case FName => NameReadsWell(args)
    case FNothing => true
    case FOn => "on" <= args && ExprReadsWell(S.SkipSpaces(args[2..]))
    case FIf => "if" <= args && ExprReadsWell(S.SkipSpaces(args[2..]))
    case FPrompt => StartsQuoted(args) ==> StringReads(args) && TailReadsWell(S.ScanQuoted(args, false).rest)
    case FValue => ExprReadsWell(args) && TailReadsWell(S.ParseOr(args, false).rest)
    case FSelect => NameReadsWell(args) && TailReadsWell(S.ScanIdent(args, false).rest)
    case FRange =>
      ExprReadsWell(args) &&
      var to := S.ParseOr(args, false).rest;
      ExprReadsWell(to) && TailReadsWell(S.ParseOr(to, false).rest)
    case FNone => false
  }

  predicate ReadsWell(cmd: string, args: string) { FormReads(FormOf(cmd), args) }

  /** A blank line, a comment, a macro definition, or a command that reads. */
  predicate LineReads(line: string) {
    var r := S.SkipSpaces(line);
    var t := S.ScanIdent(r, false);
    r == "" || "#" <= r || (t.text != "" && (Assigns(t.rest) || ReadsWell(t.text, t.rest)))
  }

  predicate PropertyLine(line: string) { Cmd(line) != "" && !Makes(line) && !Closes(line) }

  // The errors of a line are these.

  /** No reading takes an error back. */
  lemma ErrorsStay(rest: string)
    ensures IfErr(rest, true) && S.ParseOr(rest, true).err
    ensures S.ScanIdent(rest, true).err && S.ScanQuoted(rest, true).err
  {
  }

  lemma IfErrIs(rest: string)
    ensures IfErr(rest, false) <==> !TailReadsWell(rest)
  {
  }

  lemma NameIs(args: string)
    ensures S.ScanIdent(args, false).err <==> !NameReadsWell(args)
  {
  }

  lemma SelectErrIs(args: string)
    ensures SelectErr(args, false) <==> !(NameReadsWell(args) && TailReadsWell(S.ScanIdent(args, false).rest))
  {
    NameIs(args);
    var t := S.ScanIdent(args, false);
    IfErrIs(t.rest);
    ErrorsStay(t.rest);
  }

  lemma DefaultErrIs(args: string)
    ensures DefaultErr(args, false) <==> !(ExprReadsWell(args) && TailReadsWell(S.ParseOr(args, false).rest))
  {
    var v := S.ParseOr(args, false);
    IfErrIs(v.rest);
    ErrorsStay(v.rest);
  }

  lemma PromptErrIs(args: string)
    ensures PromptErr(args, false) <==>
            !(StartsQuoted(args) ==> StringReads(args) && TailReadsWell(S.ScanQuoted(args, false).rest))
  {
    var t := S.ScanQuoted(args, false);
    IfErrIs(t.rest);
    ErrorsStay(t.rest);
  }

  lemma RangeErrIs(args: string)
    ensures RangeErr(args, false) <==>
            !(ExprReadsWell(args) && var to := S.ParseOr(args, false).rest;
              ExprReadsWell(to) && TailReadsWell(S.ParseOr(to, false).rest))
  {
    var from := S.ParseOr(args, false);
    ErrorsStay(from.rest);
    var to := S.ParseOr(from.rest, from.err);
    IfErrIs(to.rest);
    ErrorsStay(to.rest);
  }

  lemma ConditionErrIs(args: string, visible: bool)
    ensures ConditionErr(args, false, visible) <==>
            !((if visible then "if" else "on") <= args && ExprReadsWell(S.SkipSpaces(args[2..])))
  {
  }

  /** What the parser's reading of a word wants. */
  function FormFor(w: Word): Form {
    match w
    case MainMenu => FString
    case Group => FString
    case Comment => FString
    case If => FExpr
    case Config => FName
    case Choice => FNothing
    case Close => FNothing
    case Flag => FNothing
    case OptionLine => FNothing
    case Depends => FOn
    case Visible => FIf
    case PlainType => FPrompt
    case Prompt => FPrompt
    case DefaultType => FValue
    case Default => FValue
    case Select => FSelect
    case Range => FRange
    case _ => FNone
  }

  predicate TypeWord(cmd: string) {
    cmd in ["tristate", "bool", "int", "hex", "string"] ||
    cmd in ["def_tristate", "def_bool", "def_int", "def_hex", "def_string"]
  }

  lemma TypeFormIs(cmd: string)
    ensures TypeWord(cmd) ==> PropertyForm(cmd) == FormFor(TypeOf(cmd))
    ensures !TypeWord(cmd) ==> TypeOf(cmd) == PropertyOf(cmd)
  {
  }

  lemma OtherFormIs(cmd: string)
    requires !TypeWord(cmd)
    ensures PropertyForm(cmd) == FormFor(PropertyOf(cmd))
  {
  }

  lemma PropertyFormIs(cmd: string)
    ensures PropertyForm(cmd) == FormFor(TypeOf(cmd))
  {
    TypeFormIs(cmd);
    if !TypeWord(cmd) {
      OtherFormIs(cmd);
    }
  }

  predicate MenuWord(cmd: string) {
    cmd in ["mainmenu", "menu", "comment", "if", "config", "menuconfig"] ||
    cmd in ["choice", "endmenu", "endif", "endchoice"]
  }

  lemma MenuFormIs(cmd: string)
    requires MenuWord(cmd)
    ensures FormOf(cmd) == FormFor(WordOf(cmd))
  {
  }

  lemma NoMenuFormIs(cmd: string)
    requires !MenuWord(cmd) && cmd != "source"
    ensures FormOf(cmd) == PropertyForm(cmd) && WordOf(cmd) == TypeOf(cmd)
  {
  }

  lemma FormIs(cmd: string)
    requires PlainWord(cmd)
    ensures FormOf(cmd) == FormFor(WordOf(cmd))
  {
    if MenuWord(cmd) {
      MenuFormIs(cmd);
    } else {
      NoMenuFormIs(cmd);
      PropertyFormIs(cmd);
    }
  }

  lemma MenuErrIs(b: Building, w: Word, args: string)
    requires IsMenu(w)
    ensures LineErr(b, w, args, false) <==> !FormReads(FormFor(w), args) || Homeless(b)
  {
    NameIs(args);
  }

  lemma PropertyErrIs(w: Word, args: string)
    requires IsProperty(w) && w != Help
    ensures PropertyErr(w, args, false) <==> !FormReads(FormFor(w), args)
  {
    match w
    case Select => SelectErrIs(args);
    case Range => RangeErrIs(args);
    case Depends => ConditionErrIs(args, false);
    case Visible => ConditionErrIs(args, true);
    case PlainType => PromptErrIs(args);
    case Prompt => PromptErrIs(args);
    case DefaultType => DefaultErrIs(args);
    case Default => DefaultErrIs(args);
    case OptionLine =>
    case Flag =>
    case Unknown =>
  }

  /** Where the line may stand. */
  predicate Placed(line: string, b: Building) {
    && (PropertyLine(line) ==> b.cur.Some?)
    && (Makes(line) || Closes(line) ==> !Homeless(b))
  }

  lemma WordKinds(line: string)
    requires PlainWord(Cmd(line)) && Cmd(line) != ""
    ensures IsMenu(WordOf(Cmd(line))) <==> Makes(line) || Closes(line)
    ensures IsMenu(WordOf(Cmd(line))) || (IsProperty(WordOf(Cmd(line))) && WordOf(Cmd(line)) != Help)
  {
    WordsTold(Cmd(line));
    TypesTold(Cmd(line));
  }

  /** A line records an error exactly if it does not read or stands where it may not. */
  lemma CommandFaults(b: Building, line: string)
    requires PlainWord(Cmd(line)) && Cmd(line) != ""
    ensures LineErr(b, WordOf(Cmd(line)), Args(line), false) <==> !ReadsWell(Cmd(line), Args(line)) || !Placed(line, b)
  {
    var w, args := WordOf(Cmd(line)), Args(line);
    WordKinds(line);
    FormIs(Cmd(line));
    if IsMenu(w) {
      MenuErrIs(b, w, args);
    } else {
      PropertyErrIs(w, args);
      ErrorStays(w, args);
    }
  }

  lemma LineFaults(b: Building, line: string)
    requires Forest(b) && PlainWord(Cmd(line))
    ensures T.LineMeans(b, line).err <==> !LineReads(line) || !Placed(line, b)
  {
    FirstTold(line);
    if Cmd(line) == "" {
      NoCommand(b, line);
      NoWord(line);
    } else {
      CommandFaults(b, line);
    }
  }

  lemma NoCommand(b: Building, line: string)
    requires Forest(b) && Cmd(line) == ""
    ensures T.LineMeans(b, line).err <==> !LineReads(line)
  {
    FirstTold(line);
    FormIs("");
  }

  lemma NoWord(line: string)
    requires Cmd(line) == ""
    ensures !PropertyLine(line) && !Makes(line) && !Closes(line)
  {
  }

  // Whole files.

  /** Line k does not read, is a property that belongs to nothing, or makes an entry outside
      of all menus. */
  predicate Fault(lines: seq<string>, k: nat)
    requires k < |lines|
  {
    var marks := Marks(lines);
    || !LineReads(lines[k])
    || (PropertyLine(lines[k]) && CurLine(marks, k).None?)
    || (marks[k].Making? && OpenAt(marks, k) == [])
  }

  ghost predicate Faulty(lines: seq<string>) { exists k | 0 <= k < |lines| :: Fault(lines, k) }

  lemma StepClean(lines: seq<string>, k: nat, b: Building)
    requires NoInclude(lines) && k < |lines| && Forest(b) && Follows(Marks(lines), k, b) && !Faulty(lines)
    ensures var next := T.LineMeans(b, lines[k]);
            !next.err && Follows(Marks(lines), k + 1, next.b)
  {
    var marks := Marks(lines);
    assert !Fault(lines, k);
    forall i | 0 <= i < k && marks[i].Making? ensures OpenAt(marks, i) != [] {
      assert !Fault(lines, i);
    }
    NeverHomeless(marks, k, b);
    LineFaults(b, lines[k]);
    LineTold(b, lines[k]);
    StepFollows(marks, k, b, CommandIn(lines[k]));
  }

  lemma {:induction false} FoldClean(lines: seq<string>, k: nat, b: Building)
    requires NoInclude(lines) && k <= |lines| && Forest(b) && Follows(Marks(lines), k, b) && !Faulty(lines)
    ensures var f := T.Fold(b, lines[k..]); !f.err && Follows(Marks(lines), |lines|, f.b)
    decreases |lines| - k
  {
    if k < |lines| {
      assert lines[k..][0] == lines[k] && lines[k..][1..] == lines[k + 1..];
      StepClean(lines, k, b);
      FoldClean(lines, k + 1, T.LineMeans(b, lines[k]).b);
    }
  }

  lemma OtherStaysHomeless(b: Building, c: Option<Command>)
    requires Forest(b) && Homeless(b) && Fits(Other, c)
    ensures Homeless(Effect(b, c))
  {
  }

  lemma HomelessStep(b: Building, line: string)
    requires Forest(b) && Homeless(b) && PlainWord(Cmd(line)) && !T.LineMeans(b, line).err
    ensures Homeless(T.LineMeans(b, line).b)
  {
    LineTold(b, line);
    OtherStaysHomeless(b, CommandIn(line));
  }

  lemma MakesHomeless(marks: seq<Mark>, k: nat, b: Building)
    requires k < |marks| && Follows(marks, k + 1, b) && marks[k].Making? && OpenAt(marks, k) == []
    ensures Homeless(b)
  {
  }

  /** An entry that has no menu to go to stays so until it is an error. */
  lemma {:induction false} HomelessStays(lines: seq<string>, k: nat, b: Building)
    requires NoInclude(lines) && k <= |lines| && Forest(b) && Homeless(b) && !T.Fold(b, lines[k..]).err
    ensures Homeless(T.Fold(b, lines[k..]).b)
    decreases |lines| - k
  {
    if k < |lines| {
      assert lines[k..][0] == lines[k] && lines[k..][1..] == lines[k + 1..];
      HomelessStep(b, lines[k]);
      HomelessStays(lines, k + 1, T.LineMeans(b, lines[k]).b);
    }
  }

  lemma StepGoesOn(lines: seq<string>, k: nat, b: Building)
    requires NoInclude(lines) && k < |lines| && Forest(b) && Follows(Marks(lines), k, b)
    requires !T.LineMeans(b, lines[k]).err
    ensures LineReads(lines[k]) && (PropertyLine(lines[k]) ==> CurLine(Marks(lines), k).Some?)
    ensures Follows(Marks(lines), k + 1, T.LineMeans(b, lines[k]).b)
  {
    LineFaults(b, lines[k]);
    LineTold(b, lines[k]);
    StepFollows(Marks(lines), k, b, CommandIn(lines[k]));
  }

  lemma StepIsNoFault(lines: seq<string>, k: nat, next: Building)
    requires NoInclude(lines) && k < |lines| && Forest(next) && Follows(Marks(lines), k + 1, next)
    requires LineReads(lines[k]) && (PropertyLine(lines[k]) ==> CurLine(Marks(lines), k).Some?)
    requires !T.Fold(next, lines[k + 1..]).err && !Homeless(T.Fold(next, lines[k + 1..]).b)
    ensures !Fault(lines, k)
  {
    var marks := Marks(lines);
    if marks[k].Making? && OpenAt(marks, k) == [] {
      MakesHomeless(marks, k, next);
      HomelessStays(lines, k + 1, next);
    }
  }

  lemma {:induction false} CleanFold(lines: seq<string>, k: nat, b: Building, j: nat)
    requires NoInclude(lines) && k <= j < |lines| && Forest(b) && Follows(Marks(lines), k, b)
    requires !T.Fold(b, lines[k..]).err && !Homeless(T.Fold(b, lines[k..]).b)
    ensures !Fault(lines, j)
    decreases |lines| - k
  {
    assert lines[k..][0] == lines[k] && lines[k..][1..] == lines[k + 1..];
    var next := T.LineMeans(b, lines[k]).b;
    StepGoesOn(lines, k, b);
    if k < j {
      CleanFold(lines, k + 1, next, j);
    } else {
      StepIsNoFault(lines, k, next);
    }
  }

  lemma FoldFaults(lines: seq<string>, b: Building)
    requires NoInclude(lines) && Forest(b) && Follows(Marks(lines), 0, b)
    ensures var f := T.Fold(b, lines); (f.err || Homeless(f.b)) <==> Faulty(lines)
    ensures var f := T.Fold(b, lines); !Faulty(lines) ==> |f.b.stack| == |OpenAt(Marks(lines), |lines|)|
  {
    var marks, f := Marks(lines), T.Fold(b, lines);
    assert lines[0..] == lines;
    if !Faulty(lines) {
      FoldClean(lines, 0, b);
      forall i | 0 <= i < |lines| && marks[i].Making? ensures OpenAt(marks, i) != [] {
        assert !Fault(lines, i);
      }
      NeverHomeless(marks, |lines|, f.b);
    }
    if !f.err && !Homeless(f.b) {
      forall j | 0 <= j < |lines| ensures !Fault(lines, j) {
        CleanFold(lines, 0, b, j);
      }
    }
  }

  /** A file without includes and help texts is refused if and only if one of its lines is at
      fault; otherwise the menus that its lines leave open are open. */
  lemma RefusedExactly(fs: Files, rank: map<string, nat>, top: nat, data: string, b: Building)
    requires AcyclicIncludes(fs, rank) && Ranked(fs, rank, data, top) && NoInclude(T.Lines(data))
    requires Forest(b) && Follows(Marks(T.Lines(data)), 0, b)
    ensures var end := FileRun(fs, rank, top, data, State(b, 0, false));
            && (end.err <==> Faulty(T.Lines(data)))
            && (!end.err ==> |end.b.stack| == |OpenAt(Marks(T.Lines(data)), |T.Lines(data)|)|)
  {
    var lines := T.Lines(data);
    forall k | 0 <= k < |lines| ensures T.PlainLine(lines[k]) {
      PlainTold(lines[k]);
    }
    T.PlainFileFolds(fs, rank, top, data, b);
    FoldFaults(lines, b);
  }
}
