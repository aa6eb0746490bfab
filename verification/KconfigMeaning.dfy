/** A parsed file without includes and help texts means what its lines say: names, kinds,
    nesting and conditions of the tree are read off the words of the text. */
module KconfigMeaning {
  import opened Options
  import opened KconfigExpr
  import opened KconfigMenu
  import opened KconfigWalk
  import opened KconfigLines
  import opened KconfigText
  import opened KconfigShape
  import opened KconfigContent
  import T = KconfigTree
  import S = KconfigScan

  // What a line gives, by its words.

  function BeginsOf(line: string, visible: bool): Option<Expr> {
    if visible && Cmd(line) == "if" then CondOf(line) else None
  }

  function AddsOf(line: string, visible: bool): Option<Expr> {
    if Cmd(line) == (if visible then "visible" else "depends") then CondOf(line) else None
  }

  function CondsOf(lines: seq<string>, visible: bool): (cs: Conds)
    ensures cs.visible == visible && |cs.begins| == |cs.adds| == |lines|
    ensures forall k | 0 <= k < |lines| ::
              cs.begins[k] == BeginsOf(lines[k], visible) && cs.adds[k] == AddsOf(lines[k], visible)
  {
    Conds(visible, seq(|lines|, k requires 0 <= k < |lines| => BeginsOf(lines[k], visible)),
          seq(|lines|, k requires 0 <= k < |lines| => AddsOf(lines[k], visible)))
  }

  function HeadsOf(lines: seq<string>): (heads: seq<Head>)
    ensures |heads| == |lines| && forall k | 0 <= k < |lines| :: heads[k] == Head(KindOf(lines[k]), NameOf(lines[k]))
  {
    seq(|lines|, k requires 0 <= k < |lines| => Head(KindOf(lines[k]), NameOf(lines[k])))
  }

  predicate PlainWord(cmd: string) { cmd != "source" && cmd != "help" && cmd != "---help---" }

  /** No includes and no help texts. */
  predicate NoInclude(lines: seq<string>) { forall k | 0 <= k < |lines| :: PlainWord(Cmd(lines[k])) }

  lemma WordsTold(cmd: string)
    ensures WordOf(cmd) == Source <==> cmd == "source"
    ensures WordOf(cmd) == MainMenu <==> cmd == "mainmenu"
    ensures WordOf(cmd) == Comment <==> cmd == "comment"
    ensures WordOf(cmd) == Group <==> cmd == "menu"
    ensures WordOf(cmd) == If <==> cmd == "if"
    ensures WordOf(cmd) == Choice <==> cmd == "choice"
    ensures WordOf(cmd) == Close <==> cmd in ["endmenu", "endif", "endchoice"]
    ensures WordOf(cmd) == Config <==> cmd in ["config", "menuconfig"]
  {
  }

  lemma TypesTold(cmd: string)
    ensures TypeOf(cmd) == Depends <==> cmd == "depends"
    ensures TypeOf(cmd) == Visible <==> cmd == "visible"
    ensures TypeOf(cmd) == Help <==> cmd in ["help", "---help---"]
  {
  }

  /** The command does what the words of the line say. */
  predicate Gives(line: string, c: Option<Command>) {
    && Fits(MarkOf(line), c) && (c.Some? ==> GoodCommand(c.value)) && HeadIs(c, Head(KindOf(line), NameOf(line)))
    && Adds(c, false) == AddsOf(line, false) && Adds(c, true) == AddsOf(line, true)
    && Begins(c, false) == BeginsOf(line, false) && Begins(c, true) == BeginsOf(line, true)
  }

  lemma OpenGives(line: string, w: Word)
    requires w == WordOf(Cmd(line)) && w in [MainMenu, Group, If, Choice]
    ensures Gives(line, CommandOf(w, Args(line), false))
  {
    WordsTold(Cmd(line));
  }

  lemma MakeGives(line: string, w: Word)
    requires w == WordOf(Cmd(line)) && w in [Comment, Config, Close]
    ensures Gives(line, CommandOf(w, Args(line), false))
  {
    WordsTold(Cmd(line));
  }

  lemma MenuGives(line: string, w: Word)
    requires w == WordOf(Cmd(line)) && IsMenu(w)
    ensures Gives(line, CommandOf(w, Args(line), false))
  {
    if w in [MainMenu, Group, If, Choice] {
      OpenGives(line, w);
    } else {
      MakeGives(line, w);
    }
  }

  lemma ConditionGives(line: string, w: Word)
    requires w == WordOf(Cmd(line)) && w in [Depends, Visible] && !PropertyErr(w, Args(line), false)
    ensures Gives(line, CommandOf(w, Args(line), false))
  {
    WordsTold(Cmd(line));
    TypesTold(Cmd(line));
  }

  lemma OtherGives(line: string, w: Word)
    requires w == WordOf(Cmd(line)) && IsProperty(w) && w !in [Depends, Visible]
    ensures Gives(line, CommandOf(w, Args(line), false))
  {
    WordsTold(Cmd(line));
    TypesTold(Cmd(line));
  }

  lemma PropertyGives(line: string, w: Word)
    requires w == WordOf(Cmd(line)) && IsProperty(w) && w != Help && !PropertyErr(w, Args(line), false)
    ensures Gives(line, CommandOf(w, Args(line), false))
  {
    if w in [Depends, Visible] {
      ConditionGives(line, w);
    } else {
      OtherGives(line, w);
    }
  }

  lemma NothingGives(line: string)
    requires Cmd(line) == ""
    ensures Gives(line, None)
  {
  }

  lemma FirstTold(line: string)
    ensures T.LineWord(line).None? ==> Cmd(line) == ""
    ensures T.LineWord(line).Some? ==> T.LineWord(line).value == WordOf(Cmd(line))
    ensures Cmd(line) != "" ==> T.LineWord(line).Some? && !S.ScanIdent(S.SkipSpaces(line), false).err
    ensures WordOf("") == Unknown
  {
  }

  lemma PlainTold(line: string)
    requires PlainWord(Cmd(line))
    ensures T.PlainLine(line)
  {
    FirstTold(line);
    WordsTold(Cmd(line));
    TypesTold(Cmd(line));
  }

  /** The command of a line that records no error. */
  function CommandIn(line: string): Option<Command> {
    if Cmd(line) == "" then None else CommandOf(WordOf(Cmd(line)), Args(line), false)
  }

  lemma MeansIs(b: Building, line: string)
    requires Forest(b) && !T.LineMeans(b, line).err
    ensures T.LineMeans(b, line).b == Effect(b, CommandIn(line))
    ensures Cmd(line) != "" ==> !LineErr(b, WordOf(Cmd(line)), Args(line), false)
  {
    FirstTold(line);
  }

  lemma ErrorsTold(b: Building, w: Word, rest: string)
    requires !LineErr(b, w, rest, false) && w != Source
    ensures IsMenu(w) ==> !Homeless(b)
    ensures IsProperty(w) ==> b.cur.Some? && !PropertyErr(w, rest, false)
  {
    if IsProperty(w) && b.cur.None? {
      ErrorStays(w, rest);
    }
  }

  /** No reading of a property takes an error back. */
  lemma ErrorStays(w: Word, rest: string)
    ensures PropertyErr(w, rest, true)
  {
  }

  /** A line that records no error does to the menus what its words say. */
  lemma LineTold(b: Building, line: string)
    requires Forest(b) && PlainWord(Cmd(line)) && !T.LineMeans(b, line).err
    ensures var c := CommandIn(line);
            && T.LineMeans(b, line).b == Effect(b, c) && Gives(line, c)
            && (!MarkOf(line).Other? ==> !Homeless(b))
            && (c.Some? && (c.value.DependsOn? || c.value.VisibleIf?) ==> b.cur.Some?)
  {
    MeansIs(b, line);
    if Cmd(line) == "" {
      NothingGives(line);
    } else {
      var w := WordOf(Cmd(line));
      WordsTold(Cmd(line));
      TypesTold(Cmd(line));
      ErrorsTold(b, w, Args(line));
      if IsMenu(w) {
        MenuGives(line, w);
      } else {
        PropertyGives(line, w);
      }
    }
  }

  // The whole file.

  /** The menus built by the first k lines are as these say. */
  ghost predicate Told(lines: seq<string>, k: nat, b: Building, val: Expr -> bool)
    requires k <= |lines|
  {
    var marks := Marks(lines);
    && Follows(marks, k, b) && HeadsFollow(marks, k, b.menus, HeadsOf(lines))
    && CondsFollow(marks, k, b.menus, CondsOf(lines, false), val)
    && CondsFollow(marks, k, b.menus, CondsOf(lines, true), val)
  }

  lemma StepTold(lines: seq<string>, k: nat, b: Building, val: Expr -> bool)
    requires k < |lines| && Forest(b) && Told(lines, k, b, val)
    requires PlainWord(Cmd(lines[k])) && !T.LineMeans(b, lines[k]).err
    ensures Told(lines, k + 1, T.LineMeans(b, lines[k]).b, val)
  {
    var c := CommandIn(lines[k]);
    LineTold(b, lines[k]);
    EffectTold(lines, k, b, c, val);
  }

  lemma EffectTold(lines: seq<string>, k: nat, b: Building, c: Option<Command>, val: Expr -> bool)
    requires k < |lines| && Forest(b) && Told(lines, k, b, val) && Gives(lines[k], c)
    requires !MarkOf(lines[k]).Other? ==> !Homeless(b)
    requires c.Some? && (c.value.DependsOn? || c.value.VisibleIf?) ==> b.cur.Some?
    ensures Told(lines, k + 1, Effect(b, c), val)
  {
    var marks := Marks(lines);
    StepFollows(marks, k, b, c);
    StepHeadsFollow(marks, k, b, c, HeadsOf(lines));
    StepCondsFollow(marks, k, b, c, CondsOf(lines, false), val);
    StepCondsFollow(marks, k, b, c, CondsOf(lines, true), val);
  }

  lemma {:induction false} FoldTold(lines: seq<string>, k: nat, b: Building, val: Expr -> bool)
    requires k <= |lines| && Forest(b) && Told(lines, k, b, val) && NoInclude(lines) && !T.Fold(b, lines[k..]).err
    ensures Told(lines, |lines|, T.Fold(b, lines[k..]).b, val)
    decreases |lines| - k
  {
    if k < |lines| {
      assert lines[k..][0] == lines[k] && lines[k..][1..] == lines[k + 1..];
      StepTold(lines, k, b, val);
      FoldTold(lines, k + 1, T.LineMeans(b, lines[k]).b, val);
    }
  }

  lemma EmptyTold(lines: seq<string>, val: Expr -> bool)
    ensures Told(lines, 0, Empty, val)
  {
  }
}
