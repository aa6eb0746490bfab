/** What a Kconfig file says, read off its lines by their words alone: which lines open,
    make and close menus, what stands around a line, and which conditions belong to it.
    The tree that the parser builds (kconfig/kconfig.go) is proved to say the same. */
module KconfigText {
  import opened Options
  import opened KconfigExpr
  import opened KconfigMenu
  import opened KconfigWalk
  import S = KconfigScan

  /** The first word of a line, and what follows it; blank lines, comments and macro
      definitions have none. */
  function Cmd(line: string): string {
    var r := S.SkipSpaces(line);
    var t := S.ScanIdent(r, false);
    if r == "" || "#" <= r || "=" <= t.rest || ":=" <= t.rest then "" else t.text
  }

  function Args(line: string): string { S.ScanIdent(S.SkipSpaces(line), false).rest }

  predicate Opens(line: string) { Cmd(line) in ["mainmenu", "menu", "if", "choice"] }

  predicate Closes(line: string) { Cmd(line) in ["endmenu", "endif", "endchoice"] }

  predicate DeclaresConfig(line: string) { Cmd(line) in ["config", "menuconfig"] }

  predicate Makes(line: string) { Opens(line) || DeclaresConfig(line) || Cmd(line) == "comment" }

  function KindOf(line: string): MenuKind {
    if DeclaresConfig(line) || Cmd(line) == "mainmenu" then MenuConfig
    else if Cmd(line) == "choice" then MenuChoice
    else if Cmd(line) == "comment" then MenuComment
    else MenuGroup
  }

  /** The identifier after `config` or `menuconfig`. */
  function NameOf(line: string): string {
    if DeclaresConfig(line) then S.ScanIdent(Args(line), false).text else ""
  }

  /** The condition after `if`, `depends on` or `visible if`. */
  function CondOf(line: string): Option<Expr> {
    if Cmd(line) == "if" then Some(S.ParseOr(Args(line), false).ex)
    else
      var t := S.TryConsume(Args(line), if Cmd(line) == "visible" then "if" else "on");
      if (Cmd(line) == "depends" || Cmd(line) == "visible") && t.Some? then Some(S.ParseOr(t.value, false).ex)
      else None
  }

  // What stands around a line.

  /** What a line does to the menus around it. */
  datatype Mark = Opening | Making | Closing | Other

  function MarkOf(line: string): Mark {
    if Opens(line) then Opening else if Makes(line) then Making else if Closes(line) then Closing else Other
  }

  function Marks(lines: seq<string>): (marks: seq<Mark>)
    ensures |marks| == |lines| && forall k | 0 <= k < |lines| :: marks[k] == MarkOf(lines[k])
  {
    seq(|lines|, k requires 0 <= k < |lines| => MarkOf(lines[k]))
  }

  predicate IsNode(m: Mark) { m.Opening? || m.Making? }

  /** The lines whose menus are open when line k is reached, outermost first. The
      outermost menu cannot be closed. */
  function OpenAt(marks: seq<Mark>, k: nat): seq<nat>
    requires k <= |marks|
    decreases k
  {
    if k == 0 then []
    else
      var o := OpenAt(marks, k - 1);
      if marks[k - 1].Opening? then o + [k - 1]
      else if marks[k - 1].Closing? && |o| >= 2 then o[..|o| - 1]
      else o
  }

  /** The line whose menu or entry a property on line k belongs to. */
  function CurLine(marks: seq<Mark>, k: nat): Option<nat>
    requires k <= |marks|
    decreases k
  {
    if k == 0 then None
    else if IsNode(marks[k - 1]) then Some(k - 1)
    else if marks[k - 1].Closing? then None
    else CurLine(marks, k - 1)
  }

  /** How many menus and entries the first k lines make; the one of line k has this number. */
  function Made(marks: seq<Mark>, k: nat): nat
    requires k <= |marks|
    decreases k
  {
    if k == 0 then 0 else Made(marks, k - 1) + if IsNode(marks[k - 1]) then 1 else 0
  }

  // Facts about these.

  lemma {:induction false} OpenBelow(marks: seq<Mark>, k: nat, q: nat)
    requires k <= |marks| && q < |OpenAt(marks, k)|
    ensures OpenAt(marks, k)[q] < k && marks[OpenAt(marks, k)[q]].Opening?
    ensures OpenAt(marks, OpenAt(marks, k)[q]) == OpenAt(marks, k)[..q]
    decreases k
  {
    var o := OpenAt(marks, k - 1);
    if q < |o| {
      OpenBelow(marks, k - 1, q);
      assert OpenAt(marks, k)[..q] == o[..q];
    } else {
      assert OpenAt(marks, k)[..q] == o;
    }
  }

  lemma {:induction false} CurOpen(marks: seq<Mark>, k: nat)
    requires k <= |marks| && CurLine(marks, k).Some?
    ensures var c := CurLine(marks, k).value;
            && c < k && IsNode(marks[c])
            && OpenAt(marks, k) == if marks[c].Opening? then OpenAt(marks, c) + [c] else OpenAt(marks, c)
    decreases k
  {
    if !IsNode(marks[k - 1]) {
      CurOpen(marks, k - 1);
    }
  }

  lemma {:induction false} MadeMono(marks: seq<Mark>, i: nat, k: nat)
    requires i <= k <= |marks|
    ensures Made(marks, i) <= Made(marks, k)
    ensures i < k && IsNode(marks[i]) ==> Made(marks, i) < Made(marks, k)
    decreases k
  {
    if i < k {
      MadeMono(marks, i, k - 1);
    }
  }
}
