/** What the scanner and the recursive-descent expression parser compute
    (kconfig/parser.go, kconfig/expr.go), as functions of the unread part of the
    current line and of the flag that says whether an error is already recorded.
    The class in KconfigParser.dfy is proved against these functions. */
module KconfigScan {
  import opened Options
  import opened KconfigExpr

  datatype Token = Token(text: string, rest: string, err: bool)
  datatype Parsed = Parsed(ex: Expr, rest: string, err: bool)

  predicate IsSpace(c: char) { c == ' ' || c == '\t' }

  predicate IsIdent(c: char) {
    'a' <= c <= 'z' || 'A' <= c <= 'Z' || '0' <= c <= '9' || c == '_' || c == '-'
  }

  function SkipSpaces(r: string): (t: string)
    ensures |t| <= |r|
    ensures t == "" || !IsSpace(t[0])
  {
    if r != "" && IsSpace(r[0]) then SkipSpaces(r[1..]) else r
  }

  function TryConsume(r: string, what: string): (t: Option<string>)
    requires what != ""
    ensures t.Some? ==> |t.value| < |r|
  {
    if what <= r then Some(SkipSpaces(r[|what|..])) else None
  }

  function Peek(r: string, err: bool): char {
    if err || r == "" then '\0' else r[0]
  }

  function IdentLen(r: string): (n: nat)
    ensures n <= |r|
  {
    if r != "" && IsIdent(r[0]) then 1 + IdentLen(r[1..]) else 0
  }

  function ScanIdent(r: string, err: bool): (t: Token)
    ensures err ==> t.err
    ensures |t.rest| <= |r|
  {
    var n := if err then 0 else IdentLen(r);
    Token(r[..n], SkipSpaces(r[n..]), err || n == 0)
  }

  /** The text of a quoted string, before environment interpolation. */
  function ScanQuoted(r: string, err: bool): (t: Token)
    ensures err ==> t.err
    ensures |t.rest| <= |r|
    ensures !err && r != "" ==> |t.rest| < |r|
    decreases |r|, 1
  {
    if err || r == "" then Token("", SkipSpaces(r), true)
    else
      var t := QuotedLoop(r[0], r[1..], r[0] != '"' && r[0] != '\'');
      t.(rest := SkipSpaces(t.rest))
  }

  function QuotedLoop(quote: char, r: string, err: bool): (t: Token)
    ensures err ==> t.err
    ensures |t.rest| <= |r|
    decreases |r|, 0
  {
    if err || r == "" then Token("", r, true)
    else if r[0] == quote then Token("", r[1..], false)
    else if r[0] == '\0' then Token("", r[1..], true)
    else if r[0] == '\\' then
      if |r| == 1 then Token("", "", true)
      else if r[1] == '\'' || r[1] == '"' || r[1] == '\\' then
        var t := QuotedLoop(quote, r[2..], false);
        t.(text := [r[1]] + t.text)
      else Token("", r[2..], true)
    else if r[0] == '$' && Peek(r[1..], false) == '(' then
      var s := ScanShell(r[1..], false);
      var t := QuotedLoop(quote, s.rest, s.err);
      t.(text := "$" + s.text + t.text)
    else
      var t := QuotedLoop(quote, r[1..], false);
      t.(text := [r[0]] + t.text)
  }

  function ScanShell(r: string, err: bool): (t: Token)
    ensures err ==> t.err
    ensures |t.rest| <= |r|
    ensures "(" <= r ==> |t.rest| < |r|
    decreases |r|, 1
  {
    var open := TryConsume(r, "(");
    var body := if open.Some? then ShellLoop(open.value, err) else ShellLoop(r, true);
    var closed := !body.err && body.rest != "" && body.rest[0] == ')';
    var after := if closed then body.rest[1..] else body.rest;
    Token(r[..|r| - |after|], SkipSpaces(after), !closed)
  }

  /** Runs to the closing parenthesis of the current level, or to the end of
      the line; after an error every remaining character is stepped over. */
  function ShellLoop(r: string, err: bool): (t: Token)
    ensures err ==> t.err
    ensures |t.rest| <= |r|
    ensures t.rest == "" || (!t.err && t.rest[0] == ')')
    decreases |r|, if err then 0 else 2
  {
    if r == "" then Token("", r, err)
    else if err then Token("", "", true)
    else if r[0] == ')' then Token("", r, false)
    else if r[0] == '"' then
      var q := ScanQuoted(r, false);
      ShellLoop(q.rest, q.err)
    else if r[0] == '(' then
      var s := ScanShell(r, false);
      ShellLoop(s.rest, s.err)
    else ShellLoop(r[1..], false)
  }

  /** The comparison operator at the cursor, tried in the parser's order. */
  function CmpOp(r: string): (t: Option<(BinOp, string)>)
    ensures t.Some? ==> |t.value.1| < |r|
  {
    if "=" <= r then Some((OpEq, SkipSpaces(r[1..])))
    else if "!=" <= r then Some((OpNe, SkipSpaces(r[2..])))
    else if "<=" <= r then Some((OpLe, SkipSpaces(r[2..])))
    else if ">=" <= r then Some((OpGe, SkipSpaces(r[2..])))
    else if "<" <= r then Some((OpLt, SkipSpaces(r[1..])))
    else if ">" <= r then Some((OpGt, SkipSpaces(r[1..])))
    else None
  }

  function ParseOr(r: string, err: bool): (p: Parsed)
    ensures err ==> p.err
    ensures |p.rest| <= |r|
    decreases |r|, 6
  {
    var a := ParseAnd(r, err);
    OrLoop(a.ex, a.rest, a.err)
  }

  function OrLoop(ex: Expr, r: string, err: bool): (p: Parsed)
    ensures err ==> p.err
    ensures |p.rest| <= |r|
    decreases |r|, 5
  {
    var op := TryConsume(r, "||");
    if op.None? then Parsed(ex, r, err)
    else
      var a := ParseAnd(op.value, err);
      OrLoop(Bin(OpOr, ex, a.ex), a.rest, a.err)
  }

  function ParseAnd(r: string, err: bool): (p: Parsed)
    ensures err ==> p.err
    ensures |p.rest| <= |r|
    decreases |r|, 4
  {
    var a := ParseCmp(r, err);
    AndLoop(a.ex, a.rest, a.err)
  }

  function AndLoop(ex: Expr, r: string, err: bool): (p: Parsed)
    ensures err ==> p.err
    ensures |p.rest| <= |r|
    decreases |r|, 3
  {
    var op := TryConsume(r, "&&");
    if op.None? then Parsed(ex, r, err)
    else
      var a := ParseCmp(op.value, err);
      AndLoop(Bin(OpAnd, ex, a.ex), a.rest, a.err)
  }

  function ParseCmp(r: string, err: bool): (p: Parsed)
    ensures err ==> p.err
    ensures |p.rest| <= |r|
    decreases |r|, 2
  {
    var a := ParseTerm(r, err);
    CmpLoop(a.ex, a.rest, a.err)
  }

  function CmpLoop(ex: Expr, r: string, err: bool): (p: Parsed)
    ensures err ==> p.err
    ensures |p.rest| <= |r|
    decreases |r|, 1
  {
    var op := CmpOp(r);
    if op.None? then Parsed(ex, r, err)
    else
      var a := ParseTerm(op.value.1, err);
      CmpLoop(Bin(op.value.0, ex, a.ex), a.rest, a.err)
  }

  function ParseTerm(r: string, err: bool): (p: Parsed)
    ensures err ==> p.err
    ensures |p.rest| <= |r|
    decreases |r|, 0
  {
    var dollar := TryConsume(r, "$");
    if dollar.Some? then
      var s := ScanShell(dollar.value, err);
      Parsed(Shell(s.text), s.rest, s.err)
    else if Peek(r, err) == '"' || Peek(r, err) == '\'' then
      var q := ScanQuoted(r, err);
      Parsed(Str(q.text), q.rest, q.err)
    else
      var bang := TryConsume(r, "!");
      if bang.Some? then
        var t := ParseTerm(bang.value, err);
        t.(ex := Not(t.ex))
      else
        var open := TryConsume(r, "(");
        if open.Some? then
          var e := ParseOr(open.value, err);
          var close := TryConsume(e.rest, ")");
          if close.Some? then e.(rest := close.value) else e.(err := true)
        else
          var t := ScanIdent(r, err);
          Parsed(Ident(t.text), t.rest, t.err)
  }

  // Lines of a file.

  datatype Split = Split(line: string, data: string)

  function IndexNl(data: string): (n: nat)
    ensures n <= |data| && (n < |data| ==> data[n] == '\n')
  {
    if data == "" || data[0] == '\n' then 0 else 1 + IndexNl(data[1..])
  }

  /** The first line and what follows its newline. */
  function ReadLine(data: string): (s: Split)
    ensures data != "" ==> |s.data| < |data|
  {
    var n := IndexNl(data);
    Split(data[..n], if n < |data| then data[n + 1..] else "")
  }

  /** A line that ends in a backslash goes on with the next one. */
  function JoinLines(line: string, data: string): (s: Split)
    ensures |s.data| <= |data|
    decreases |data|
  {
    if line != "" && line[|line| - 1] == '\\' && data != "" then
      var next := ReadLine(data);
      JoinLines(line[..|line| - 1] + next.line, next.data)
    else Split(line, data)
  }

  function NextLogical(data: string): (s: Split)
    ensures data != "" ==> |s.data| < |data|
  {
    var first := ReadLine(data);
    JoinLines(first.line, first.data)
  }

  /** The column after `s`, tabs reaching to the next multiple of eight. */
  function Level(s: string): nat {
    if s == "" then 0
    else
      var n := |s| - 1;
      var level := Level(s[..n]) + 1;
      if s[n] == '\t' then (level + 7) / 8 * 8 else level
  }

  /** The file a `source` line names, after the parser's own reading of the line. */
  function IncludeOf(line: string): Option<string> {
    var r := SkipSpaces(line);
    var id := ScanIdent(r, false);
    if r == "" || "#" <= r || id.text != "source" || "=" <= id.rest || ":=" <= id.rest then None
    else Some(FileOperand(id.rest, id.err))
  }

  /** A quoted file name, or else the rest of the line. */
  function FileOperand(r: string, err: bool): string {
    if Peek(r, err) == '"' || Peek(r, err) == '\'' then ScanQuoted(r, err).text else r
  }
}
