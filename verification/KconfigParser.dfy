/** The line scanner and expression parser (kconfig/parser.go, kconfig/expr.go):
    an object whose methods advance a cursor over the current line. Every method
    is total, whatever line, cursor and error flag it starts from: it terminates,
    keeps the line, never moves the cursor back or past the end, and computes the
    function of KconfigScan. */
module KconfigParser {
  import opened Options
  import opened KconfigExpr
  import S = KconfigScan

  class Parser {
    var data: string
    var current: string
    var col: nat
    var line: nat
    var err: bool

    constructor (text: string)
      ensures data == text && current == "" && col == 0 && line == 0 && !err
    {
      data, current, col, line, err := text, "", 0, 0, false;
    }

    ghost predicate Valid()
      reads this
    {
      col <= |current|
    }

    ghost function Rest(): string
      reads this
      requires Valid()
    {
      current[col..]
    }

    /** Only the cursor moved, forward, and no error was forgotten. */
    twostate predicate Forward()
      reads this
    {
      old(Valid()) && Valid() && current == old(current) && data == old(data) && line == old(line) &&
      old(col) <= col && (old(err) ==> err)
    }

    method SkipSpaces()
      requires Valid()
      modifies this`col
      ensures Forward() && Rest() == S.SkipSpaces(old(Rest()))
    {
      while col < |current| && (current[col] == ' ' || current[col] == '\t')
        invariant old(col) <= col <= |current|
        invariant S.SkipSpaces(Rest()) == S.SkipSpaces(old(Rest()))
      {
        assert Rest()[1..] == current[col + 1..];
        col := col + 1;
      }
    }

    method ReadNextLine() returns (text: string)
      modifies this`data
      ensures S.Split(text, data) == S.ReadLine(old(data))
    {
      var n := 0;
      while n < |data| && data[n] != '\n'
        invariant n <= |data| && S.IndexNl(data) == n + S.IndexNl(data[n..])
      {
        assert data[n..][1..] == data[n + 1..];
        n := n + 1;
      }
      text := data[..n];
      data := if n < |data| then data[n + 1..] else "";
    }

    /** Steps to the next logical line unless an error stopped the parser. */
    method NextLine() returns (ok: bool)
      requires Valid()
      modifies this
      ensures Valid() && err == old(err)
      ensures ok <==> !old(err) && old(data) != ""
      ensures ok ==> S.Split(current, data) == S.NextLogical(old(data)) && Rest() == S.SkipSpaces(current)
      ensures !ok ==> data == old(data) && current == old(current) && col == old(col) && line == old(line)
    {
      if err || |data| == 0 {
        return false;
      }
      col := 0;
      line := line + 1;
      current := ReadNextLine();
      while current != "" && current[|current| - 1] == '\\' && |data| != 0
        invariant col == 0 && err == old(err)
        invariant S.JoinLines(current, data) == S.NextLogical(old(data))
        decreases |data|
      {
        var more := ReadNextLine();
        current := current[..|current| - 1] + more;
        line := line + 1;
      }
      assert Rest() == current;
      SkipSpaces();
      return true;
    }

    /** The column of the cursor, tabs reaching to the next multiple of eight. */
    method IdentLevel() returns (level: nat)
      requires Valid()
      ensures level == S.Level(current[..col])
    {
      level := 0;
      var i := 0;
      while i < col
        invariant i <= col && level == S.Level(current[..i])
      {
        assert current[..i + 1][..i] == current[..i];
        level := level + 1;
        if current[i] == '\t' {
          level := (level + 7) / 8 * 8;
        }
        i := i + 1;
      }
    }

    method ConsumeLine() returns (res: string)
      requires Valid()
      modifies this`col
      ensures Forward() && res == old(Rest()) && Rest() == "" && err == old(err)
    {
      res := current[col..];
      col := |current|;
    }

    method Failf()
      modifies this`err
      ensures err
    {
      err := true;
    }

    predicate Eol()
      reads this
    {
      col == |current|
    }

    method Char() returns (v: char)
      requires Valid()
      modifies this`col, this`err
      ensures Forward()
      ensures if old(err) || old(Rest()) == "" then v == '\0' && err && col == old(col)
              else !err && v == old(Rest())[0] && col == old(col) + 1 && Rest() == old(Rest())[1..]
    {
      if err {
        return '\0';
      }
      if Eol() {
        Failf();
        return '\0';
      }
      v := current[col];
      col := col + 1;
    }

    function Peek(): (v: char)
      requires Valid()
      reads this
      ensures v == S.Peek(Rest(), err)
    {
      if err || Eol() then '\0' else current[col]
    }

    method TryConsume(what: string) returns (ok: bool)
      requires Valid() && what != ""
      modifies this`col
      ensures Forward()
      ensures ok == S.TryConsume(old(Rest()), what).Some?
      ensures Rest() == if ok then S.TryConsume(old(Rest()), what).value else old(Rest())
      ensures ok ==> col >= old(col) + |what|
    {
      if !(what <= current[col..]) {
        return false;
      }
      assert current[col..][|what|..] == current[col + |what|..];
      col := col + |what|;
      SkipSpaces();
      return true;
    }

    method MustConsume(what: string)
      requires Valid() && what != ""
      modifies this`col, this`err
      ensures Forward()
      ensures var t := S.TryConsume(old(Rest()), what);
              if t.Some? then Rest() == t.value && err == old(err) && col > old(col)
              else Rest() == old(Rest()) && err
    {
      var ok := TryConsume(what);
      if !ok {
        Failf();
      }
    }

    method Ident() returns (str: string)
      requires Valid()
      modifies this`col, this`err
      ensures Forward()
      ensures S.Token(str, Rest(), err) == S.ScanIdent(old(Rest()), old(err))
    {
      str := "";
      ghost var all := Rest();
      while !Eol()
        invariant Valid() && old(col) <= col && err == old(err)
        invariant col == old(col) + |str| && str == all[..|str|]
        invariant (if err then 0 else S.IdentLen(all)) == |str| + (if err then 0 else S.IdentLen(Rest()))
        decreases |current| - col
      {
        var ch := Peek();
        if 'a' <= ch <= 'z' || 'A' <= ch <= 'Z' || '0' <= ch <= '9' || ch == '_' || ch == '-' {
          assert Rest()[1..] == current[col + 1..];
          str := str + [ch];
          col := col + 1;
        } else {
          break;
        }
      }
      assert Rest() == all[|str|..];
      if |str| == 0 {
        Failf();
      }
      SkipSpaces();
    }

    method QuotedString() returns (str: string)
      requires Valid()
      modifies this`col, this`err
      ensures Forward()
      ensures !old(err) && old(Rest()) != "" ==> col > old(col)
      ensures S.Token(str, Rest(), err) == S.ScanQuoted(old(Rest()), old(err))
      decreases |current| - col, 3
    {
      var quote := Char();
      if quote != '"' && quote != '\'' {
        Failf();
      }
      str := QuotedBody(quote);
      SkipSpaces();
    }

    /** Up to the closing quote. */
    method QuotedBody(quote: char) returns (str: string)
      requires Valid()
      modifies this`col, this`err
      ensures Forward()
      ensures S.Token(str, Rest(), err) == S.QuotedLoop(quote, old(Rest()), old(err))
      decreases |current| - col, 2
    {
      str := "";
      ghost var goal := S.QuotedLoop(quote, Rest(), err);
      var done := false;
      while !done
        invariant Forward()
        invariant done ==> goal == S.Token(str, Rest(), err)
        invariant !done ==> var t := S.QuotedLoop(quote, Rest(), err); goal == t.(text := str + t.text)
        decreases !done, |current| - col
      {
        var more;
        more, done := QuotedNext(quote);
        str := str + more;
      }
    }

    /** One round of the quoted-string loop: the text it adds, and whether it was the last. */
    method QuotedNext(quote: char) returns (str: string, done: bool)
      requires Valid()
      modifies this`col, this`err
      ensures Forward() && (!done ==> col > old(col))
      ensures !done && !err ==> !old(err)
      ensures var goal := S.QuotedLoop(quote, old(Rest()), old(err));
              if done then goal == S.Token(str, Rest(), err)
              else var t := S.QuotedLoop(quote, Rest(), err); goal == t.(text := str + t.text)
      decreases |current| - col, 1
    {
      str := "";
      var ch := Char();
      if ch == quote {
        return "", true;
      }
      if ch == '\0' {
        Failf();
        return "", true;
      }
      if ch == '\\' {
        ch := Char();
        if ch == '\'' || ch == '"' || ch == '\\' {
          return [ch], false;
        }
        Failf();
        return "", false;
      }
      if ch == '$' && Peek() == '(' {
        str := Shell();
        return [ch] + str, false;
      }
      return [ch], false;
    }

    method TryQuotedString() returns (str: string, ok: bool)
      requires Valid()
      modifies this`col, this`err
      ensures Forward()
      ensures ok == (S.Peek(old(Rest()), old(err)) == '"' || S.Peek(old(Rest()), old(err)) == '\'')
      ensures if ok then S.Token(str, Rest(), err) == S.ScanQuoted(old(Rest()), old(err))
              else Rest() == old(Rest()) && err == old(err)
    {
      var ch := Peek();
      if ch == '"' || ch == '\'' {
        str := QuotedString();
        return str, true;
      }
      return "", false;
    }

    method Shell() returns (res: string)
      requires Valid()
      modifies this`col, this`err
      ensures Forward()
      ensures "(" <= old(Rest()) ==> col > old(col)
      ensures S.Token(res, Rest(), err) == S.ScanShell(old(Rest()), old(err))
      decreases |current| - col, 3
    {
      var start := col;
      MustConsume("(");
      ShellBody();
      var ch := Char();
      if ch != ')' {
        Failf();
      }
      res := current[start..col];
      assert res == old(Rest())[..col - start];
      SkipSpaces();
    }

    /** Up to the closing parenthesis, or to the end of the line. */
    method ShellBody()
      requires Valid()
      modifies this`col, this`err
      ensures Forward() && S.Token("", Rest(), err) == S.ShellLoop(old(Rest()), old(err))
      decreases |current| - col, if err then 1 else 5
    {
      while !Eol() && Peek() != ')'
        invariant Forward() && (err ==> old(err) || col > old(col))
        invariant S.ShellLoop(Rest(), err) == S.ShellLoop(old(Rest()), old(err))
        decreases |current| - col
      {
        ShellNext();
      }
    }

    /** One round of the shell loop. */
    method ShellNext()
      requires Valid() && !Eol() && Peek() != ')'
      modifies this`col, this`err
      ensures Forward() && col > old(col)
      ensures S.ShellLoop(Rest(), err) == S.ShellLoop(old(Rest()), old(err))
      decreases |current| - col, if err then 0 else 4
    {
      if Peek() == '"' {
        var _ := QuotedString();
      } else if Peek() == '(' {
        var _ := Shell();
      } else {
        assert Rest()[1..] == current[col + 1..];
        col := col + 1;
      }
    }

    method ParseExpr() returns (ex: Expr)
      requires Valid()
      modifies this`col, this`err
      ensures Forward()
      ensures S.Parsed(ex, Rest(), err) == S.ParseOr(old(Rest()), old(err))
      decreases |current| - col, 3
    {
      ex := ParseExprAnd();
      while true
        invariant Forward()
        invariant S.OrLoop(ex, Rest(), err) == S.ParseOr(old(Rest()), old(err))
        decreases |current| - col
      {
        var more := TryConsume("||");
        if !more {
          break;
        }
        var rex := ParseExprAnd();
        ex := Bin(OpOr, ex, rex);
      }
    }

    method ParseExprAnd() returns (ex: Expr)
      requires Valid()
      modifies this`col, this`err
      ensures Forward()
      ensures S.Parsed(ex, Rest(), err) == S.ParseAnd(old(Rest()), old(err))
      decreases |current| - col, 2
    {
      ex := ParseExprCmp();
      while true
        invariant Forward()
        invariant S.AndLoop(ex, Rest(), err) == S.ParseAnd(old(Rest()), old(err))
        decreases |current| - col
      {
        var more := TryConsume("&&");
        if !more {
          break;
        }
        var rex := ParseExprCmp();
        ex := Bin(OpAnd, ex, rex);
      }
    }

    method TryCmpOp() returns (op: Option<BinOp>)
      requires Valid()
      modifies this`col
      ensures Forward() && (op.Some? ==> col > old(col))
      ensures var t := S.CmpOp(old(Rest()));
              if t.Some? then op == Some(t.value.0) && Rest() == t.value.1
              else op == None && Rest() == old(Rest())
    {
      var ok := TryConsume("=");
      if ok { return Some(OpEq); }
      ok := TryConsume("!=");
      if ok { return Some(OpNe); }
      op := TryOrderOp();
    }

    /** The operators that are tried last. */
    method TryOrderOp() returns (op: Option<BinOp>)
      requires Valid() && !("=" <= Rest()) && !("!=" <= Rest())
      modifies this`col
      ensures Forward() && (op.Some? ==> col > old(col))
      ensures var t := S.CmpOp(old(Rest()));
              if t.Some? then op == Some(t.value.0) && Rest() == t.value.1
              else op == None && Rest() == old(Rest())
    {
      var ok := TryConsume("<=");
      if ok { return Some(OpLe); }
      ok := TryConsume(">=");
      if ok { return Some(OpGe); }
      ok := TryConsume("<");
      if ok { return Some(OpLt); }
      ok := TryConsume(">");
      if ok { return Some(OpGt); }
      return None;
    }

    method ParseExprCmp() returns (ex: Expr)
      requires Valid()
      modifies this`col, this`err
      ensures Forward()
      ensures S.Parsed(ex, Rest(), err) == S.ParseCmp(old(Rest()), old(err))
      decreases |current| - col, 1
    {
      ex := ParseExprTerm();
      while true
        invariant Forward()
        invariant S.CmpLoop(ex, Rest(), err) == S.ParseCmp(old(Rest()), old(err))
        decreases |current| - col
      {
        var op := TryCmpOp();
        if op.None? {
          break;
        }
        var rex := ParseExprTerm();
        ex := Bin(op.value, ex, rex);
      }
    }

    method ParseExprTerm() returns (ex: Expr)
      requires Valid()
      modifies this`col, this`err
      ensures Forward()
      ensures S.Parsed(ex, Rest(), err) == S.ParseTerm(old(Rest()), old(err))
      decreases |current| - col, 0
    {
      var ok := TryConsume("$");
      if ok {
        var cmd := Shell();
        return KconfigExpr.Shell(cmd);
      }
      var str;
      str, ok := TryQuotedString();
      if ok {
        return Str(str);
      }
      ok := TryConsume("!");
      if ok {
        var inner := ParseExprTerm();
        return Not(inner);
      }
      ok := TryConsume("(");
      if ok {
        ex := ParseExpr();
        MustConsume(")");
        return;
      }
      var name := Ident();
      return KconfigExpr.Ident(name);
    }
  }
}
