/** Kconfig expressions (kconfig/expr.go): the tree, its printed form and the
    symbols it mentions. */
module KconfigExpr {
  import opened Options

  datatype BinOp = OpAnd | OpOr | OpEq | OpNe | OpLt | OpLe | OpGt | OpGe

  datatype Expr =
    | Shell(cmd: string)
    | Not(ex: Expr)
    | Ident(name: string)
    | Str(val: string)
    | Bin(op: BinOp, lex: Expr, rex: Expr)

  function OpText(op: BinOp): string {
    match op
    case OpAnd => "&&"
    case OpOr => "||"
    case OpEq => "="
    case OpNe => "!="
    case OpLt => "<"
    case OpLe => "<="
    case OpGt => ">"
    case OpGe => ">="
  }

  predicate Control(c: char) { c < ' ' || c as int == 127 }

  function HexDigit(n: nat): char
    requires n < 16
  {
    "0123456789abcdef"[n]
  }

  /** How `%q` writes a control character, after the backslash. */
  function ControlCode(c: char): string
    requires Control(c)
  {
    var n := c as int;
    if n == 7 then "a"
    else if n == 8 then "b"
    else if n == 9 then "t"
    else if n == 10 then "n"
    else if n == 11 then "v"
    else if n == 12 then "f"
    else if n == 13 then "r"
    else ['x', HexDigit(n / 16), HexDigit(n % 16)]
  }

  function EscapeChar(c: char): string {
    if c == '"' || c == '\\' then ['\\', c]
    else if Control(c) then ['\\'] + ControlCode(c)
    else [c]
  }

  /** The body of Go's `%q` on ASCII text. */
  function Escape(s: string): string {
    if s == "" then "" else EscapeChar(s[0]) + Escape(s[1..])
  }

  function Print(e: Expr): string {
    match e
    case Shell(cmd) => "$" + cmd
    case Not(ex) => "!(" + Print(ex) + ")"
    case Ident(name) => name
    case Str(val) => "\"" + Escape(val) + "\""
    case Bin(op, lex, rex) => "(" + Print(lex) + " " + OpText(op) + " " + Print(rex) + ")"
  }

  /** Direct dependencies. A negation hides every symbol below it. */
  function CollectDeps(e: Expr): set<string> {
    match e
    case Shell(_) => {}
    case Not(_) => {}
    case Ident(name) => {name}
    case Str(_) => {}
    case Bin(_, lex, rex) => CollectDeps(lex) + CollectDeps(rex)
  }

  /** `exprAnd`: a missing condition (Go's nil) is dropped. */
  function ExprAnd(lex: Option<Expr>, rex: Option<Expr>): Option<Expr> {
    if lex.None? then rex
    else if rex.None? then lex
    else Some(Bin(OpAnd, lex.value, rex.value))
  }
}
