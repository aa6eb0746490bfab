/** Printing and parsing are inverse: a printed tree parses back to itself. */
module KconfigRoundTrip {
  import opened KconfigExpr
  import opened KconfigScan
  import opened KconfigGrammar
  import opened KconfigReads

  predicate PlainText(s: string) { forall i | 0 <= i < |s| :: ' ' <= s[i] <= '~' && s[i] != '$' }

  /** A shell command is one balanced parenthesised text. */
  ghost predicate Balanced(cmd: string) {
    exists b: ShellText :: WfShell(b) && cmd == "(" + ShellStr(b) + ")"
  }

  ghost predicate Printable(e: Expr) {
    match e
    case Shell(cmd) => Balanced(cmd)
    case Not(ex) => Printable(ex)
    case Ident(name) => IdentText(name)
    case Str(val) => PlainText(val)
    case Bin(_, lex, rex) => Printable(lex) && Printable(rex)
  }

  // The concrete tree that Print writes.

  function QuotedOf(s: string): QuotedText {
    if s == "" then QEnd
    else if s[0] == '"' || s[0] == '\\' then QEsc(s[0], QuotedOf(s[1..]))
    else QChar(s[0], QuotedOf(s[1..]))
  }

  lemma {:induction false} QuotedOfPrints(s: string)
    requires PlainText(s)
    ensures WfQuoted('"', QuotedOf(s))
    ensures QuotedStr(QuotedOf(s)) == Escape(s) && QuotedValue(QuotedOf(s)) == s
  {
    if s != "" {
      assert s == [s[0]] + s[1..];
      QuotedOfPrints(s[1..]);
    }
  }

  function Single(t: CTerm): COr { COr(CAnd(CCmp(t, CmpNil), AndNil), OrNil) }

  function Pair(op: BinOp, a: CTerm, b: CTerm): COr {
    match op
    case OpAnd => COr(CAnd(CCmp(a, CmpNil), AndCons(" ", CCmp(b, CmpNil), AndNil)), OrNil)
    case OpOr => COr(CAnd(CCmp(a, CmpNil), AndNil), OrCons(" ", CAnd(CCmp(b, CmpNil), AndNil), OrNil))
    case _ => COr(CAnd(CCmp(a, CmpCons(op, " ", b, CmpNil)), AndNil), OrNil)
  }

  // A chain of one element reads and means what its element does.

  lemma OneTerm(t: CTerm)
    requires WfTerm(t)
    ensures WfCmp(CCmp(t, CmpNil))
    ensures CmpStr(CCmp(t, CmpNil)) == TermStr(t) && CmpMeans(CCmp(t, CmpNil)) == TermMeans(t)
  {
    assert TermStr(t) + "" == TermStr(t);
    assert WfCmpTail(CmpNil) && CmpTailStr(CmpNil) == "";
    assert FoldCmp(TermMeans(t), CmpNil) == TermMeans(t);
  }

  lemma OneCmp(c: CCmp)
    requires WfCmp(c)
    ensures WfAnd(CAnd(c, AndNil))
    ensures AndStr(CAnd(c, AndNil)) == CmpStr(c) && AndMeans(CAnd(c, AndNil)) == CmpMeans(c)
  {
    assert CmpStr(c) + "" == CmpStr(c);
    assert WfAndTail(AndNil) && AndTailStr(AndNil) == "";
    assert FoldAnd(CmpMeans(c), AndNil) == CmpMeans(c);
  }

  lemma OneAnd(c: CAnd)
    requires WfAnd(c)
    ensures WfOr(COr(c, OrNil))
    ensures OrStr(COr(c, OrNil)) == AndStr(c) && OrMeans(COr(c, OrNil)) == AndMeans(c)
  {
    assert AndStr(c) + "" == AndStr(c);
    assert WfOrTail(OrNil) && OrTailStr(OrNil) == "";
    assert FoldOr(AndMeans(c), OrNil) == AndMeans(c);
  }

  lemma SingleIs(t: CTerm)
    requires WfTerm(t)
    ensures WfOr(Single(t)) && OrStr(Single(t)) == TermStr(t) && OrMeans(Single(t)) == TermMeans(t)
  {
    OneTerm(t);
    OneCmp(CCmp(t, CmpNil));
    OneAnd(CAnd(CCmp(t, CmpNil), AndNil));
  }

  lemma CmpPair(op: BinOp, a: CTerm, b: CTerm)
    requires WfTerm(a) && WfTerm(b) && IsCmp(op)
    ensures var c := CCmp(a, CmpCons(op, " ", b, CmpNil));
            WfCmp(c) && CmpStr(c) == TermStr(a) + OpText(op) + " " + TermStr(b) &&
            CmpMeans(c) == Bin(op, TermMeans(a), TermMeans(b))
  {
    var l := CmpCons(op, " ", b, CmpNil);
    assert WfCmpTail(CmpNil) && WfCmpTail(l);
    assert CmpTailStr(l) == OpText(op) + (" " + (TermStr(b) + CmpTailStr(CmpNil)));
    assert CmpTailStr(CmpNil) == "";
    assert FoldCmp(TermMeans(a), l) == FoldCmp(Bin(op, TermMeans(a), TermMeans(b)), CmpNil);
  }

  lemma AndPair(a: CCmp, b: CCmp)
    requires WfCmp(a) && WfCmp(b)
    ensures var c := CAnd(a, AndCons(" ", b, AndNil));
            WfAnd(c) && AndStr(c) == CmpStr(a) + "&&" + " " + CmpStr(b) &&
            AndMeans(c) == Bin(OpAnd, CmpMeans(a), CmpMeans(b))
  {
    var l := AndCons(" ", b, AndNil);
    assert WfAndTail(AndNil) && WfAndTail(l);
    assert AndTailStr(l) == "&&" + (" " + (CmpStr(b) + AndTailStr(AndNil)));
    assert AndTailStr(AndNil) == "";
    assert FoldAnd(CmpMeans(a), l) == FoldAnd(Bin(OpAnd, CmpMeans(a), CmpMeans(b)), AndNil);
  }

  lemma OrPair(a: CAnd, b: CAnd)
    requires WfAnd(a) && WfAnd(b)
    ensures var c := COr(a, OrCons(" ", b, OrNil));
            WfOr(c) && OrStr(c) == AndStr(a) + "||" + " " + AndStr(b) &&
            OrMeans(c) == Bin(OpOr, AndMeans(a), AndMeans(b))
  {
    var l := OrCons(" ", b, OrNil);
    assert WfOrTail(OrNil) && WfOrTail(l);
    assert OrTailStr(l) == "||" + (" " + (AndStr(b) + OrTailStr(OrNil)));
    assert OrTailStr(OrNil) == "";
    assert FoldOr(AndMeans(a), l) == FoldOr(Bin(OpOr, AndMeans(a), AndMeans(b)), OrNil);
  }

  lemma PairIs(op: BinOp, a: CTerm, b: CTerm)
    requires WfTerm(a) && WfTerm(b)
    ensures WfOr(Pair(op, a, b))
    ensures OrStr(Pair(op, a, b)) == TermStr(a) + OpText(op) + " " + TermStr(b)
    ensures OrMeans(Pair(op, a, b)) == Bin(op, TermMeans(a), TermMeans(b))
  {
    var a1, b1 := CCmp(a, CmpNil), CCmp(b, CmpNil);
    OneTerm(a);
    OneTerm(b);
    if op == OpAnd {
      AndPair(a1, b1);
      OneAnd(CAnd(a1, AndCons(" ", b1, AndNil)));
    } else if op == OpOr {
      OneCmp(a1);
      OneCmp(b1);
      OrPair(CAnd(a1, AndNil), CAnd(b1, AndNil));
    } else {
      CmpPair(op, a, b);
      OneCmp(CCmp(a, CmpCons(op, " ", b, CmpNil)));
      OneAnd(CAnd(CCmp(a, CmpCons(op, " ", b, CmpNil)), AndNil));
    }
  }

  lemma ConcreteLeaf(e: Expr, sp: string) returns (t: CTerm)
    requires e.Ident? || e.Str? || e.Shell?
    requires Printable(e) && Blank(sp)
    ensures WfTerm(t) && TermStr(t) == Print(e) + sp && TermMeans(t) == e
  {
    match e
    case Ident(name) => t := CIdent(name, sp);
    case Str(val) =>
      QuotedOfPrints(val);
      t := CStr('"', QuotedOf(val), sp);
    case Shell(cmd) =>
      var b: ShellText :| WfShell(b) && cmd == "(" + ShellStr(b) + ")";
      t := CShell("", b, sp);
  }

  lemma Parenthesised(c: COr, sp: string)
    requires WfOr(c) && Blank(sp)
    ensures var t := CParen("", c, sp);
            WfTerm(t) && TermStr(t) == "(" + OrStr(c) + ")" + sp && TermMeans(t) == OrMeans(c)
  {
    assert "" + (OrStr(c) + (")" + sp)) == OrStr(c) + (")" + sp);
  }

  lemma ConcreteNot(inner: CTerm, ex: Expr, sp: string)
    requires WfTerm(inner) && TermStr(inner) == Print(ex) && TermMeans(inner) == ex && Blank(sp)
    ensures var t := CNot("", CParen("", Single(inner), sp));
            WfTerm(t) && TermStr(t) == Print(Not(ex)) + sp && TermMeans(t) == Not(ex)
  {
    SingleIs(inner);
    Parenthesised(Single(inner), sp);
    var p := CParen("", Single(inner), sp);
    assert TermStr(CNot("", p)) == "!" + ("" + TermStr(p));
    assert Print(Not(ex)) == "!(" + Print(ex) + ")";
  }

  lemma Bracketed(left: string, op: string, right: string)
    ensures "(" + left + " " + op + " " + right + ")" == "(" + (left + " " + op + " " + right) + ")"
  {
  }

  lemma BinPrints(c: COr, op: BinOp, lex: Expr, rex: Expr, left: string, right: string, sp: string)
    requires WfOr(c) && OrStr(c) == left + OpText(op) + " " + right && OrMeans(c) == Bin(op, lex, rex) && Blank(sp)
    requires left == Print(lex) + " " && right == Print(rex)
    ensures var t := CParen("", c, sp);
            WfTerm(t) && TermStr(t) == Print(Bin(op, lex, rex)) + sp && TermMeans(t) == Bin(op, lex, rex)
  {
    Parenthesised(c, sp);
    Bracketed(Print(lex), OpText(op), Print(rex));
  }

  lemma ConcreteBin(op: BinOp, a: CTerm, b: CTerm, lex: Expr, rex: Expr, sp: string)
    requires WfTerm(a) && TermStr(a) == Print(lex) + " " && TermMeans(a) == lex
    requires WfTerm(b) && TermStr(b) == Print(rex) && TermMeans(b) == rex && Blank(sp)
    ensures var t := CParen("", Pair(op, a, b), sp);
            WfTerm(t) && TermStr(t) == Print(Bin(op, lex, rex)) + sp && TermMeans(t) == Bin(op, lex, rex)
  {
    PairIs(op, a, b);
    BinPrints(Pair(op, a, b), op, lex, rex, TermStr(a), TermStr(b), sp);
  }

  /** The concrete tree of a printed expression, followed by blanks. */
  lemma {:induction false} Concrete(e: Expr, sp: string) returns (t: CTerm)
    requires Printable(e) && Blank(sp)
    ensures WfTerm(t) && TermStr(t) == Print(e) + sp && TermMeans(t) == e
    decreases e
  {
    match e
    case Not(ex) =>
      var inner := Concrete(ex, "");
      assert Print(ex) + "" == Print(ex);
      ConcreteNot(inner, ex, sp);
      t := CNot("", CParen("", Single(inner), sp));
    case Bin(op, lex, rex) =>
      var a := Concrete(lex, " ");
      var b := Concrete(rex, "");
      assert Print(rex) + "" == Print(rex);
      ConcreteBin(op, a, b, lex, rex, sp);
      t := CParen("", Pair(op, a, b), sp);
    case _ =>
      t := ConcreteLeaf(e, sp);
  }

  /** Parsing the printed form gives the tree back and consumes exactly it. */
  lemma RoundTrip(e: Expr, rest: string)
    requires Printable(e) && StopOr(rest)
    ensures ParseOr(Print(e) + rest, false) == Parsed(e, rest, false)
  {
    var t := Concrete(e, "");
    SingleIs(t);
    OrReads(Single(t), rest);
    assert OrStr(Single(t)) == Print(e);
  }

  /** Hence printing is injective on printable trees. */
  lemma PrintInjective(e1: Expr, e2: Expr)
    requires Printable(e1) && Printable(e2) && Print(e1) == Print(e2)
    ensures e1 == e2
  {
    RoundTrip(e1, "");
    RoundTrip(e2, "");
  }
}
