/** The parser reads every tree of the reference grammar: the printed text of
    any concrete tree parses to its meaning and exactly that text is consumed. */
module KconfigReads {
  import opened Options
  import opened KconfigExpr
  import opened KconfigScan
  import opened KconfigGrammar

  /** The characters a term can begin with. */
  predicate TermStart(c: char) { IsIdent(c) || c == '"' || c == '\'' || c == '$' || c == '!' || c == '(' }

  lemma TermFirst(t: CTerm)
    requires WfTerm(t)
    ensures TermStr(t) != "" && TermStart(TermStr(t)[0])
  {
  }

  lemma AndFirst(c: CAnd)
    requires WfAnd(c)
    ensures AndStr(c) != "" && TermStart(AndStr(c)[0])
  {
    assert WfCmp(c.head);
    TermFirst(c.head.head);
  }

  lemma OrFirst(c: COr)
    requires WfOr(c)
    ensures OrStr(c) != "" && TermStart(OrStr(c)[0])
  {
    AndFirst(c.head);
  }

  /** Consuming a fixed token skips the blanks behind it. */
  lemma Consumes(what: string, sp: string, r: string)
    requires what != "" && Blank(sp)
    requires r == "" || !IsSpace(r[0])
    ensures TryConsume(what + (sp + r), what) == Some(r)
  {
    var all := what + (sp + r);
    assert all[..|what|] == what;
    assert all[|what|..] == sp + r;
    SkipBlank(sp, r);
  }

  lemma CmpConsumes(op: BinOp, sp: string, r: string)
    requires IsCmp(op) && Blank(sp)
    requires r != "" && TermStart(r[0])
    ensures CmpOp(OpText(op) + (sp + r)) == Some((op, r))
  {
    var all := OpText(op) + (sp + r);
    assert all[|OpText(op)|..] == sp + r;
    SkipBlank(sp, r);
    assert |all| > |OpText(op)|;
    assert all[|OpText(op)|] == (sp + r)[0];
    assert all[0] == OpText(op)[0];
  }

  lemma NameScans(name: string, sp: string, rest: string)
    requires name != "" && (forall i | 0 <= i < |name| :: IsIdent(name[i])) && Blank(sp)
    requires rest == "" || (!IsIdent(rest[0]) && !IsSpace(rest[0]))
    ensures var all := name + (sp + rest);
            all != "" && all[0] == name[0] && ScanIdent(all, false) == Token(name, rest, false)
  {
    var all := name + (sp + rest);
    IdentSpan(name, sp + rest);
    assert all[..|name|] == name;
    assert all[|name|..] == sp + rest;
    SkipBlank(sp, rest);
  }

  lemma {:induction false} IdentReads(t: CTerm, rest: string)
    requires t.CIdent? && WfTerm(t) && StopTerm(rest)
    ensures ParseTerm(TermStr(t) + rest, false) == Parsed(TermMeans(t), rest, false)
  {
    assert TermStr(t) + rest == t.name + (t.sp + rest);
    NameScans(t.name, t.sp, rest);
  }

  lemma {:induction false} StrReads(t: CTerm, rest: string)
    requires t.CStr? && WfTerm(t) && StopTerm(rest)
    ensures ParseTerm(TermStr(t) + rest, false) == Parsed(TermMeans(t), rest, false)
  {
    var all := TermStr(t) + rest;
    assert all == [t.quote] + (QuotedStr(t.q) + ([t.quote] + (t.sp + rest)));
    assert all[1..] == QuotedStr(t.q) + ([t.quote] + (t.sp + rest));
    QuotedReads(t.quote, t.q, t.sp + rest);
    SkipBlank(t.sp, rest);
  }

  lemma {:induction false} ShellTermReads(t: CTerm, rest: string)
    requires t.CShell? && WfTerm(t) && StopTerm(rest)
    ensures ParseTerm(TermStr(t) + rest, false) == Parsed(TermMeans(t), rest, false)
  {
    var inner := "(" + (ShellStr(t.b) + (")" + (t.sp + rest)));
    assert TermStr(t) + rest == "$" + (t.sp0 + inner);
    Consumes("$", t.sp0, inner);
    ScanShellReads(t.b, t.sp + rest);
    assert SkipSpaces(t.sp + rest) == rest by { SkipBlank(t.sp, rest); }
  }

  lemma NotReads(sp: string, inner: string, p: Parsed)
    requires Blank(sp) && inner != "" && !IsSpace(inner[0])
    requires ParseTerm(inner, false) == p
    ensures ParseTerm("!" + (sp + inner), false) == p.(ex := Not(p.ex))
  {
    Consumes("!", sp, inner);
  }

  lemma ParenReads(sp: string, inner: string, ex: Expr, sp2: string, rest: string)
    requires Blank(sp) && Blank(sp2) && inner != "" && !IsSpace(inner[0])
    requires rest == "" || !IsSpace(rest[0])
    requires ParseOr(inner, false) == Parsed(ex, ")" + (sp2 + rest), false)
    ensures ParseTerm("(" + (sp + inner), false) == Parsed(ex, rest, false)
  {
    Consumes("(", sp, inner);
    Consumes(")", sp2, rest);
  }

  lemma NotTermReads(t: CTerm, rest: string)
    requires t.CNot? && WfTerm(t)
    requires ParseTerm(TermStr(t.t) + rest, false) == Parsed(TermMeans(t.t), rest, false)
    ensures ParseTerm(TermStr(t) + rest, false) == Parsed(TermMeans(t), rest, false)
  {
    assert TermStr(t) + rest == "!" + (t.sp + (TermStr(t.t) + rest));
    TermFirst(t.t);
    NotReads(t.sp, TermStr(t.t) + rest, Parsed(TermMeans(t.t), rest, false));
  }

  lemma ParenTermReads(t: CTerm, close: string, rest: string)
    requires t.CParen? && WfTerm(t) && close == ")" + (t.sp2 + rest) && (rest == "" || !IsSpace(rest[0]))
    requires ParseOr(OrStr(t.c) + close, false) == Parsed(OrMeans(t.c), close, false)
    ensures ParseTerm(TermStr(t) + rest, false) == Parsed(TermMeans(t), rest, false)
  {
    assert TermStr(t) + rest == "(" + (t.sp + (OrStr(t.c) + close));
    OrFirst(t.c);
    ParenReads(t.sp, OrStr(t.c) + close, OrMeans(t.c), t.sp2, rest);
  }

  lemma {:induction false} TermReads(t: CTerm, rest: string)
    requires WfTerm(t) && StopTerm(rest)
    ensures ParseTerm(TermStr(t) + rest, false) == Parsed(TermMeans(t), rest, false)
    decreases t, 0
  {
    match t
    case CIdent(_, _) => IdentReads(t, rest);
    case CStr(_, _, _) => StrReads(t, rest);
    case CShell(_, _, _) => ShellTermReads(t, rest);
    case CNot(sp, t1) =>
      TermReads(t1, rest);
      NotTermReads(t, rest);
    case CParen(sp, c, sp2) =>
      OrReads(c, ")" + (sp2 + rest));
      ParenTermReads(t, ")" + (sp2 + rest), rest);
  }

  lemma {:induction false} CmpReads(c: CCmp, rest: string)
    requires WfCmp(c) && StopCmp(rest)
    ensures ParseCmp(CmpStr(c) + rest, false) == Parsed(CmpMeans(c), rest, false)
    decreases c, 0
  {
    var after := CmpTailStr(c.tail) + rest;
    assert CmpStr(c) + rest == TermStr(c.head) + after;
    CmpTailStops(c.tail, rest);
    TermReads(c.head, after);
    CmpTailReads(TermMeans(c.head), c.tail, rest);
  }

  lemma CmpTailStops(l: CCmpTail, rest: string)
    requires WfCmpTail(l) && StopTerm(rest)
    ensures StopTerm(CmpTailStr(l) + rest)
  {
    if l.CmpNil? { assert CmpTailStr(l) + rest == rest; }
  }

  lemma {:induction false} CmpTailReads(ex: Expr, l: CCmpTail, rest: string)
    requires WfCmpTail(l) && StopCmp(rest)
    ensures CmpLoop(ex, CmpTailStr(l) + rest, false) == Parsed(FoldCmp(ex, l), rest, false)
    decreases l, 0
  {
    if l.CmpNil? {
      assert CmpTailStr(l) + rest == rest;
    } else {
      var after := CmpTailStr(l.tl) + rest;
      var term := TermStr(l.t) + after;
      assert CmpTailStr(l) + rest == OpText(l.op) + (l.sp + term);
      TermFirst(l.t);
      CmpConsumes(l.op, l.sp, term);
      CmpTailStops(l.tl, rest);
      TermReads(l.t, after);
      CmpTailReads(Bin(l.op, ex, TermMeans(l.t)), l.tl, rest);
    }
  }

  lemma {:induction false} AndReads(c: CAnd, rest: string)
    requires WfAnd(c) && StopAnd(rest)
    ensures ParseAnd(AndStr(c) + rest, false) == Parsed(AndMeans(c), rest, false)
    decreases c, 0
  {
    var after := AndTailStr(c.tail) + rest;
    assert AndStr(c) + rest == CmpStr(c.head) + after;
    AndTailStops(c.tail, rest);
    CmpReads(c.head, after);
    AndTailReads(CmpMeans(c.head), c.tail, rest);
  }

  lemma AndTailStops(l: CAndTail, rest: string)
    requires WfAndTail(l) && StopCmp(rest)
    ensures StopCmp(AndTailStr(l) + rest)
  {
    if l.AndNil? { assert AndTailStr(l) + rest == rest; }
  }

  lemma {:induction false} AndTailReads(ex: Expr, l: CAndTail, rest: string)
    requires WfAndTail(l) && StopAnd(rest)
    ensures AndLoop(ex, AndTailStr(l) + rest, false) == Parsed(FoldAnd(ex, l), rest, false)
    decreases l, 0
  {
    if l.AndNil? {
      assert AndTailStr(l) + rest == rest;
    } else {
      var after := AndTailStr(l.tl) + rest;
      var cmp := CmpStr(l.a) + after;
      assert AndTailStr(l) + rest == "&&" + (l.sp + cmp);
      TermFirst(l.a.head);
      Consumes("&&", l.sp, cmp);
      AndTailStops(l.tl, rest);
      CmpReads(l.a, after);
      AndTailReads(Bin(OpAnd, ex, CmpMeans(l.a)), l.tl, rest);
    }
  }

  /** Comparison binds tighter than `&&`, `&&` tighter than `||`, each chain is
      left-associative, and the parser stops exactly at the end of the text. */
  lemma {:induction false} OrReads(c: COr, rest: string)
    requires WfOr(c) && StopOr(rest)
    ensures ParseOr(OrStr(c) + rest, false) == Parsed(OrMeans(c), rest, false)
    decreases c, 0
  {
    var after := OrTailStr(c.tail) + rest;
    assert OrStr(c) + rest == AndStr(c.head) + after;
    OrTailStops(c.tail, rest);
    AndReads(c.head, after);
    OrTailReads(AndMeans(c.head), c.tail, rest);
  }

  lemma OrTailStops(l: COrTail, rest: string)
    requires WfOrTail(l) && StopAnd(rest)
    ensures StopAnd(OrTailStr(l) + rest)
  {
    if l.OrNil? { assert OrTailStr(l) + rest == rest; }
  }

  lemma {:induction false} OrTailReads(ex: Expr, l: COrTail, rest: string)
    requires WfOrTail(l) && StopOr(rest)
    ensures OrLoop(ex, OrTailStr(l) + rest, false) == Parsed(FoldOr(ex, l), rest, false)
    decreases l, 0
  {
    if l.OrNil? {
      assert OrTailStr(l) + rest == rest;
    } else {
      var after := OrTailStr(l.tl) + rest;
      var and := AndStr(l.a) + after;
      assert OrTailStr(l) + rest == "||" + (l.sp + and);
      AndFirst(l.a);
      Consumes("||", l.sp, and);
      OrTailStops(l.tl, rest);
      AndReads(l.a, after);
      OrTailReads(Bin(OpOr, ex, AndMeans(l.a)), l.tl, rest);
    }
  }
}
