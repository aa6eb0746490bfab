/** Printing what was parsed and parsing it again: blanks, redundant parentheses and
    quote style are normalised away, and a string survives exactly when `%q` writes
    nothing in it that the parser does not read. */
module KconfigNormal {
  import opened KconfigExpr
  import opened KconfigScan
  import opened KconfigGrammar
  import opened KconfigReads
  import opened KconfigRoundTrip
  import opened KconfigSound

  predicate PlainStrings(e: Expr) {
    match e
    case Str(val) => PlainText(val)
    case Not(ex) => PlainStrings(ex)
    case Bin(_, lex, rex) => PlainStrings(lex) && PlainStrings(rex)
    case _ => true
  }

  /** Printable, but for what its strings hold. */
  ghost predicate Shaped(e: Expr) {
    match e
    case Shell(cmd) => Balanced(cmd)
    case Not(ex) => Shaped(ex)
    case Ident(name) => IdentText(name)
    case Str(_) => true
    case Bin(_, lex, rex) => Shaped(lex) && Shaped(rex)
  }

  lemma {:induction false} ShapedPrintable(e: Expr)
    requires Shaped(e) && PlainStrings(e)
    ensures Printable(e)
  {
    match e
    case Not(ex) => ShapedPrintable(ex);
    case Bin(_, lex, rex) => ShapedPrintable(lex); ShapedPrintable(rex);
    case _ =>
  }

  lemma {:induction false} TermShaped(t: CTerm)
    requires WfTerm(t)
    ensures Shaped(TermMeans(t))
    decreases t, 0
  {
    match t
    case CNot(_, t1) => TermShaped(t1);
    case CParen(_, c, _) => OrShaped(c);
    case _ =>
  }

  lemma {:induction false} CmpShaped(c: CCmp)
    requires WfCmp(c)
    ensures Shaped(CmpMeans(c))
    decreases c, 0
  {
    TermShaped(c.head);
    CmpTailShaped(TermMeans(c.head), c.tail);
  }

  lemma {:induction false} CmpTailShaped(ex: Expr, l: CCmpTail)
    requires Shaped(ex) && WfCmpTail(l)
    ensures Shaped(FoldCmp(ex, l))
    decreases l, 0
  {
    if l.CmpCons? {
      TermShaped(l.t);
      CmpTailShaped(Bin(l.op, ex, TermMeans(l.t)), l.tl);
    }
  }

  lemma {:induction false} AndShaped(c: CAnd)
    requires WfAnd(c)
    ensures Shaped(AndMeans(c))
    decreases c, 0
  {
    CmpShaped(c.head);
    AndTailShaped(CmpMeans(c.head), c.tail);
  }

  lemma {:induction false} AndTailShaped(ex: Expr, l: CAndTail)
    requires Shaped(ex) && WfAndTail(l)
    ensures Shaped(FoldAnd(ex, l))
    decreases l, 0
  {
    if l.AndCons? {
      CmpShaped(l.a);
      AndTailShaped(Bin(OpAnd, ex, CmpMeans(l.a)), l.tl);
    }
  }

  lemma {:induction false} OrShaped(c: COr)
    requires WfOr(c)
    ensures Shaped(OrMeans(c))
    decreases c, 0
  {
    AndShaped(c.head);
    OrTailShaped(AndMeans(c.head), c.tail);
  }

  lemma {:induction false} OrTailShaped(ex: Expr, l: COrTail)
    requires Shaped(ex) && WfOrTail(l)
    ensures Shaped(FoldOr(ex, l))
    decreases l, 0
  {
    if l.OrCons? {
      AndShaped(l.a);
      OrTailShaped(Bin(OpOr, ex, AndMeans(l.a)), l.tl);
    }
  }

  // Control characters, counted in the text and in the tree.

  function Controls(s: string): nat {
    if s == "" then 0 else (if Control(s[0]) then 1 else 0) + Controls(s[1..])
  }

  lemma {:induction false} ControlsConcat(a: string, b: string)
    ensures Controls(a + b) == Controls(a) + Controls(b)
    decreases |a|
  {
    if a == "" {
      assert a + b == b;
    } else {
      assert (a + b)[1..] == a[1..] + b;
      ControlsConcat(a[1..], b);
    }
  }

  lemma {:induction false} NoControls(s: string)
    ensures Controls(s) == 0 <==> forall i | 0 <= i < |s| :: !Control(s[i])
    decreases |s|
  {
    if s != "" {
      NoControls(s[1..]);
      assert forall i | 0 < i < |s| :: s[i] == s[1..][i - 1];
    }
  }

  /** The control characters in the leaves of a tree, with or without its strings. */
  function Held(e: Expr, strings: bool): nat {
    match e
    case Shell(cmd) => Controls(cmd)
    case Not(ex) => Held(ex, strings)
    case Ident(_) => 0
    case Str(val) => if strings then Controls(val) else 0
    case Bin(_, lex, rex) => Held(lex, strings) + Held(rex, strings)
  }

  lemma {:induction false} EscapeHides(s: string)
    ensures Controls(Escape(s)) == 0
    decreases |s|
  {
    if s != "" {
      NoControls(EscapeChar(s[0]));
      ControlsConcat(EscapeChar(s[0]), Escape(s[1..]));
      EscapeHides(s[1..]);
    }
  }

  lemma ControlsAround(a: string, s: string, b: string)
    ensures Controls(a + s + b) == Controls(a) + Controls(s) + Controls(b)
  {
    ControlsConcat(a + s, b);
    ControlsConcat(a, s);
  }

  lemma BinControls(op: BinOp, left: string, right: string)
    ensures Controls("(" + left + " " + OpText(op) + " " + right + ")") == Controls(left) + Controls(right)
  {
    var mid := " " + OpText(op) + " ";
    NoControls(mid);
    NoControls("(");
    NoControls(")");
    assert "(" + left + " " + OpText(op) + " " + right + ")" == "(" + (left + mid + right) + ")";
    ControlsAround("(", left + mid + right, ")");
    ControlsAround(left, mid, right);
  }

  /** A printed tree holds only the control characters of its shell parts. */
  lemma {:induction false} PrintHolds(e: Expr)
    requires Shaped(e)
    ensures Controls(Print(e)) == Held(e, false)
    decreases e
  {
    match e
    case Shell(cmd) =>
      NoControls("$");
      ControlsConcat("$", cmd);
    case Not(ex) =>
      PrintHolds(ex);
      NoControls("!(");
      NoControls(")");
      ControlsAround("!(", Print(ex), ")");
    case Ident(name) => NoControls(name);
    case Str(val) =>
      EscapeHides(val);
      NoControls("\"");
      ControlsAround("\"", Escape(val), "\"");
    case Bin(op, lex, rex) =>
      PrintHolds(lex);
      PrintHolds(rex);
      BinControls(op, Print(lex), Print(rex));
  }

  /** A part of a text holds no more than the text. */
  lemma ControlsInside(a: string, s: string, b: string)
    ensures Controls(s) + Controls(b) <= Controls(a + (s + b))
  {
    ControlsConcat(a, s + b);
    ControlsConcat(s, b);
  }

  lemma ControlsDeep(a: string, sp: string, s: string, b: string)
    ensures Controls(s) + Controls(b) <= Controls(a + (sp + (s + b)))
  {
    ControlsConcat(a, sp + (s + b));
    ControlsInside(sp, s, b);
  }

  lemma ShellHolds(a: string, s: string, b: string, rest: string)
    requires a == "$("
    ensures Controls("(" + s + ")") + Controls(rest) <= Controls(a + (s + (")" + (b + rest))))
  {
    NoControls("(");
    NoControls(")");
    ControlsAround("(", s, ")");
    ControlsInside(a, s, ")" + (b + rest));
    ControlsDeep(")", b, rest, "");
    assert rest + "" == rest;
  }

  lemma {:induction false} QuotedHolds(q: QuotedText)
    ensures Controls(QuotedValue(q)) <= Controls(QuotedStr(q))
    decreases q
  {
    match q
    case QEnd =>
    case QChar(c, tl) =>
      QuotedHolds(tl);
      ControlsConcat([c], QuotedValue(tl));
      ControlsConcat([c], QuotedStr(tl));
    case QEsc(c, tl) =>
      QuotedHolds(tl);
      ControlsConcat([c], QuotedValue(tl));
      ControlsConcat(['\\', c], QuotedStr(tl));
      assert ['\\', c][1..] == [c];
    case QShell(b, sp, tl) =>
      QuotedHolds(tl);
      ShellHolds("$(", ShellStr(b), sp, QuotedStr(tl));
      NoControls("$");
      ControlsAround("$", "(" + ShellStr(b) + ")", QuotedValue(tl));
  }

  lemma {:induction false} TermHolds(t: CTerm)
    ensures Held(TermMeans(t), true) <= Controls(TermStr(t))
    decreases t, 0
  {
    match t
    case CIdent(_, _) =>
    case CStr(quote, q, sp) =>
      QuotedHolds(q);
      ControlsInside([quote], QuotedStr(q), [quote] + sp);
    case CShell(sp0, b, sp) =>
      ShellTermHolds(sp0, ShellStr(b), sp);
    case CNot(sp, t1) =>
      TermHolds(t1);
      ControlsInside("!", sp, TermStr(t1));
    case CParen(sp, c, sp2) =>
      OrHolds(c);
      ControlsDeep("(", sp, OrStr(c), ")" + sp2);
  }

  lemma ShellTermHolds(sp0: string, s: string, sp: string)
    ensures Controls("(" + s + ")") <= Controls("$" + (sp0 + ("(" + (s + (")" + sp)))))
  {
    NoControls("(");
    NoControls(")");
    ControlsAround("(", s, ")");
    ControlsDeep("$", sp0, "(", s + (")" + sp));
    ControlsInside("(", s, ")" + sp);
    ControlsConcat(s, ")" + sp);
  }

  lemma {:induction false} CmpHolds(c: CCmp)
    ensures Held(CmpMeans(c), true) <= Controls(CmpStr(c))
    decreases c, 0
  {
    TermHolds(c.head);
    CmpTailHolds(TermMeans(c.head), c.tail);
    ControlsConcat(TermStr(c.head), CmpTailStr(c.tail));
  }

  lemma {:induction false} CmpTailHolds(ex: Expr, l: CCmpTail)
    ensures Held(FoldCmp(ex, l), true) <= Held(ex, true) + Controls(CmpTailStr(l))
    decreases l, 0
  {
    if l.CmpCons? {
      TermHolds(l.t);
      CmpTailHolds(Bin(l.op, ex, TermMeans(l.t)), l.tl);
      ControlsDeep(OpText(l.op), l.sp, TermStr(l.t), CmpTailStr(l.tl));
    }
  }

  lemma {:induction false} AndHolds(c: CAnd)
    ensures Held(AndMeans(c), true) <= Controls(AndStr(c))
    decreases c, 0
  {
    CmpHolds(c.head);
    AndTailHolds(CmpMeans(c.head), c.tail);
    ControlsConcat(CmpStr(c.head), AndTailStr(c.tail));
  }

  lemma {:induction false} AndTailHolds(ex: Expr, l: CAndTail)
    ensures Held(FoldAnd(ex, l), true) <= Held(ex, true) + Controls(AndTailStr(l))
    decreases l, 0
  {
    if l.AndCons? {
      CmpHolds(l.a);
      AndTailHolds(Bin(OpAnd, ex, CmpMeans(l.a)), l.tl);
      ControlsDeep("&&", l.sp, CmpStr(l.a), AndTailStr(l.tl));
    }
  }

  /** The text of a tree holds at least the control characters of its meaning. */
  lemma {:induction false} OrHolds(c: COr)
    ensures Held(OrMeans(c), true) <= Controls(OrStr(c))
    decreases c, 0
  {
    AndHolds(c.head);
    OrTailHolds(AndMeans(c.head), c.tail);
    ControlsConcat(AndStr(c.head), OrTailStr(c.tail));
  }

  lemma {:induction false} OrTailHolds(ex: Expr, l: COrTail)
    ensures Held(FoldOr(ex, l), true) <= Held(ex, true) + Controls(OrTailStr(l))
    decreases l, 0
  {
    if l.OrCons? {
      AndHolds(l.a);
      OrTailHolds(Bin(OpOr, ex, AndMeans(l.a)), l.tl);
      ControlsDeep("||", l.sp, AndStr(l.a), OrTailStr(l.tl));
    }
  }

  // What normalises.

  /** ASCII strings without `$`: what `%q` writes and interpolation does beyond them is not modelled. */
  predicate AsciiStrings(e: Expr) {
    match e
    case Str(val) => forall i | 0 <= i < |val| :: val[i] as int < 128 && val[i] != '$'
    case Not(ex) => AsciiStrings(ex)
    case Bin(_, lex, rex) => AsciiStrings(lex) && AsciiStrings(rex)
    case _ => true
  }

  lemma {:induction false} PlainIsControlFree(e: Expr)
    requires AsciiStrings(e)
    ensures Held(e, false) <= Held(e, true)
    ensures Held(e, false) == Held(e, true) <==> PlainStrings(e)
    decreases e
  {
    match e
    case Str(val) => NoControls(val);
    case Not(ex) => PlainIsControlFree(ex);
    case Bin(_, lex, rex) =>
      PlainIsControlFree(lex);
      PlainIsControlFree(rex);
    case _ =>
  }

  /** Whatever text parsed, printing the result and parsing again changes nothing
      exactly when its strings hold no control character. */
  lemma Normalises(r: string)
    requires !ParseOr(r, false).err && AsciiStrings(ParseOr(r, false).ex)
    ensures ParseOr(Print(ParseOr(r, false).ex), false) == Parsed(ParseOr(r, false).ex, "", false) <==>
            PlainStrings(ParseOr(r, false).ex)
  {
    var p := ParseOr(r, false);
    var c := OrSound(r, p);
    OrShaped(c);
    PlainIsControlFree(p.ex);
    var text := Print(p.ex);
    if PlainStrings(p.ex) {
      ShapedPrintable(p.ex);
      RoundTrip(p.ex, "");
      assert text + "" == text;
    }
    if ParseOr(text, false) == Parsed(p.ex, "", false) {
      var d := OrSound(text, ParseOr(text, false));
      assert OrStr(d) + "" == OrStr(d);
      OrHolds(d);
      PrintHolds(p.ex);
    }
  }

  /** A string with a tab parses, but what is printed for it does not. */
  lemma TabIsNotReread(e: Expr, r: string)
    requires e == Str("\t") && r == "\"\t\""
    ensures ParseOr(r, false) == Parsed(e, "", false) && ParseOr(Print(e), false) != Parsed(e, "", false)
  {
    var q := QChar('\t', QEnd);
    var t := CStr('"', q, "");
    assert QuotedStr(q) == "\t" && QuotedValue(q) == "\t";
    assert TermStr(t) == r && WfTerm(t);
    SingleIs(t);
    OrReads(Single(t), "");
    assert r + "" == r;
    Normalises(r);
    assert !PlainText(e.val) by {
      assert e.val[0] == '\t';
    }
  }
}
