/** A reference grammar for expressions, independent of the parser: concrete
    syntax trees with explicit blanks, the text each one stands for and the
    expression it means. An or-chain holds and-chains, an and-chain holds
    comparison chains, and every chain associates to the left. */
module KconfigGrammar {
  import opened Options
  import opened KconfigExpr
  import opened KconfigScan

  // Shell text between balanced parentheses, and the inside of a quoted string.
  datatype ShellText =
    | SEnd
    | SChar(c: char, tl: ShellText)
    | SQuote(q: QuotedText, tl: ShellText)
    | SSub(b: ShellText, tl: ShellText)

  datatype QuotedText =
    | QEnd
    | QChar(c: char, tl: QuotedText)
    | QEsc(c: char, tl: QuotedText)
    | QShell(b: ShellText, sp: string, tl: QuotedText)

  predicate Blank(sp: string) { forall i | 0 <= i < |sp| :: IsSpace(sp[i]) }

  predicate WfShell(b: ShellText) {
    match b
    case SEnd => true
    case SChar(c, tl) => c != '(' && c != ')' && c != '"' && WfShell(tl)
    case SQuote(q, tl) => WfQuoted('"', q) && WfShell(tl)
    case SSub(b, tl) => WfShell(b) && WfShell(tl)
  }

  /** Inside quotes a dollar opens a shell part exactly when a parenthesis
      follows, and the blanks after that part belong to it. */
  predicate WfQuoted(quote: char, q: QuotedText)
    decreases q
  {
    match q
    case QEnd => true
    case QChar(c, tl) =>
      c != quote && c != '\\' && c != '\0' && WfQuoted(quote, tl) &&
      (c == '$' ==> !(tl.QChar? && tl.c == '('))
    case QEsc(c, tl) => (c == '\'' || c == '"' || c == '\\') && WfQuoted(quote, tl)
    case QShell(b, sp, tl) =>
      WfShell(b) && Blank(sp) && WfQuoted(quote, tl) && !(tl.QChar? && IsSpace(tl.c))
  }

  function ShellStr(b: ShellText): string {
    match b
    case SEnd => ""
    case SChar(c, tl) => [c] + ShellStr(tl)
    case SQuote(q, tl) => "\"" + (QuotedStr(q) + ("\"" + ShellStr(tl)))
    case SSub(b, tl) => "(" + (ShellStr(b) + (")" + ShellStr(tl)))
  }

  function QuotedStr(q: QuotedText): string {
    match q
    case QEnd => ""
    case QChar(c, tl) => [c] + QuotedStr(tl)
    case QEsc(c, tl) => ['\\', c] + QuotedStr(tl)
    case QShell(b, sp, tl) => "$(" + (ShellStr(b) + (")" + (sp + QuotedStr(tl))))
  }

  /** The value of a quoted string: blanks after a shell part are not in it. */
  function QuotedValue(q: QuotedText): string {
    match q
    case QEnd => ""
    case QChar(c, tl) => [c] + QuotedValue(tl)
    case QEsc(c, tl) => [c] + QuotedValue(tl)
    case QShell(b, _, tl) => "$" + ("(" + ShellStr(b) + ")") + QuotedValue(tl)
  }

  datatype CTerm =
    | CIdent(name: string, sp: string)
    | CStr(quote: char, q: QuotedText, sp: string)
    | CShell(sp0: string, b: ShellText, sp: string)
    | CNot(sp: string, t: CTerm)
    | CParen(sp: string, c: COr, sp2: string)
  datatype CCmp = CCmp(head: CTerm, tail: CCmpTail)
  datatype CCmpTail = CmpNil | CmpCons(op: BinOp, sp: string, t: CTerm, tl: CCmpTail)
  datatype CAnd = CAnd(head: CCmp, tail: CAndTail)
  datatype CAndTail = AndNil | AndCons(sp: string, a: CCmp, tl: CAndTail)
  datatype COr = COr(head: CAnd, tail: COrTail)
  datatype COrTail = OrNil | OrCons(sp: string, a: CAnd, tl: COrTail)

  predicate IsCmp(op: BinOp) { op != OpAnd && op != OpOr }

  predicate IdentText(s: string) { s != "" && forall i | 0 <= i < |s| :: IsIdent(s[i]) }

  predicate WfTerm(t: CTerm) {
    match t
    case CIdent(name, sp) => IdentText(name) && Blank(sp)
    case CStr(quote, q, sp) => (quote == '"' || quote == '\'') && WfQuoted(quote, q) && Blank(sp)
    case CShell(sp0, b, sp) => Blank(sp0) && WfShell(b) && Blank(sp)
    case CNot(sp, t) => Blank(sp) && WfTerm(t)
    case CParen(sp, c, sp2) => Blank(sp) && WfOr(c) && Blank(sp2)
  }
  predicate WfCmp(c: CCmp) { WfTerm(c.head) && WfCmpTail(c.tail) }
  predicate WfCmpTail(l: CCmpTail) {
    l.CmpCons? ==> IsCmp(l.op) && Blank(l.sp) && WfTerm(l.t) && WfCmpTail(l.tl)
  }
  predicate WfAnd(c: CAnd) { WfCmp(c.head) && WfAndTail(c.tail) }
  predicate WfAndTail(l: CAndTail) { l.AndCons? ==> Blank(l.sp) && WfCmp(l.a) && WfAndTail(l.tl) }
  predicate WfOr(c: COr) { WfAnd(c.head) && WfOrTail(c.tail) }
  predicate WfOrTail(l: COrTail) { l.OrCons? ==> Blank(l.sp) && WfAnd(l.a) && WfOrTail(l.tl) }

  // The text of a concrete tree.
  function TermStr(t: CTerm): string {
    match t
    case CIdent(name, sp) => name + sp
    case CStr(quote, q, sp) => [quote] + (QuotedStr(q) + ([quote] + sp))
    case CShell(sp0, b, sp) => "$" + (sp0 + ("(" + (ShellStr(b) + (")" + sp))))
    case CNot(sp, t) => "!" + (sp + TermStr(t))
    case CParen(sp, c, sp2) => "(" + (sp + (OrStr(c) + (")" + sp2)))
  }
  function CmpStr(c: CCmp): string { TermStr(c.head) + CmpTailStr(c.tail) }
  function CmpTailStr(l: CCmpTail): string {
    if l.CmpNil? then "" else OpText(l.op) + (l.sp + (TermStr(l.t) + CmpTailStr(l.tl)))
  }
  function AndStr(c: CAnd): string { CmpStr(c.head) + AndTailStr(c.tail) }
  function AndTailStr(l: CAndTail): string {
    if l.AndNil? then "" else "&&" + (l.sp + (CmpStr(l.a) + AndTailStr(l.tl)))
  }
  function OrStr(c: COr): string { AndStr(c.head) + OrTailStr(c.tail) }
  function OrTailStr(l: COrTail): string {
    if l.OrNil? then "" else "||" + (l.sp + (AndStr(l.a) + OrTailStr(l.tl)))
  }

  // The expression a concrete tree means.
  function TermMeans(t: CTerm): Expr {
    match t
    case CIdent(name, _) => Ident(name)
    case CStr(_, q, _) => Str(QuotedValue(q))
    case CShell(_, b, _) => Shell("(" + ShellStr(b) + ")")
    case CNot(_, t) => Not(TermMeans(t))
    case CParen(_, c, _) => OrMeans(c)
  }
  function CmpMeans(c: CCmp): Expr { FoldCmp(TermMeans(c.head), c.tail) }
  function FoldCmp(ex: Expr, l: CCmpTail): Expr
    decreases l
  {
    if l.CmpNil? then ex else FoldCmp(Bin(l.op, ex, TermMeans(l.t)), l.tl)
  }
  function AndMeans(c: CAnd): Expr { FoldAnd(CmpMeans(c.head), c.tail) }
  function FoldAnd(ex: Expr, l: CAndTail): Expr
    decreases l
  {
    if l.AndNil? then ex else FoldAnd(Bin(OpAnd, ex, CmpMeans(l.a)), l.tl)
  }
  function OrMeans(c: COr): Expr { FoldOr(AndMeans(c.head), c.tail) }
  function FoldOr(ex: Expr, l: COrTail): Expr
    decreases l
  {
    if l.OrNil? then ex else FoldOr(Bin(OpOr, ex, AndMeans(l.a)), l.tl)
  }

  // What may follow a term, a comparison chain, an and-chain, an or-chain.
  predicate StopTerm(r: string) { r == "" || (!IsSpace(r[0]) && !IsIdent(r[0])) }
  predicate StopCmp(r: string) { StopTerm(r) && CmpOp(r).None? }
  predicate StopAnd(r: string) { StopCmp(r) && !("&&" <= r) }
  predicate StopOr(r: string) { StopAnd(r) && !("||" <= r) }

  lemma {:induction false} SkipBlank(sp: string, r: string)
    requires Blank(sp)
    requires r == "" || !IsSpace(r[0])
    ensures SkipSpaces(sp + r) == r
  {
    if sp == "" {
      assert sp + r == r;
    } else {
      assert (sp + r)[1..] == sp[1..] + r;
      SkipBlank(sp[1..], r);
    }
  }

  lemma {:induction false} IdentSpan(name: string, r: string)
    requires forall i | 0 <= i < |name| :: IsIdent(name[i])
    requires r == "" || !IsIdent(r[0])
    ensures IdentLen(name + r) == |name|
  {
    if name == "" {
      assert name + r == r;
    } else {
      assert (name + r)[1..] == name[1..] + r;
      IdentSpan(name[1..], r);
    }
  }

  /** Inside a shell part skipping blanks and stepping over them agree. */
  lemma {:induction false} ShellSkips(r: string)
    ensures ShellLoop(SkipSpaces(r), false) == ShellLoop(r, false)
  {
    if r != "" && IsSpace(r[0]) {
      ShellSkips(r[1..]);
    }
  }

  lemma {:induction false} ShellReads(b: ShellText, rest: string)
    requires WfShell(b)
    ensures ShellLoop(ShellStr(b) + (")" + rest), false) == Token("", ")" + rest, false)
    decreases b, 0
  {
    var all := ShellStr(b) + (")" + rest);
    match b
    case SEnd =>
      assert all == ")" + rest;
    case SChar(c, tl) =>
      assert all[1..] == ShellStr(tl) + (")" + rest);
      ShellReads(tl, rest);
    case SQuote(q, tl) =>
      var after := ShellStr(tl) + (")" + rest);
      assert all[1..] == QuotedStr(q) + ("\"" + after);
      QuotedReads('"', q, after);
      ShellSkips(after);
      ShellReads(tl, rest);
    case SSub(b1, tl) =>
      var after := ShellStr(tl) + (")" + rest);
      assert all == "(" + (ShellStr(b1) + (")" + after));
      ScanShellReads(b1, after);
      ShellSkips(after);
      ShellReads(tl, rest);
  }

  lemma {:induction false} ScanShellReads(b: ShellText, after: string)
    requires WfShell(b)
    ensures ScanShell("(" + (ShellStr(b) + (")" + after)), false) ==
            Token("(" + ShellStr(b) + ")", SkipSpaces(after), false)
    decreases b, 1
  {
    var r := "(" + (ShellStr(b) + (")" + after));
    var body := ShellStr(b) + (")" + after);
    assert r[1..] == body;
    ShellSkips(body);
    ShellReads(b, after);
    assert (")" + after)[1..] == after;
    assert r[..|r| - |after|] == "(" + ShellStr(b) + ")";
  }

  lemma {:induction false} QuotedReads(quote: char, q: QuotedText, rest: string)
    requires quote == '"' || quote == '\''
    requires WfQuoted(quote, q)
    ensures QuotedLoop(quote, QuotedStr(q) + ([quote] + rest), false) ==
            Token(QuotedValue(q), rest, false)
    decreases q, 1
  {
    var all := QuotedStr(q) + ([quote] + rest);
    match q
    case QEnd =>
      assert all == [quote] + rest;
      assert all[1..] == rest;
    case QChar(c, tl) =>
      assert all[1..] == QuotedStr(tl) + ([quote] + rest);
      QuotedReads(quote, tl, rest);
    case QEsc(c, tl) =>
      assert all[2..] == QuotedStr(tl) + ([quote] + rest);
      QuotedReads(quote, tl, rest);
    case QShell(b, sp, tl) =>
      QuotedReads(quote, tl, rest);
      QuotedShellReads(quote, q, rest);
  }

  /** One round of the quoted-string loop over a shell part. */
  lemma QuotedShellStep(quote: char, inner: string, s: Token, t: Token)
    requires quote == '"' || quote == '\''
    requires "(" <= inner
    requires ScanShell(inner, false) == s
    requires QuotedLoop(quote, s.rest, s.err) == t
    ensures QuotedLoop(quote, "$" + inner, false) == t.(text := "$" + s.text + t.text)
  {
    var r := "$" + inner;
    assert r[1..] == inner;
  }

  lemma {:induction false} QuotedShellReads(quote: char, q: QuotedText, rest: string)
    requires quote == '"' || quote == '\''
    requires q.QShell? && WfQuoted(quote, q)
    requires QuotedLoop(quote, QuotedStr(q.tl) + ([quote] + rest), false) ==
             Token(QuotedValue(q.tl), rest, false)
    ensures QuotedLoop(quote, QuotedStr(q) + ([quote] + rest), false) ==
            Token(QuotedValue(q), rest, false)
    decreases q, 0
  {
    var after := QuotedStr(q.tl) + ([quote] + rest);
    var inner := "(" + (ShellStr(q.b) + (")" + (q.sp + after)));
    QuotedShellText(q, [quote] + rest);
    ScanShellReads(q.b, q.sp + after);
    assert SkipSpaces(q.sp + after) == after by { SkipBlank(q.sp, after); }
    QuotedShellStep(quote, inner, Token("(" + ShellStr(q.b) + ")", after, false),
                    Token(QuotedValue(q.tl), rest, false));
  }

  lemma QuotedShellText(q: QuotedText, end: string)
    requires q.QShell?
    ensures QuotedStr(q) + end == "$" + ("(" + (ShellStr(q.b) + (")" + (q.sp + (QuotedStr(q.tl) + end)))))
  {
    var mid := q.sp + QuotedStr(q.tl);
    assert q.sp + (QuotedStr(q.tl) + end) == mid + end;
    assert ShellStr(q.b) + (")" + (mid + end)) == (ShellStr(q.b) + (")" + mid)) + end;
  }
}
