/** The converse: whatever the parser accepts without an error is the text of a
    concrete tree, and the result is that tree's meaning. With KconfigReads this
    pins the accepted language. */
module KconfigSound {
  import opened Options
  import opened KconfigExpr
  import opened KconfigScan
  import opened KconfigGrammar
  import opened KconfigReads
  import opened KconfigRoundTrip

  lemma Rejoin(r: string, sp: string, rest: string)
    requires r != "" && r[1..] == sp + rest
    ensures r == [r[0]] + sp + rest
  {
  }

  lemma {:induction false} SplitBlank(r: string) returns (sp: string)
    ensures Blank(sp) && r == sp + SkipSpaces(r)
  {
    if r != "" && IsSpace(r[0]) {
      var sp1 := SplitBlank(r[1..]);
      sp := [r[0]] + sp1;
      Rejoin(r, sp1, SkipSpaces(r));
    } else {
      sp := "";
    }
  }

  function Spaces(sp: string, b: ShellText): ShellText
  {
    if sp == "" then b else SChar(sp[0], Spaces(sp[1..], b))
  }

  lemma {:induction false} SpacesText(sp: string, b: ShellText)
    requires Blank(sp) && WfShell(b)
    ensures WfShell(Spaces(sp, b)) && ShellStr(Spaces(sp, b)) == sp + ShellStr(b)
  {
    if sp != "" {
      SpacesText(sp[1..], b);
      assert sp == [sp[0]] + sp[1..];
    }
  }

  // Re-association of the text pieces, kept apart from the scanner.

  lemma Regroup(open: string, body: string, close: string, sp: string, mid: string, tl: string, rest: string)
    requires mid == tl + rest
    ensures open + (body + (close + (sp + mid))) == open + (body + (close + (sp + tl))) + rest
  {
    assert sp + mid == (sp + tl) + rest;
    assert close + (sp + mid) == (close + (sp + tl)) + rest;
    assert body + (close + (sp + mid)) == (body + (close + (sp + tl))) + rest;
  }

  lemma Cons(r: string, tl: string, rest: string)
    requires r != "" && r[1..] == tl + rest
    ensures r == ([r[0]] + tl) + rest
  {
    assert r == [r[0]] + r[1..];
  }

  lemma Cons2(r: string, tl: string, rest: string)
    requires |r| >= 2 && r[2..] == tl + rest
    ensures r == ([r[0], r[1]] + tl) + rest
  {
    assert r == [r[0], r[1]] + r[2..];
  }

  lemma ShellSlice(r: string, sp: string, body: string, after: string)
    requires r == "(" + (sp + (body + (")" + after)))
    ensures |after| <= |r| && r[..|r| - |after|] == "(" + (sp + body) + ")"
    ensures r == "(" + ((sp + body) + (")" + after))
  {
    assert sp + (body + (")" + after)) == (sp + body) + (")" + after);
    assert r == ("(" + (sp + body) + ")") + after;
  }

  lemma {:induction false} ShellLoopSound(r: string, t: Token) returns (b: ShellText)
    requires t == ShellLoop(r, false) && !t.err && t.rest != ""
    ensures WfShell(b) && r == ShellStr(b) + t.rest
    decreases |r|, 2
  {
    if r[0] == ')' {
      b := SEnd;
      assert t.rest == r == "" + r;
    } else if r[0] == '"' {
      b := ShellQuoteSound(r, t);
    } else if r[0] == '(' {
      b := ShellSubSound(r, t);
    } else {
      b := ShellCharSound(r, t);
    }
  }

  lemma {:induction false} ShellCharSound(r: string, t: Token) returns (b: ShellText)
    requires r != "" && r[0] != '"' && r[0] != '(' && r[0] != ')'
    requires t == ShellLoop(r, false) && !t.err && t.rest != ""
    ensures WfShell(b) && r == ShellStr(b) + t.rest
    decreases |r|, 1
  {
    assert t == ShellLoop(r[1..], false);
    var tl := ShellLoopSound(r[1..], t);
    b := SChar(r[0], tl);
    Cons(r, ShellStr(tl), t.rest);
  }

  lemma {:induction false} ShellQuoteSound(r: string, t: Token) returns (b: ShellText)
    requires r != "" && r[0] == '"'
    requires t == ShellLoop(r, false) && !t.err && t.rest != ""
    ensures WfShell(b) && r == ShellStr(b) + t.rest
    decreases |r|, 1
  {
    var x := ScanQuoted(r, false);
    assert t == ShellLoop(x.rest, x.err);
    var q, sp := QuotedSound(r, x);
    var tl := ShellLoopSound(x.rest, t);
    SpacesText(sp, tl);
    b := SQuote(q, Spaces(sp, tl));
    Regroup("\"", QuotedStr(q), "\"", sp, x.rest, ShellStr(tl), t.rest);
  }

  lemma {:induction false} ShellSubSound(r: string, t: Token) returns (b: ShellText)
    requires r != "" && r[0] == '('
    requires t == ShellLoop(r, false) && !t.err && t.rest != ""
    ensures WfShell(b) && r == ShellStr(b) + t.rest
    decreases |r|, 1
  {
    var x := ScanShell(r, false);
    assert t == ShellLoop(x.rest, x.err);
    var b1, sp := ShellSound(r, x);
    var tl := ShellLoopSound(x.rest, t);
    SpacesText(sp, tl);
    b := SSub(b1, Spaces(sp, tl));
    Regroup("(", ShellStr(b1), ")", sp, x.rest, ShellStr(tl), t.rest);
  }

  /** What an error-free shell scan did. */
  lemma ShellParts(r: string, x: Token) returns (inner: string, body: Token, after: string)
    requires x == ScanShell(r, false) && !x.err
    ensures r == "(" + inner && body == ShellLoop(SkipSpaces(inner), false) && !body.err
    ensures body.rest == ")" + after && |after| <= |r|
    ensures x.text == r[..|r| - |after|] && x.rest == SkipSpaces(after)
  {
    assert "(" <= r;
    inner := r[1..];
    body := ShellLoop(SkipSpaces(inner), false);
    after := body.rest[1..];
  }

  lemma {:induction false} ShellSound(r: string, x: Token) returns (b: ShellText, sp: string)
    requires x == ScanShell(r, false) && !x.err
    ensures WfShell(b) && Blank(sp)
    ensures r == "(" + (ShellStr(b) + (")" + (sp + x.rest)))
    ensures x.text == "(" + ShellStr(b) + ")"
    decreases |r|, 0
  {
    var inner, body, after := ShellParts(r, x);
    var sp1 := SplitBlank(inner);
    var b1 := ShellLoopSound(SkipSpaces(inner), body);
    b := Spaces(sp1, b1);
    SpacesText(sp1, b1);
    assert inner == sp1 + (ShellStr(b1) + (")" + after));
    sp := SplitBlank(after);
    ShellSlice(r, sp1, ShellStr(b1), after);
  }

  /** What an error-free scan of a string did. */
  lemma QuotedParts(r: string, x: Token) returns (t: Token)
    requires x == ScanQuoted(r, false) && !x.err
    ensures r != "" && (r[0] == '"' || r[0] == '\'')
    ensures t == QuotedLoop(r[0], r[1..], false) && !t.err
    ensures x.text == t.text && x.rest == SkipSpaces(t.rest)
  {
    t := QuotedLoop(r[0], r[1..], false);
  }

  lemma {:induction false} QuotedSound(r: string, x: Token) returns (q: QuotedText, sp: string)
    requires x == ScanQuoted(r, false) && !x.err
    ensures r != "" && (r[0] == '"' || r[0] == '\'')
    ensures WfQuoted(r[0], q) && Blank(sp)
    ensures r == [r[0]] + (QuotedStr(q) + ([r[0]] + (sp + x.rest)))
    ensures x.text == QuotedValue(q)
    decreases |r|, 0
  {
    var t := QuotedParts(r, x);
    q := QuotedLoopSound(r[0], r[1..], t);
    sp := SplitBlank(t.rest);
    QuotedJoins(r, QuotedStr(q), t.rest, sp, x.rest);
  }

  lemma QuotedJoins(r: string, body: string, after: string, sp: string, rest: string)
    requires r != "" && r[1..] == body + ([r[0]] + after) && after == sp + rest
    ensures r == [r[0]] + (body + ([r[0]] + (sp + rest)))
  {
    assert r == [r[0]] + r[1..];
  }

  lemma {:induction false} QuotedLoopSound(quote: char, r: string, t: Token) returns (q: QuotedText)
    requires quote == '"' || quote == '\''
    requires t == QuotedLoop(quote, r, false) && !t.err
    ensures WfQuoted(quote, q)
    ensures r == QuotedStr(q) + ([quote] + t.rest)
    ensures t.text == QuotedValue(q)
    decreases |r|, 1
  {
    if r[0] == quote {
      q := QEnd;
      assert r == [quote] + r[1..];
    } else if r[0] == '\\' {
      q := QuotedEscSound(quote, r, t);
    } else if r[0] == '$' && Peek(r[1..], false) == '(' {
      q := QuotedShellSound(quote, r, t);
    } else {
      q := QuotedCharSound(quote, r, t);
    }
  }

  lemma {:induction false} QuotedEscSound(quote: char, r: string, t: Token) returns (q: QuotedText)
    requires quote == '"' || quote == '\''
    requires t == QuotedLoop(quote, r, false) && !t.err && r != ""
    requires r[0] == '\\'
    ensures WfQuoted(quote, q)
    ensures r == QuotedStr(q) + ([quote] + t.rest)
    ensures t.text == QuotedValue(q)
    decreases |r|, 0
  {
    var t1 := QuotedLoop(quote, r[2..], false);
    assert t == t1.(text := [r[1]] + t1.text);
    var tl := QuotedLoopSound(quote, r[2..], t1);
    q := QEsc(r[1], tl);
    Cons2(r, QuotedStr(tl), [quote] + t1.rest);
  }

  lemma {:induction false} QuotedCharSound(quote: char, r: string, t: Token) returns (q: QuotedText)
    requires quote == '"' || quote == '\''
    requires t == QuotedLoop(quote, r, false) && !t.err && r != ""
    requires r[0] != quote && r[0] != '\\' && (r[0] == '$' ==> Peek(r[1..], false) != '(')
    ensures WfQuoted(quote, q)
    ensures r == QuotedStr(q) + ([quote] + t.rest)
    ensures t.text == QuotedValue(q)
    decreases |r|, 0
  {
    var t1 := QuotedLoop(quote, r[1..], false);
    assert t == t1.(text := [r[0]] + t1.text);
    var tl := QuotedLoopSound(quote, r[1..], t1);
    q := QChar(r[0], tl);
    Cons(r, QuotedStr(tl), [quote] + t1.rest);
    assert tl.QChar? ==> tl.c == r[1..][0];
  }

  lemma QuotedShellParts(quote: char, r: string, t: Token) returns (inner: string, s: Token, t1: Token)
    requires |r| > 1 && r[0] == '$' && r[1] == '(' && (quote == '"' || quote == '\'')
    requires t == QuotedLoop(quote, r, false) && !t.err
    ensures r == "$" + inner && s == ScanShell(inner, false) && !s.err
    ensures t1 == QuotedLoop(quote, s.rest, false) && !t1.err
    ensures t.rest == t1.rest && t.text == "$" + s.text + t1.text && |s.rest| < |inner|
    ensures s.rest == "" || !IsSpace(s.rest[0])
  {
    inner := r[1..];
    s := ScanShell(inner, false);
    t1 := QuotedLoop(quote, s.rest, s.err);
  }

  lemma {:induction false} QuotedShellSound(quote: char, r: string, t: Token) returns (q: QuotedText)
    requires quote == '"' || quote == '\''
    requires |r| > 1 && r[0] == '$' && r[1] == '('
    requires t == QuotedLoop(quote, r, false) && !t.err
    ensures WfQuoted(quote, q)
    ensures r == QuotedStr(q) + ([quote] + t.rest)
    ensures t.text == QuotedValue(q)
    decreases |r|, 0
  {
    var inner, s, t1 := QuotedShellParts(quote, r, t);
    var b, sp := ShellSound(inner, s);
    var tl := QuotedLoopSound(quote, s.rest, t1);
    q := QShell(b, sp, tl);
    QuotedShellText(b, sp, tl, quote, s.rest, t1.rest);
  }

  lemma QuotedShellText(b: ShellText, sp: string, tl: QuotedText, quote: char, mid: string, rest: string)
    requires mid == QuotedStr(tl) + ([quote] + rest)
    ensures "$" + ("(" + (ShellStr(b) + (")" + (sp + mid)))) == QuotedStr(QShell(b, sp, tl)) + ([quote] + rest)
    ensures tl.QChar? ==> tl.c == mid[0]
  {
    Regroup("(", ShellStr(b), ")", sp, mid, QuotedStr(tl), [quote] + rest);
    assert QuotedStr(QShell(b, sp, tl)) == "$" + ("(" + (ShellStr(b) + (")" + (sp + QuotedStr(tl)))));
  }

  // Expressions.

  lemma Consumed(r: string, what: string) returns (sp: string)
    requires what != "" && TryConsume(r, what).Some?
    ensures Blank(sp) && r == what + (sp + TryConsume(r, what).value)
  {
    sp := SplitBlank(r[|what|..]);
    assert r == what + r[|what|..];
  }

  lemma CmpConsumed(r: string) returns (sp: string)
    requires CmpOp(r).Some?
    ensures IsCmp(CmpOp(r).value.0) && Blank(sp)
    ensures r == OpText(CmpOp(r).value.0) + (sp + CmpOp(r).value.1)
  {
    var n := |OpText(CmpOp(r).value.0)|;
    CmpPrefix(r);
    sp := SplitBlank(r[n..]);
    assert r == OpText(CmpOp(r).value.0) + r[n..];
  }

  lemma CmpPrefix(r: string)
    requires CmpOp(r).Some?
    ensures var op := CmpOp(r).value.0;
            IsCmp(op) && OpText(op) <= r && CmpOp(r).value.1 == SkipSpaces(r[|OpText(op)|..])
  {
  }

  lemma {:induction false} IdentLenSound(r: string)
    ensures forall i | 0 <= i < IdentLen(r) :: IsIdent(r[i])
  {
    if r != "" && IsIdent(r[0]) {
      IdentLenSound(r[1..]);
      forall i | 0 <= i < IdentLen(r) ensures IsIdent(r[i]) {
        if i > 0 { assert r[i] == r[1..][i - 1]; }
      }
    }
  }

  lemma {:induction false} IdentSound(r: string, x: Token) returns (c: CTerm)
    requires x == ScanIdent(r, false) && !x.err
    ensures WfTerm(c) && r == TermStr(c) + x.rest && TermMeans(c) == Ident(x.text)
  {
    var n := IdentLen(r);
    IdentLenSound(r);
    var sp := SplitBlank(r[n..]);
    assert r == r[..n] + r[n..];
    c := CIdent(r[..n], sp);
  }

  lemma ShellTermText(sp0: string, b: ShellText, sp: string, rest: string)
    ensures "$" + (sp0 + ("(" + (ShellStr(b) + (")" + (sp + rest))))) == TermStr(CShell(sp0, b, sp)) + rest
  {
    var body := "(" + (ShellStr(b) + (")" + sp));
    assert "(" + (ShellStr(b) + (")" + (sp + rest))) == body + rest;
    assert sp0 + (body + rest) == (sp0 + body) + rest;
  }

  lemma {:induction false} ShellTermSound(r: string, x: Token) returns (c: CTerm)
    requires TryConsume(r, "$").Some?
    requires x == ScanShell(TryConsume(r, "$").value, false) && !x.err
    ensures WfTerm(c) && r == TermStr(c) + x.rest && TermMeans(c) == Shell(x.text)
  {
    var sp0 := Consumed(r, "$");
    var b, sp := ShellSound(TryConsume(r, "$").value, x);
    c := CShell(sp0, b, sp);
    ShellTermText(sp0, b, sp, x.rest);
  }

  lemma {:induction false} StrTermSound(r: string, x: Token) returns (c: CTerm)
    requires x == ScanQuoted(r, false) && !x.err
    ensures WfTerm(c) && r == TermStr(c) + x.rest && TermMeans(c) == Str(x.text)
  {
    var q, sp := QuotedSound(r, x);
    c := CStr(r[0], q, sp);
    Regroup([r[0]], QuotedStr(q), [r[0]], sp, x.rest, "", x.rest);
    assert sp + "" == sp;
  }

  lemma {:induction false} NotSound(r: string, p: Parsed) returns (c: CTerm)
    requires TryConsume(r, "!").Some?
    requires p == ParseTerm(TryConsume(r, "!").value, false) && !p.err
    ensures WfTerm(c) && r == TermStr(c) + p.rest && TermMeans(c) == Not(p.ex)
    decreases |r|, 0
  {
    var sp := Consumed(r, "!");
    var c1 := TermSound(TryConsume(r, "!").value, p);
    c := CNot(sp, c1);
    NotText(sp, c1, TryConsume(r, "!").value, p.rest);
  }

  lemma NotText(sp: string, t: CTerm, inner: string, rest: string)
    requires inner == TermStr(t) + rest
    ensures "!" + (sp + inner) == TermStr(CNot(sp, t)) + rest
  {
    assert sp + inner == (sp + TermStr(t)) + rest;
  }

  lemma ParenText(sp: string, c: COr, sp2: string, inner: string, mid: string, rest: string)
    requires inner == OrStr(c) + mid && mid == ")" + (sp2 + rest)
    ensures "(" + (sp + inner) == TermStr(CParen(sp, c, sp2)) + rest
  {
    var tail := OrStr(c) + (")" + sp2);
    assert inner == tail + rest;
    assert sp + inner == (sp + tail) + rest;
  }

  lemma {:induction false} ParenSound(r: string, e: Parsed) returns (c: CTerm)
    requires TryConsume(r, "(").Some?
    requires e == ParseOr(TryConsume(r, "(").value, false) && !e.err && TryConsume(e.rest, ")").Some?
    ensures WfTerm(c) && r == TermStr(c) + TryConsume(e.rest, ")").value && TermMeans(c) == e.ex
    decreases |r|, 0
  {
    var sp := Consumed(r, "(");
    var o := OrSound(TryConsume(r, "(").value, e);
    var sp2 := Consumed(e.rest, ")");
    c := CParen(sp, o, sp2);
    ParenText(sp, o, sp2, TryConsume(r, "(").value, e.rest, TryConsume(e.rest, ")").value);
  }

  lemma {:induction false} TermSound(r: string, p: Parsed) returns (c: CTerm)
    requires p == ParseTerm(r, false) && !p.err
    ensures WfTerm(c) && r == TermStr(c) + p.rest && TermMeans(c) == p.ex
    decreases |r|, 1
  {
    if TryConsume(r, "$").Some? {
      c := ShellTermSound(r, ScanShell(TryConsume(r, "$").value, false));
    } else if Peek(r, false) == '"' || Peek(r, false) == '\'' {
      c := StrTermSound(r, ScanQuoted(r, false));
    } else if TryConsume(r, "!").Some? {
      c := NotSound(r, ParseTerm(TryConsume(r, "!").value, false));
    } else if TryConsume(r, "(").Some? {
      c := ParenSound(r, ParseOr(TryConsume(r, "(").value, false));
    } else {
      c := IdentSound(r, ScanIdent(r, false));
    }
  }

  // Text of a chain from the text of its parts.

  lemma CmpConsText(op: BinOp, sp: string, t: CTerm, tl: CCmpTail, r: string, r1: string, mid: string, rest: string)
    requires r == OpText(op) + (sp + r1) && r1 == TermStr(t) + mid && mid == CmpTailStr(tl) + rest
    ensures r == CmpTailStr(CmpCons(op, sp, t, tl)) + rest
  {
    var tail := TermStr(t) + CmpTailStr(tl);
    assert r1 == tail + rest;
    assert sp + r1 == (sp + tail) + rest;
  }

  lemma CmpHeadText(h: CTerm, l: CCmpTail, r: string, mid: string, rest: string)
    requires r == TermStr(h) + mid && mid == CmpTailStr(l) + rest
    ensures r == CmpStr(CCmp(h, l)) + rest
  {
  }

  lemma AndConsText(sp: string, t: CCmp, tl: CAndTail, r: string, r1: string, mid: string, rest: string)
    requires r == "&&" + (sp + r1) && r1 == CmpStr(t) + mid && mid == AndTailStr(tl) + rest
    ensures r == AndTailStr(AndCons(sp, t, tl)) + rest
  {
    var tail := CmpStr(t) + AndTailStr(tl);
    assert r1 == tail + rest;
    assert sp + r1 == (sp + tail) + rest;
  }

  lemma AndHeadText(h: CCmp, l: CAndTail, r: string, mid: string, rest: string)
    requires r == CmpStr(h) + mid && mid == AndTailStr(l) + rest
    ensures r == AndStr(CAnd(h, l)) + rest
  {
  }

  lemma OrConsText(sp: string, t: CAnd, tl: COrTail, r: string, r1: string, mid: string, rest: string)
    requires r == "||" + (sp + r1) && r1 == AndStr(t) + mid && mid == OrTailStr(tl) + rest
    ensures r == OrTailStr(OrCons(sp, t, tl)) + rest
  {
    var tail := AndStr(t) + OrTailStr(tl);
    assert r1 == tail + rest;
    assert sp + r1 == (sp + tail) + rest;
  }

  lemma OrHeadText(h: CAnd, l: COrTail, r: string, mid: string, rest: string)
    requires r == AndStr(h) + mid && mid == OrTailStr(l) + rest
    ensures r == OrStr(COr(h, l)) + rest
  {
  }

  lemma {:induction false} CmpSound(r: string, p: Parsed) returns (c: CCmp)
    requires p == ParseCmp(r, false) && !p.err
    ensures WfCmp(c) && r == CmpStr(c) + p.rest && CmpMeans(c) == p.ex
    decreases |r|, 3
  {
    var a := ParseTerm(r, false);
    var h := TermSound(r, a);
    var l := CmpTailSound(a.ex, a.rest, p);
    c := CCmp(h, l);
    CmpHeadText(h, l, r, a.rest, p.rest);
  }

  lemma {:induction false} CmpTailSound(ex: Expr, r: string, p: Parsed) returns (l: CCmpTail)
    requires p == CmpLoop(ex, r, false) && !p.err
    ensures WfCmpTail(l) && r == CmpTailStr(l) + p.rest && FoldCmp(ex, l) == p.ex
    decreases |r|, 2
  {
    if CmpOp(r).None? {
      l := CmpNil;
    } else {
      var op, r1 := CmpOp(r).value.0, CmpOp(r).value.1;
      var sp := CmpConsumed(r);
      var a := ParseTerm(r1, false);
      assert p == CmpLoop(Bin(op, ex, a.ex), a.rest, a.err);
      var t := TermSound(r1, a);
      var tl := CmpTailSound(Bin(op, ex, a.ex), a.rest, p);
      l := CmpCons(op, sp, t, tl);
      CmpConsText(op, sp, t, tl, r, r1, a.rest, p.rest);
    }
  }

  lemma {:induction false} AndSound(r: string, p: Parsed) returns (c: CAnd)
    requires p == ParseAnd(r, false) && !p.err
    ensures WfAnd(c) && r == AndStr(c) + p.rest && AndMeans(c) == p.ex
    decreases |r|, 5
  {
    var a := ParseCmp(r, false);
    var h := CmpSound(r, a);
    var l := AndTailSound(a.ex, a.rest, p);
    c := CAnd(h, l);
    AndHeadText(h, l, r, a.rest, p.rest);
  }

  lemma {:induction false} AndTailSound(ex: Expr, r: string, p: Parsed) returns (l: CAndTail)
    requires p == AndLoop(ex, r, false) && !p.err
    ensures WfAndTail(l) && r == AndTailStr(l) + p.rest && FoldAnd(ex, l) == p.ex
    decreases |r|, 4
  {
    if TryConsume(r, "&&").None? {
      l := AndNil;
    } else {
      var r1 := TryConsume(r, "&&").value;
      var sp := Consumed(r, "&&");
      var a := ParseCmp(r1, false);
      assert p == AndLoop(Bin(OpAnd, ex, a.ex), a.rest, a.err);
      var t := CmpSound(r1, a);
      var tl := AndTailSound(Bin(OpAnd, ex, a.ex), a.rest, p);
      l := AndCons(sp, t, tl);
      AndConsText(sp, t, tl, r, r1, a.rest, p.rest);
    }
  }

  /** Every error-free parse is the parse of some tree of the grammar. */
  lemma {:induction false} OrSound(r: string, p: Parsed) returns (c: COr)
    requires p == ParseOr(r, false) && !p.err
    ensures WfOr(c) && r == OrStr(c) + p.rest && OrMeans(c) == p.ex
    decreases |r|, 7
  {
    var a := ParseAnd(r, false);
    var h := AndSound(r, a);
    var l := OrTailSound(a.ex, a.rest, p);
    c := COr(h, l);
    OrHeadText(h, l, r, a.rest, p.rest);
  }

  lemma {:induction false} OrTailSound(ex: Expr, r: string, p: Parsed) returns (l: COrTail)
    requires p == OrLoop(ex, r, false) && !p.err
    ensures WfOrTail(l) && r == OrTailStr(l) + p.rest && FoldOr(ex, l) == p.ex
    decreases |r|, 6
  {
    if TryConsume(r, "||").None? {
      l := OrNil;
    } else {
      var r1 := TryConsume(r, "||").value;
      var sp := Consumed(r, "||");
      var a := ParseAnd(r1, false);
      assert p == OrLoop(Bin(OpOr, ex, a.ex), a.rest, a.err);
      var t := AndSound(r1, a);
      var tl := OrTailSound(Bin(OpOr, ex, a.ex), a.rest, p);
      l := OrCons(sp, t, tl);
      OrConsText(sp, t, tl, r, r1, a.rest, p.rest);
    }
  }

  /** A text is accepted as a whole exactly when some tree of the grammar is written that way. */
  lemma AcceptsExactly(r: string)
    ensures (exists ex :: ParseOr(r, false) == Parsed(ex, "", false)) <==>
            (exists c: COr :: WfOr(c) && OrStr(c) == r)
  {
    if ex :| ParseOr(r, false) == Parsed(ex, "", false) {
      var c := OrSound(r, ParseOr(r, false));
      assert OrStr(c) + "" == OrStr(c);
    }
    if c: COr :| WfOr(c) && OrStr(c) == r {
      OrReads(c, "");
      assert r + "" == r;
    }
  }
}
