/** The other half of the parse: every file that is written in the grammar of lines below,
    with its entries inside of a menu and its properties below an entry, is accepted. */
module KconfigItems {
  import opened Options
  import opened KconfigExpr
  import opened KconfigGrammar
  import opened KconfigReads
  import opened KconfigMenu
  import opened KconfigLines
  import opened KconfigText
  import opened KconfigShape
  import opened KconfigMeaning
  import opened KconfigFaults
  import T = KconfigTree
  import S = KconfigScan

  /** A line: blanks, a word and its operand. */
  datatype Item =
    | Empty
    | Remark(text: string)
    | Titled(word: string, q: QuotedText)
    | Bare(word: string)
    | Named(word: string, name: string)
    | Selected(word: string, name: string, cond: Option<COr>)
    | Optioned(text: string)
    | Guard(c: COr)
    | Condition(word: string, c: COr)
    | Prompted(word: string, q: QuotedText, cond: Option<COr>)
    | Valued(word: string, c: COr)

  const TypeWords := ["tristate", "bool", "int", "hex", "string"]
  const DefaultWords := ["default", "def_tristate", "def_bool", "def_int", "def_hex", "def_string"]

  /** What may follow a word and a blank. */
  predicate Follower(r: string) { r == "" || (!S.IsSpace(r[0]) && r[0] != '=' && r[0] != ':') }

  predicate WfItem(i: Item) {
    match i
    case Empty => true
    case Remark(_) => true
    case Titled(word, q) => word in ["mainmenu", "menu", "comment"] && WfQuoted('"', q)
    case Bare(word) => word in ["choice", "endmenu", "endif", "endchoice", "modules", "optional"] || word in TypeWords
    case Named(word, name) => word in ["config", "menuconfig"] && IdentText(name)
    case Selected(word, name, cond) =>
      word in ["select", "imply"] && IdentText(name) && (cond.Some? ==> WfOr(cond.value))
    case Optioned(text) => Follower(text)
    case Guard(c) => WfOr(c)
    case Condition(word, c) => word in ["depends", "visible"] && WfOr(c)
    case Prompted(word, q, cond) =>
      (word == "prompt" || word in TypeWords) && WfQuoted('"', q) && (cond.Some? ==> WfOr(cond.value))
    case Valued(word, c) => word in DefaultWords && WfOr(c)
  }

  function Quoted(q: QuotedText): string { ['"'] + (QuotedStr(q) + ['"']) }

  /** An optional condition at the end of a line. */
  function Tail(cond: Option<COr>): string { if cond.Some? then "if" + (" " + OrStr(cond.value)) else "" }

  function WordIn(i: Item): string {
    match i
    case Empty => ""
    case Remark(_) => ""
    case Guard(_) => "if"
    case Optioned(_) => "option"
    case _ => i.word
  }

  function Operand(i: Item): string {
    match i
    case Titled(_, q) => Quoted(q)
    case Named(_, name) => name
    case Selected(_, name, cond) => name + (if cond.Some? then " " + Tail(cond) else "")
    case Optioned(text) => text
    case Guard(c) => OrStr(c)
    case Condition(word, c) => (if word == "visible" then "if" else "on") + (" " + OrStr(c))
    case Prompted(_, q, cond) => Quoted(q) + (if cond.Some? then " " + Tail(cond) else "")
    case Valued(_, c) => OrStr(c)
    case _ => ""
  }

  function ItemText(i: Item): string {
    match i
    case Empty => ""
    case Remark(text) => "#" + text
    case Bare(word) => word
    case _ => WordIn(i) + (" " + Operand(i))
  }

  predicate Worded(i: Item) { !i.Empty? && !i.Remark? }

  lemma MenuWordsAreIdents(word: string)
    requires word in ["mainmenu", "menu", "comment", "config", "menuconfig", "if"]
    ensures IdentText(word) && PlainWord(word)
  {
  }

  lemma EndWordsAreIdents(word: string)
    requires word in ["choice", "endmenu", "endif", "endchoice"]
    ensures IdentText(word) && PlainWord(word)
  {
  }

  lemma PropertyWordsAreIdents(word: string)
    requires word in ["modules", "optional", "select", "imply", "depends", "visible", "prompt", "option"]
    ensures IdentText(word) && PlainWord(word)
  {
  }

  lemma TypeWordsAreIdents(word: string)
    requires word in TypeWords
    ensures IdentText(word) && PlainWord(word)
  {
  }

  lemma DefaultWordsAreIdents(word: string)
    requires word in DefaultWords
    ensures IdentText(word) && PlainWord(word)
  {
  }

  lemma WordIsIdent(i: Item)
    requires WfItem(i) && Worded(i)
    ensures IdentText(WordIn(i)) && PlainWord(WordIn(i))
  {
    var word := WordIn(i);
    if word in TypeWords {
      TypeWordsAreIdents(word);
    } else if word in DefaultWords {
      DefaultWordsAreIdents(word);
    } else if word in ["choice", "endmenu", "endif", "endchoice"] {
      EndWordsAreIdents(word);
    } else if word in ["modules", "optional", "select", "imply", "depends", "visible", "prompt", "option"] {
      PropertyWordsAreIdents(word);
    } else {
      MenuWordsAreIdents(word);
    }
  }

  lemma OperandFollows(i: Item)
    requires WfItem(i) && Worded(i)
    ensures Follower(Operand(i))
  {
    match i
    case Guard(c) => OrFirst(c);
    case Valued(_, c) => OrFirst(c);
    case _ =>
  }

  lemma ScansWord(word: string, rest: string, line: string)
    requires IdentText(word) && Follower(rest) && (line == word + (" " + rest) || (rest == "" && line == word))
    ensures S.SkipSpaces(line) == line && line != "" && !("#" <= line)
    ensures S.ScanIdent(line, false) == S.Token(word, rest, false) && !Assigns(rest)
  {
    var tail := line[|word|..];
    assert line == word + tail;
    IdentSpan(word, tail);
    if line != word {
      assert tail == " " + rest;
      SkipBlank(" ", rest);
    }
    assert line[..|word|] == word && line[0] == word[0];
  }

  /** The words of an item's line. */
  lemma ItemWords(i: Item)
    requires WfItem(i)
    ensures Worded(i) ==> Cmd(ItemText(i)) == WordIn(i) && Args(ItemText(i)) == Operand(i)
    ensures !Worded(i) ==> Cmd(ItemText(i)) == ""
    ensures T.LineWord(ItemText(i)) == if Worded(i) then Some(WordOf(WordIn(i))) else None
  {
    if Worded(i) {
      WordIsIdent(i);
      OperandFollows(i);
      ScansWord(WordIn(i), Operand(i), ItemText(i));
    } else if i.Remark? {
      assert ItemText(i)[0] == '#';
    }
  }

  // No line of the grammar is an error where it may stand.

  lemma TypeWordsTold(cmd: string)
    ensures cmd in TypeWords ==> WordOf(cmd) == PlainType
    ensures cmd in ["def_tristate", "def_bool", "def_int", "def_hex", "def_string"] ==> WordOf(cmd) == DefaultType
  {
  }

  lemma PropertiesTold(cmd: string)
    ensures cmd == "default" ==> WordOf(cmd) == Default
    ensures cmd == "prompt" ==> WordOf(cmd) == Prompt
    ensures cmd in ["select", "imply"] ==> WordOf(cmd) == Select
    ensures cmd in ["modules", "optional"] ==> WordOf(cmd) == Flag
    ensures cmd == "option" ==> WordOf(cmd) == OptionLine
  {
  }

  lemma QuotedScans(q: QuotedText, sp: string, rest: string)
    requires WfQuoted('"', q) && Blank(sp) && (rest == "" || !S.IsSpace(rest[0]))
    ensures var text := Quoted(q) + (sp + rest);
            S.ScanQuoted(text, false) == S.Token(QuotedValue(q), rest, false) && text[0] == '"'
  {
    var text := Quoted(q) + (sp + rest);
    QuotedReads('"', q, sp + rest);
    assert text[1..] == QuotedStr(q) + (['"'] + (sp + rest));
    SkipBlank(sp, rest);
  }

  lemma TailReads(cond: Option<COr>)
    requires cond.Some? ==> WfOr(cond.value)
    ensures !IfErr(Tail(cond), false) && (Tail(cond) == "" || !S.IsSpace(Tail(cond)[0]))
  {
    if cond.Some? {
      ConditionReads("if", cond.value);
      ExprReads(cond.value);
    }
  }

  lemma ExprReads(c: COr)
    requires WfOr(c)
    ensures S.ParseOr(OrStr(c), false) == S.Parsed(OrMeans(c), "", false)
  {
    OrReads(c, "");
    assert OrStr(c) + "" == OrStr(c);
  }

  lemma ConditionReads(word: string, c: COr)
    requires WfOr(c) && (word == "if" || word == "on")
    ensures S.TryConsume(word + (" " + OrStr(c)), word) == Some(OrStr(c))
  {
    OrFirst(c);
    Consumes(word, " ", OrStr(c));
  }

  lemma NameReads(name: string, sp: string, rest: string)
    requires IdentText(name) && Blank(sp) && (rest == "" || (sp != "" && !S.IsSpace(rest[0])))
    ensures S.ScanIdent(name + (sp + rest), false) == S.Token(name, rest, false)
  {
    var all := name + (sp + rest);
    IdentSpan(name, sp + rest);
    assert all[..|name|] == name && all[|name|..] == sp + rest;
    SkipBlank(sp, rest);
  }

  /** Where a line may stand: a property below an entry, anything else unless it would
      follow an entry outside of all menus. */
  predicate MayStand(i: Item, b: Building) {
    Worded(i) ==> if IsProperty(WordOf(WordIn(i))) then b.cur.Some? else !Homeless(b)
  }

  lemma TitledFine(i: Item, b: Building)
    requires WfItem(i) && i.Titled? && !Homeless(b)
    ensures !LineErr(b, WordOf(i.word), Operand(i), false) && WordOf(i.word) != Source
  {
    WordsTold(i.word);
    QuotedScans(i.q, "", "");
    assert Quoted(i.q) + ("" + "") == Quoted(i.q);
  }

  lemma BareFine(i: Item, b: Building)
    requires WfItem(i) && i.Bare? && MayStand(i, b)
    ensures !LineErr(b, WordOf(i.word), "", false) && WordOf(i.word) != Source
  {
    WordsTold(i.word);
    TypeWordsTold(i.word);
    PropertiesTold(i.word);
  }

  lemma NamedFine(i: Item, b: Building)
    requires WfItem(i) && i.Named? && MayStand(i, b)
    ensures !LineErr(b, WordOf(i.word), Operand(i), false) && WordOf(i.word) != Source
  {
    WordsTold(i.word);
    NameReads(i.name, "", "");
    assert i.name + ("" + "") == i.name;
  }

  lemma SelectedFine(i: Item, b: Building)
    requires WfItem(i) && i.Selected? && MayStand(i, b)
    ensures !LineErr(b, WordOf(i.word), Operand(i), false) && WordOf(i.word) != Source
  {
    PropertiesTold(i.word);
    TailReads(i.cond);
    var sp := if i.cond.Some? then " " else "";
    NameReads(i.name, sp, Tail(i.cond));
    assert Operand(i) == i.name + (sp + Tail(i.cond));
  }

  lemma OptionedFine(i: Item, b: Building)
    requires WfItem(i) && i.Optioned? && MayStand(i, b)
    ensures !LineErr(b, WordOf(WordIn(i)), Operand(i), false)
  {
    PropertiesTold("option");
  }

  lemma GuardFine(i: Item, b: Building)
    requires WfItem(i) && i.Guard? && MayStand(i, b)
    ensures !LineErr(b, WordOf("if"), OrStr(i.c), false)
  {
    WordsTold("if");
    ExprReads(i.c);
  }

  lemma ConditionFine(i: Item, b: Building, w: Word, operand: string)
    requires WfItem(i) && i.Condition? && MayStand(i, b) && w == WordOf(i.word) && operand == Operand(i)
    ensures !LineErr(b, w, operand, false)
  {
    ConditionWord(i.word);
    OperandReads(i.c, i.word == "visible");
  }

  lemma ConditionWord(word: string)
    requires word in ["depends", "visible"]
    ensures WordOf(word) == if word == "visible" then Visible else Depends
  {
    WordsTold(word);
    TypesTold(word);
  }

  lemma OperandReads(c: COr, visible: bool)
    requires WfOr(c)
    ensures !ConditionErr((if visible then "if" else "on") + (" " + OrStr(c)), false, visible)
  {
    ExprReads(c);
    ConditionReads(if visible then "if" else "on", c);
  }

  lemma PromptedFine(i: Item, b: Building)
    requires WfItem(i) && i.Prompted? && MayStand(i, b)
    ensures !LineErr(b, WordOf(i.word), Operand(i), false) && WordOf(i.word) != Source
  {
    TypeWordsTold(i.word);
    PropertiesTold(i.word);
    TailReads(i.cond);
    var sp := if i.cond.Some? then " " else "";
    QuotedScans(i.q, sp, Tail(i.cond));
    assert Operand(i) == Quoted(i.q) + (sp + Tail(i.cond));
  }

  lemma ValuedFine(i: Item, b: Building)
    requires WfItem(i) && i.Valued? && MayStand(i, b)
    ensures !LineErr(b, WordOf(i.word), Operand(i), false) && WordOf(i.word) != Source
  {
    TypeWordsTold(i.word);
    PropertiesTold(i.word);
    ExprReads(i.c);
  }

  lemma OperandFine(i: Item, b: Building)
    requires WfItem(i) && Worded(i) && MayStand(i, b)
    ensures !LineErr(b, WordOf(WordIn(i)), Operand(i), false)
  {
    match i
    case Titled(_, _) =>
      WordsTold(i.word);
      TitledFine(i, b);
    case Bare(_) => BareFine(i, b);
    case Named(_, _) => NamedFine(i, b);
    case Selected(_, _, _) => SelectedFine(i, b);
    case Optioned(_) => OptionedFine(i, b);
    case Prompted(_, _, _) => PromptedFine(i, b);
    case Valued(_, _) => ValuedFine(i, b);
    case Guard(_) => GuardFine(i, b);
    case Condition(_, _) => ConditionFine(i, b, WordOf(i.word), Operand(i));
  }

  lemma WordedFine(line: string, w: Word, b: Building)
    requires Forest(b) && T.LineWord(line) == Some(w) && Cmd(line) != "" && !LineErr(b, w, Args(line), false)
    ensures !T.LineMeans(b, line).err
  {
    FirstTold(line);
  }

  lemma UnwordedFine(i: Item, b: Building)
    requires Forest(b) && !Worded(i)
    ensures !T.LineMeans(b, ItemText(i)).err
  {
    if i.Remark? {
      assert ItemText(i)[0] == '#';
    }
  }

  /** A line of the grammar is no error where it may stand. */
  lemma ItemFine(i: Item, b: Building)
    requires WfItem(i) && Forest(b) && MayStand(i, b)
    ensures !T.LineMeans(b, ItemText(i)).err
  {
    ItemWords(i);
    if Worded(i) {
      WordIsIdent(i);
      OperandFine(i, b);
      WordedFine(ItemText(i), WordOf(WordIn(i)), b);
    } else {
      UnwordedFine(i, b);
    }
  }

  // Files.

  function Texts(items: seq<Item>): (texts: seq<string>)
    ensures |texts| == |items| && forall k | 0 <= k < |items| :: texts[k] == ItemText(items[k])
  {
    seq(|items|, k requires 0 <= k < |items| => ItemText(items[k]))
  }

  function FileText(lines: seq<string>): string {
    if lines == [] then "" else lines[0] + ("\n" + FileText(lines[1..]))
  }

  predicate AllWhole(lines: seq<string>) { lines == [] || (T.WholeLine(lines[0]) && AllWhole(lines[1..])) }

  /** The lines are those of the text. */
  predicate LinesAre(data: string, lines: seq<string>)
    decreases |lines|
  {
    if lines == [] then data == ""
    else data != "" && S.NextLogical(data).line == lines[0] && LinesAre(S.NextLogical(data).data, lines[1..])
  }

  lemma {:induction false} LinesAreLines(data: string, lines: seq<string>)
    requires LinesAre(data, lines)
    ensures T.Lines(data) == lines
    decreases |lines|
  {
    if lines != [] {
      LinesAreLines(S.NextLogical(data).data, lines[1..]);
      assert lines == [lines[0]] + lines[1..];
    }
  }

  lemma {:induction false} FileLines(lines: seq<string>)
    requires AllWhole(lines)
    ensures LinesAre(FileText(lines), lines)
    decreases |lines|
  {
    if lines != [] {
      FileLines(lines[1..]);
      T.ReadsWhole(lines[0], FileText(lines[1..]));
    }
  }

  lemma {:induction false} AllAreWhole(lines: seq<string>)
    requires forall k | 0 <= k < |lines| :: T.WholeLine(lines[k])
    ensures AllWhole(lines)
    decreases |lines|
  {
    if lines != [] {
      assert forall k | 0 <= k < |lines[1..]| :: lines[1..][k] == lines[k + 1];
      AllAreWhole(lines[1..]);
    }
  }

  /** Every line is one of the grammar, on a line of its own; properties stand below an
      entry, and entries in a menu. */
  predicate WfFile(items: seq<Item>) {
    var marks := Marks(Texts(items));
    forall k | 0 <= k < |items| ::
      && WfItem(items[k]) && T.WholeLine(ItemText(items[k]))
      && (Worded(items[k]) && IsProperty(WordOf(WordIn(items[k]))) ==> CurLine(marks, k).Some?)
      && (marks[k].Making? ==> OpenAt(marks, k) != [])
  }

  lemma ItemIsPlain(i: Item)
    requires WfItem(i)
    ensures PlainWord(Cmd(ItemText(i)))
  {
    ItemWords(i);
    if Worded(i) {
      WordIsIdent(i);
    }
  }

  /** A menu with an entry in it, where any line may stand. */
  lemma SomewhereToStand() returns (b: Building)
    ensures Forest(b) && b.cur.Some? && !Homeless(b)
  {
    var m := NewMenu(MenuGroup, "", None);
    PushCurrentKeeps(KconfigMenu.Empty, m);
    b := PushCurrent(KconfigMenu.Empty, m);
  }

  lemma ItemReads(i: Item)
    requires WfItem(i)
    ensures LineReads(ItemText(i))
  {
    var b := SomewhereToStand();
    ItemFine(i, b);
    ItemIsPlain(i);
    LineFaults(b, ItemText(i));
  }

  lemma PropertyIs(i: Item)
    requires WfItem(i) && PropertyLine(ItemText(i))
    ensures Worded(i) && IsProperty(WordOf(WordIn(i)))
  {
    ItemWords(i);
    ItemIsPlain(i);
    WordKinds(ItemText(i));
  }

  lemma WrittenIsFaultless(items: seq<Item>)
    requires WfFile(items)
    ensures !Faulty(Texts(items))
  {
    forall k | 0 <= k < |items| ensures !Fault(Texts(items), k) {
      ItemReads(items[k]);
      if PropertyLine(ItemText(items[k])) {
        PropertyIs(items[k]);
      }
    }
  }

  lemma {:induction false} RankedWithout(fs: Files, rank: map<string, nat>, data: string, top: nat)
    requires NoInclude(T.Lines(data))
    ensures Ranked(fs, rank, data, top)
    decreases |data|
  {
    if data != "" {
      var s := S.NextLogical(data);
      var lines := T.Lines(data);
      assert lines[0] == s.line && lines[1..] == T.Lines(s.data);
      assert forall k | 0 <= k < |lines[1..]| :: lines[1..][k] == lines[k + 1];
      RankedWithout(fs, rank, s.data, top);
    }
  }

  lemma ItemsArePlain(items: seq<Item>)
    requires WfFile(items)
    ensures NoInclude(Texts(items))
  {
    forall k | 0 <= k < |items| ensures PlainWord(Cmd(Texts(items)[k])) {
      ItemIsPlain(items[k]);
    }
  }

  lemma WrittenLines(fs: Files, rank: map<string, nat>, top: nat, items: seq<Item>, data: string)
    requires WfFile(items) && data == FileText(Texts(items))
    ensures T.Lines(data) == Texts(items) && NoInclude(T.Lines(data)) && T.PlainText(T.Lines(data))
    ensures Ranked(fs, rank, data, top)
  {
    AllAreWhole(Texts(items));
    FileLines(Texts(items));
    LinesAreLines(data, Texts(items));
    ItemsArePlain(items);
    RankedWithout(fs, rank, data, top);
    forall k | 0 <= k < |items| ensures T.PlainLine(Texts(items)[k]) {
      PlainTold(Texts(items)[k]);
    }
  }

  lemma AcceptedFrom(fs: Files, rank: map<string, nat>, top: nat, items: seq<Item>, data: string, b: Building)
    requires AcyclicIncludes(fs, rank) && Ranked(fs, rank, data, top) && WfFile(items)
    requires T.Lines(data) == Texts(items) && NoInclude(Texts(items))
    requires Forest(b) && Follows(Marks(Texts(items)), 0, b)
    ensures var end := FileRun(fs, rank, top, data, State(b, 0, false));
            !end.err && |end.b.stack| == |OpenAt(Marks(Texts(items)), |items|)|
  {
    WrittenIsFaultless(items);
    RefusedExactly(fs, rank, top, data, b);
  }

  /** A file written in the grammar is accepted, and leaves open the menus that it says. */
  lemma WrittenIsAccepted(fs: Files, rank: map<string, nat>, top: nat, items: seq<Item>, data: string)
    requires AcyclicIncludes(fs, rank) && WfFile(items) && data == FileText(Texts(items))
    ensures T.Lines(data) == Texts(items) && NoInclude(T.Lines(data)) && Ranked(fs, rank, data, top)
    ensures var end := FileRun(fs, rank, top, data, State(KconfigMenu.Empty, 0, false));
            !end.err && |end.b.stack| == |OpenAt(Marks(Texts(items)), |items|)|
  {
    WrittenLines(fs, rank, top, items, data);
    AcceptedFrom(fs, rank, top, items, data, KconfigMenu.Empty);
  }
}
