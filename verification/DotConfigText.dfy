/** A `.config` file as text (kconfig/config.go): how it is written, how the scanner cuts it
    into lines, and which contents survive. */
module DotConfigText {
  import opened DotConfig

  /** The scanner gives up at a line of this length. */
  const MaxLine := 65536

  predicate EndsCr(l: string) { l != "" && l[|l| - 1] == '\r' }

  function StripCr(l: string): string { if EndsCr(l) then l[..|l| - 1] else l }

  function LineLen(t: string): (n: nat)
    ensures n <= |t| && '\n' !in t[..n] && (n < |t| ==> t[n] == '\n')
  {
    if t == "" || t[0] == '\n' then 0
    else
      var n := 1 + LineLen(t[1..]);
      assert t[..n] == [t[0]] + t[1..][..n - 1];
      n
  }

  /** The lines that the scanner finds: split at newlines, without one carriage return at
      the end, and nothing from a line on that is too long. */
  function Scan(t: string): seq<string>
    decreases |t|
  {
    if t == "" then []
    else
      var n := LineLen(t);
      if n >= MaxLine then [] else [StripCr(t[..n])] + if n < |t| then Scan(t[n + 1..]) else []
  }

  function Join(lines: seq<string>): string {
    if lines == [] then "" else lines[0] + "\n" + Join(lines[1..])
  }

  function ReadText(t: string): Store { ReadLines(EmptyStore, Scan(t)) }

  function WriteText(s: Store): string { Join(Write(s)) }

  function Stripped(lines: seq<string>): (r: seq<string>)
    ensures |r| == |lines| && forall i | 0 <= i < |lines| :: r[i] == StripCr(lines[i])
  {
    if lines == [] then [] else [StripCr(lines[0])] + Stripped(lines[1..])
  }

  predicate Raw(l: string) { '\n' !in l && |l| < MaxLine }

  predicate AllRaw(lines: seq<string>) { forall i | 0 <= i < |lines| :: Raw(lines[i]) }

  lemma FirstLine(l: string, rest: string)
    requires '\n' !in l
    ensures LineLen(l + "\n" + rest) == |l|
    ensures (l + "\n" + rest)[..|l|] == l && (l + "\n" + rest)[|l| + 1..] == rest
  {
    var t := l + "\n" + rest;
    assert t[..|l|] == l && t[|l|] == '\n';
  }

  lemma {:induction false} ScanJoin(lines: seq<string>)
    requires AllRaw(lines)
    ensures Scan(Join(lines)) == Stripped(lines)
    decreases |lines|
  {
    if lines != [] {
      FirstLine(lines[0], Join(lines[1..]));
      ScanJoin(lines[1..]);
    }
  }

  lemma {:induction false} ScanIsRaw(t: string)
    ensures AllRaw(Scan(t))
    decreases |t|
  {
    if t != "" {
      var n := LineLen(t);
      assert forall c | c in StripCr(t[..n]) :: c in t[..n];
      if n < |t| { ScanIsRaw(t[n + 1..]); }
    }
  }

  // What survives.

  /** The line is among those that are written. */
  ghost predicate Writes(s: Store, l: string) {
    l in s.pending ||
    exists i | 0 <= i < |s.entries| ::
      l in s.entries[i].comments || l == EntryLine(s.entries[i].key, s.entries[i].value)
  }

  lemma {:induction false} WriteEntriesHas(es: seq<Entry>, l: string)
    ensures l in WriteEntries(es) <==>
            exists i | 0 <= i < |es| :: l in es[i].comments || l == EntryLine(es[i].key, es[i].value)
    decreases |es|
  {
    if es != [] {
      WriteEntriesHas(es[1..], l);
      assert forall i | 0 <= i < |es| - 1 :: es[1..][i] == es[i + 1];
      if i :| 0 <= i < |es| && (l in es[i].comments || l == EntryLine(es[i].key, es[i].value)) {
        assert i > 0 ==> es[1..][i - 1] == es[i];
      }
    }
  }

  lemma WriteHas(s: Store, l: string)
    ensures l in Write(s) <==> Writes(s, l)
  {
    WriteEntriesHas(s.entries, l);
  }

  lemma SetKeyWrites(s: Store, k: string, v: string, l: string)
    ensures Writes(SetKey(s, k, v), l) ==> Writes(s, l) || l == EntryLine(k, v)
    ensures (l in s.pending || exists i | 0 <= i < |s.entries| :: l in s.entries[i].comments) ==>
              Writes(SetKey(s, k, v), l)
  {
    var t, i := SetKey(s, k, v), Find(s.entries, k);
    if l in s.pending {
      assert l in t.entries[i].comments;
    }
    if j :| 0 <= j < |s.entries| && l in s.entries[j].comments {
      assert l in t.entries[j].comments;
    }
  }

  lemma {:induction false} ReadWrites(s: Store, lines: seq<string>, l: string)
    requires Writes(ReadLines(s, lines), l)
    ensures Writes(s, l) || l in lines
    decreases |lines|
  {
    if lines != [] {
      var x := lines[0];
      ReadWrites(ReadLine(s, x), lines[1..], l);
      if l !in lines[1..] {
        ReadLineWrites(s, x, l);
      }
    }
  }

  lemma ReadLineWrites(s: Store, x: string, l: string)
    requires Writes(ReadLine(s, x), l)
    ensures Writes(s, l) || l == x
  {
    if !Classify(x).Comment? {
      ClassifySound(x);
      var c := Classify(x);
      SetKeyWrites(s, c.key, if c.SetTo? then c.value else No, l);
    }
  }

  ghost predicate HasComment(s: Store, l: string) {
    l in s.pending || exists i | 0 <= i < |s.entries| :: l in s.entries[i].comments
  }

  lemma SetKeyKeepsComment(s: Store, k: string, v: string, l: string)
    requires HasComment(s, l)
    ensures HasComment(SetKey(s, k, v), l)
  {
    var t, i := SetKey(s, k, v), Find(s.entries, k);
    if l in s.pending {
      assert l in t.entries[i].comments;
    } else {
      var j :| 0 <= j < |s.entries| && l in s.entries[j].comments;
      assert l in t.entries[j].comments;
    }
  }

  lemma ReadLineKeepsComment(s: Store, x: string, l: string)
    requires HasComment(s, l) || (x == l && Classify(l).Comment?)
    ensures HasComment(ReadLine(s, x), l)
  {
    var c := Classify(x);
    if !c.Comment? { SetKeyKeepsComment(s, c.key, if c.SetTo? then c.value else No, l); }
  }

  lemma {:induction false} ReadKeepsComment(s: Store, lines: seq<string>, l: string)
    requires HasComment(s, l) || (l in lines && Classify(l).Comment?)
    ensures HasComment(ReadLines(s, lines), l)
    decreases |lines|
  {
    if lines != [] {
      if HasComment(s, l) || lines[0] == l { ReadLineKeepsComment(s, lines[0], l); }
      ReadKeepsComment(ReadLine(s, lines[0]), lines[1..], l);
    }
  }

  // No character of a comment gets lost, or is made up.

  function Total(cs: seq<string>): nat { if cs == [] then 0 else |cs[0]| + Total(cs[1..]) }

  lemma {:induction false} TotalConcat(a: seq<string>, b: seq<string>)
    ensures Total(a + b) == Total(a) + Total(b)
    decreases |a|
  {
    if a == [] {
      assert a + b == b;
    } else {
      assert (a + b)[1..] == a[1..] + b;
      TotalConcat(a[1..], b);
    }
  }

  function EntriesTotal(es: seq<Entry>): nat {
    if es == [] then 0 else Total(es[0].comments) + EntriesTotal(es[1..])
  }

  lemma {:induction false} EntriesTotalUpdate(es: seq<Entry>, i: nat, e: Entry)
    requires i < |es|
    ensures EntriesTotal(es[i := e]) == EntriesTotal(es) - Total(es[i].comments) + Total(e.comments)
    decreases |es|
  {
    if i == 0 {
      assert es[i := e][1..] == es[1..];
    } else {
      assert es[i := e][1..] == es[1..][i - 1 := e];
      EntriesTotalUpdate(es[1..], i - 1, e);
    }
  }

  lemma {:induction false} EntriesTotalMore(es: seq<Entry>, e: Entry)
    ensures EntriesTotal(es + [e]) == EntriesTotal(es) + Total(e.comments)
    decreases |es|
  {
    if es == [] {
      assert es + [e] == [e] && [e][1..] == [];
    } else {
      assert (es + [e])[1..] == es[1..] + [e];
      EntriesTotalMore(es[1..], e);
    }
  }

  function Size(s: Store): nat { EntriesTotal(s.entries) + Total(s.pending) }

  lemma SetKeySize(s: Store, k: string, v: string)
    ensures Size(SetKey(s, k, v)) == Size(s)
  {
    var i := Find(s.entries, k);
    if i < |s.entries| {
      TotalConcat(s.entries[i].comments, s.pending);
      EntriesTotalUpdate(s.entries, i, Entry(k, v, s.entries[i].comments + s.pending));
    } else {
      EntriesTotalMore(s.entries, Entry(k, v, s.pending));
    }
  }

  /** How many characters a line adds to the comments. */
  function Adds(l: string): nat { if Classify(l).Comment? then |l| else 0 }

  function AddsAll(lines: seq<string>): nat { if lines == [] then 0 else Adds(lines[0]) + AddsAll(lines[1..]) }

  lemma ReadLineSize(s: Store, l: string)
    ensures Size(ReadLine(s, l)) == Size(s) + Adds(l)
  {
    var c := Classify(l);
    if c.Comment? {
      TotalConcat(s.pending, [l]);
      assert [l][1..] == [];
    } else {
      SetKeySize(s, c.key, if c.SetTo? then c.value else No);
    }
  }

  lemma {:induction false} ReadSize(s: Store, lines: seq<string>)
    ensures Size(ReadLines(s, lines)) == Size(s) + AddsAll(lines)
    decreases |lines|
  {
    if lines != [] {
      ReadLineSize(s, lines[0]);
      ReadSize(ReadLine(s, lines[0]), lines[1..]);
    }
  }

  lemma EndsAlike(front: string, back: string)
    requires back != "" && !EndsCr(back)
    ensures !EndsCr(front + back)
  {
    assert (front + back)[|front + back| - 1] == back[|back| - 1];
  }

  lemma ValueEndsPlain(v: string)
    requires ValueText(v)
    ensures v != "" && !EndsCr(v)
  {
    if Digits(v) {
      assert IsDigit(v[|v| - 1]);
    } else if "-" <= v && Digits(v[1..]) {
      assert IsDigit(v[1..][|v| - 2]);
    } else if "0x" <= v && HexDigits(v[2..]) {
      assert IsHex(v[2..][|v| - 3]);
    }
  }

  /** A line that sets an entry ends in no carriage return. */
  lemma EntryEndsPlain(l: string)
    requires !Classify(l).Comment?
    ensures !EndsCr(l)
  {
    var c := Classify(l);
    if c.SetTo? {
      SetToSound(l);
      ValueEndsPlain(c.value);
      EndsAlike("=", c.value);
      EndsAlike(c.key, "=" + c.value);
      EndsAlike(Prefix, c.key + ("=" + c.value));
    } else {
      NotSetSound(l);
      assert NotSetSuffix[|NotSetSuffix| - 1] == 't';
      EndsAlike(c.key, NotSetSuffix);
      EndsAlike(NotSetPrefix, c.key + NotSetSuffix);
    }
  }

  lemma {:induction false} StrippingShrinks(lines: seq<string>, k: nat)
    ensures AddsAll(Stripped(lines)) <= AddsAll(lines)
    ensures k < |lines| && EndsCr(lines[k]) ==> AddsAll(Stripped(lines)) < AddsAll(lines)
    decreases |lines|
  {
    if lines != [] {
      var l := lines[0];
      if EndsCr(l) && !Classify(l).Comment? { EntryEndsPlain(l); }
      assert Stripped(lines)[1..] == Stripped(lines[1..]);
      StrippingShrinks(lines[1..], if k == 0 then |lines| else k - 1);
    }
  }

  // The round trips.

  /** Every line that is written is one line to the scanner, and comes back as it is. */
  predicate OneLineEach(lines: seq<string>) { AllRaw(lines) && forall i | 0 <= i < |lines| :: !EndsCr(lines[i]) }

  /** The contents that a file can express. */
  predicate Expressible(s: Store) { Lineable(s) && OneLineEach(Write(s)) }

  lemma {:induction false} StrippedSame(lines: seq<string>)
    requires forall i | 0 <= i < |lines| :: !EndsCr(lines[i])
    ensures Stripped(lines) == lines
    decreases |lines|
  {
    if lines != [] { StrippedSame(lines[1..]); }
  }

  lemma ExpressibleSurvives(s: Store)
    requires Expressible(s)
    ensures ReadText(WriteText(s)) == s
  {
    ScanJoin(Write(s));
    StrippedSame(Write(s));
    WriteReads(s);
  }

  /** What was read from text can be written as lines, and these are lines of the text. */
  lemma ReadIsRaw(t: string)
    ensures Lineable(ReadText(t)) && AllRaw(Write(ReadText(t)))
    ensures forall l | l in Write(ReadText(t)) :: l in Scan(t)
  {
    var s := ReadText(t);
    ReadLineable(EmptyStore, Scan(t));
    ScanIsRaw(t);
    forall l | l in Write(s) ensures l in Scan(t) && Raw(l) {
      WriteHas(s, l);
      ReadWrites(EmptyStore, Scan(t), l);
    }
    forall i | 0 <= i < |Write(s)| ensures Raw(Write(s)[i]) {
      assert Write(s)[i] in Write(s);
    }
  }

  lemma SurvivorIsExpressible(s: Store)
    requires ReadText(WriteText(s)) == s
    ensures Expressible(s)
  {
    ReadIsRaw(WriteText(s));
    var lines := Write(s);
    ScanJoin(lines);
    WriteReads(s);
    ReadSize(EmptyStore, Stripped(lines));
    ReadSize(EmptyStore, lines);
    forall i | 0 <= i < |lines| ensures !EndsCr(lines[i]) {
      StrippingShrinks(lines, i);
    }
  }

  /** Contents survive being written and read exactly when they are expressible. */
  lemma SurvivesExactly(s: Store)
    ensures ReadText(WriteText(s)) == s <==> Expressible(s)
  {
    if Expressible(s) { ExpressibleSurvives(s); }
    if ReadText(WriteText(s)) == s { SurvivorIsExpressible(s); }
  }

  /** Reading, writing and reading again gives the same keys in the same order with the same
      values and comments, exactly if no line still ends in a carriage return after the
      scanner took one away. */
  lemma TextSurvivesExactly(t: string)
    ensures ReadText(WriteText(ReadText(t))) == ReadText(t) <==> forall l | l in Scan(t) :: !EndsCr(l)
  {
    var s := ReadText(t);
    SurvivesExactly(s);
    ReadIsRaw(t);
    forall l | l in Scan(t) && EndsCr(l) ensures l in Write(s) {
      if !Classify(l).Comment? { EntryEndsPlain(l); }
      ReadKeepsComment(EmptyStore, Scan(t), l);
      WriteHas(s, l);
    }
    if l :| l in Scan(t) && EndsCr(l) {
      var i :| 0 <= i < |Write(s)| && Write(s)[i] == l;
      assert !OneLineEach(Write(s));
    } else {
      forall i | 0 <= i < |Write(s)| ensures !EndsCr(Write(s)[i]) { assert Write(s)[i] in Scan(t); }
    }
  }

  // What does not survive.

  /** The parser takes a line that sets a key to no for a comment. */
  lemma NoIsAComment()
    ensures Classify("CONFIG_X=n").Comment?
  {
    assert "CONFIG_X=n"[7..] == "X=n" && "X=n"[1..] == "=n" && "X=n"[2..] == "n";
    assert WordLen("X=n") == 1 by { assert WordLen("=n") == 0; }
  }

  lemma BadValues(v: string)
    requires v == "foo" || v == "\"a\nb\""
    ensures v != No && !ValueText(v)
  {
    if v == "foo" {
      assert v[0] == 'f' && |v| == 3;
    } else {
      assert v[2] == '\n' && v[0] == '"' && |v| == 5;
    }
  }

  /** A value that is neither number nor quoted is lost; so is a quoted one with a newline in it. */
  lemma BadValueIsLost(s: Store, v: string)
    requires (v == "foo" || v == "\"a\nb\"") && s == Store([Entry("X", v, [])], [])
    ensures ReadText(WriteText(s)) != s
  {
    BadValues(v);
    SurvivesExactly(s);
    assert !EntryOk(s.entries[0]);
  }
}
