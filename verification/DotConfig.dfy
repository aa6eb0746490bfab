/** The `.config` store (kconfig/config.go): a slice and a map over the same
    key-value objects, read from and written to lines. */
module DotConfig {

  datatype Entry = Entry(key: string, value: string, comments: seq<string>)

  /** The entries in file order and the comments not yet attached to one. */
  datatype Store = Store(entries: seq<Entry>, pending: seq<string>)

  const Yes := "y"
  const Mod := "m"
  const No := "n"
  const Prefix := "CONFIG_"

  predicate DistinctKeys(es: seq<Entry>) {
    forall i, j | 0 <= i < j < |es| :: es[i].key != es[j].key
  }

  /** Position of a key, or the number of entries. */
  function Find(es: seq<Entry>, key: string): (i: nat)
    ensures i <= |es| && (i < |es| ==> es[i].key == key)
    ensures forall j | 0 <= j < i :: es[j].key != key
  {
    if es == [] then 0
    else if es[0].key == key then 0
    else
      var i := 1 + Find(es[1..], key);
      assert forall j | 0 < j < i :: es[j] == es[1..][j - 1];
      i
  }

  /** `Set`: the key keeps its place, and the pending comments go to it. */
  function SetKey(s: Store, key: string, value: string): Store {
    var i := Find(s.entries, key);
    if i < |s.entries| then
      Store(s.entries[i := Entry(key, value, s.entries[i].comments + s.pending)], [])
    else Store(s.entries + [Entry(key, value, s.pending)], [])
  }

  function UnsetKey(s: Store, key: string): Store {
    var i := Find(s.entries, key);
    if i < |s.entries| then s.(entries := s.entries[i := s.entries[i].(value := No)]) else s
  }

  function Replace(es: seq<Entry>, from: string, to: string): seq<Entry> {
    seq(|es|, i requires 0 <= i < |es| => if es[i].value == from then es[i].(value := to) else es[i])
  }

  /** What a reader of the file sees. */
  function Lookup(es: seq<Entry>, key: string): (v: string) {
    var i := Find(es, key); if i < |es| then es[i].value else No
  }

  lemma LookupAt(es: seq<Entry>, i: nat, key: string)
    requires DistinctKeys(es) && i < |es| && es[i].key == key
    ensures Find(es, key) == i && Lookup(es, key) == es[i].value
  {
    assert Find(es, key) <= i;
  }

  lemma SameKeysSamePlace(es: seq<Entry>, fs: seq<Entry>, key: string)
    requires |es| <= |fs| && forall i | 0 <= i < |es| :: es[i].key == fs[i].key
    ensures Find(es, key) < |es| ==> Find(fs, key) == Find(es, key)
    ensures Find(es, key) == |es| ==> Find(fs, key) >= |es|
  {
  }

  /** Setting a key gives it the value, keeps every other value, and keeps the order: the
      key stays in its place or comes last. */
  lemma SetChangesOne(s: Store, key: string, value: string, other: string)
    requires DistinctKeys(s.entries)
    ensures var t := SetKey(s, key, value);
            && DistinctKeys(t.entries) && t.pending == []
            && Lookup(t.entries, key) == value
            && (other != key ==> Lookup(t.entries, other) == Lookup(s.entries, other))
            && |s.entries| <= |t.entries| <= |s.entries| + 1
            && (forall i | 0 <= i < |s.entries| ::
                  && t.entries[i].key == s.entries[i].key
                  && t.entries[i].comments == s.entries[i].comments + if s.entries[i].key == key then s.pending else [])
            && (|t.entries| > |s.entries| ==> t.entries[|s.entries|] == Entry(key, value, s.pending))
  {
    var t, i := SetKey(s, key, value), Find(s.entries, key);
    SameKeysSamePlace(s.entries, t.entries, other);
    LookupAt(t.entries, i, key);
  }

  lemma UnsetChangesOne(s: Store, key: string, other: string)
    ensures var t := UnsetKey(s, key);
            && Lookup(t.entries, key) == No
            && (other != key ==> Lookup(t.entries, other) == Lookup(s.entries, other))
            && |t.entries| == |s.entries| && t.pending == s.pending
            && forall i | 0 <= i < |s.entries| ::
                 t.entries[i].key == s.entries[i].key && t.entries[i].comments == s.entries[i].comments
  {
    var t := UnsetKey(s, key);
    SameKeysSamePlace(s.entries, t.entries, key);
    SameKeysSamePlace(s.entries, t.entries, other);
  }

  /** Replacing a value changes exactly the keys that have it. */
  lemma ReplaceChanges(es: seq<Entry>, from: string, to: string, key: string)
    ensures var t := Replace(es, from, to);
            && |t| == |es| && Find(t, key) == Find(es, key)
            && Lookup(t, key) == (if Find(es, key) < |es| && Lookup(es, key) == from then to else Lookup(es, key))
            && forall i | 0 <= i < |es| :: t[i].key == es[i].key && t[i].comments == es[i].comments
  {
    var t := Replace(es, from, to);
    SameKeysSamePlace(es, t, key);
    SameKeysSamePlace(t, es, key);
  }

  // Lines.

  predicate IsWord(c: char) { 'a' <= c <= 'z' || 'A' <= c <= 'Z' || '0' <= c <= '9' || c == '_' }
  predicate IsDigit(c: char) { '0' <= c <= '9' }
  predicate IsHex(c: char) { '0' <= c <= '9' || 'a' <= c <= 'f' || 'A' <= c <= 'F' }
  predicate Word(s: string) { s != "" && forall i | 0 <= i < |s| :: IsWord(s[i]) }
  predicate Digits(s: string) { s != "" && forall i | 0 <= i < |s| :: IsDigit(s[i]) }
  predicate HexDigits(s: string) { s != "" && forall i | 0 <= i < |s| :: IsHex(s[i]) }

  /** The values the configuration line pattern admits. */
  predicate ValueText(v: string) {
    || v == Yes || v == Mod
    || Digits(v) || ("-" <= v && Digits(v[1..]))
    || ("0x" <= v && HexDigits(v[2..]))
    || (|v| >= 2 && v[0] == '"' && v[|v| - 1] == '"' && '\n' !in v)
  }

  datatype Line = SetTo(key: string, value: string) | NotSet(key: string) | Comment

  function WordLen(s: string): (n: nat)
    ensures n <= |s| && (forall i | 0 <= i < n :: IsWord(s[i])) && (n < |s| ==> !IsWord(s[n]))
  {
    if s == "" || !IsWord(s[0]) then 0
    else
      var n := 1 + WordLen(s[1..]);
      assert forall i | 0 < i < |s| :: s[i] == s[1..][i - 1];
      n
  }

  const NotSetPrefix := "# CONFIG_"
  const NotSetSuffix := " is not set"

  /** The two line patterns of the parser. */
  function Classify(line: string): Line {
    if Prefix <= line then
      var r := line[|Prefix|..];
      var n := WordLen(r);
      if 0 < n < |r| && r[n] == '=' && ValueText(r[n + 1..]) then SetTo(r[..n], r[n + 1..]) else Comment
    else if NotSetPrefix <= line then
      var r := line[|NotSetPrefix|..];
      var n := WordLen(r);
      if 0 < n && r[n..] == NotSetSuffix then NotSet(r[..n]) else Comment
    else Comment
  }

  /** How an entry is written. */
  function EntryLine(key: string, value: string): string {
    if value == No then NotSetPrefix + (key + NotSetSuffix) else Prefix + (key + ("=" + value))
  }

  lemma WordLenIs(k: string, r: string)
    requires forall i | 0 <= i < |k| :: IsWord(k[i])
    requires r == "" || !IsWord(r[0])
    ensures WordLen(k + r) == |k|
  {
    assert forall i | 0 <= i < |k| :: (k + r)[i] == k[i];
    assert r != "" ==> (k + r)[|k|] == r[0];
  }

  /** A written entry is read back as that entry. */
  lemma EntryLineReads(key: string, value: string)
    requires Word(key) && (value == No || ValueText(value))
    ensures Classify(EntryLine(key, value)) == if value == No then NotSet(key) else SetTo(key, value)
  {
    if value == No {
      var line := NotSetPrefix + (key + NotSetSuffix);
      assert line[|NotSetPrefix|..] == key + NotSetSuffix;
      WordLenIs(key, NotSetSuffix);
      assert (key + NotSetSuffix)[..|key|] == key && (key + NotSetSuffix)[|key|..] == NotSetSuffix;
      assert line[0] == '#';
    } else {
      var r := "=" + value;
      var line := Prefix + (key + r);
      assert line[|Prefix|..] == key + r;
      WordLenIs(key, r);
      assert (key + r)[..|key|] == key && (key + r)[|key| + 1..] == value;
    }
  }

  /** The lines that set a key, each kind of value for itself, and the one that says it is not set. */
  lemma LinesRead(key: string, digits: string, hex: string, text: string)
    requires Word(key) && Digits(digits) && HexDigits(hex) && '\n' !in text
    ensures Classify("CONFIG_" + (key + ("=" + "y"))) == SetTo(key, "y")
    ensures Classify("CONFIG_" + (key + ("=" + "m"))) == SetTo(key, "m")
    ensures Classify("CONFIG_" + (key + ("=" + digits))) == SetTo(key, digits)
    ensures Classify("CONFIG_" + (key + ("=" + ("-" + digits)))) == SetTo(key, "-" + digits)
    ensures Classify("CONFIG_" + (key + ("=" + ("0x" + hex)))) == SetTo(key, "0x" + hex)
    ensures Classify("CONFIG_" + (key + ("=" + ("\"" + text + "\"")))) == SetTo(key, "\"" + text + "\"")
    ensures Classify("# CONFIG_" + (key + " is not set")) == NotSet(key)
  {
    ValuesAre(digits, hex, text);
    EntryLineReads(key, "y");
    EntryLineReads(key, "m");
    EntryLineReads(key, digits);
    EntryLineReads(key, "-" + digits);
    EntryLineReads(key, "0x" + hex);
    EntryLineReads(key, "\"" + text + "\"");
    EntryLineReads(key, "n");
  }

  lemma ValuesAre(digits: string, hex: string, text: string)
    requires Digits(digits) && HexDigits(hex) && '\n' !in text
    ensures ValueText(digits) && digits != No
    ensures ValueText("-" + digits) && "-" + digits != No
    ensures ValueText("0x" + hex) && "0x" + hex != No
    ensures ValueText("\"" + text + "\"") && "\"" + text + "\"" != No
  {
    var quoted := "\"" + text + "\"";
    assert ("-" + digits)[1..] == digits && ("0x" + hex)[2..] == hex;
    assert quoted[0] == '"' && quoted[|quoted| - 1] == '"';
    assert digits[0] != 'n' && ("-" + digits)[0] == '-' && ("0x" + hex)[0] == '0';
  }

  lemma PrefixAndRest(line: string, prefix: string)
    requires prefix <= line
    ensures line == prefix + line[|prefix|..]
  {
  }

  lemma WordAndRest(r: string, n: nat)
    requires n == WordLen(r)
    ensures r == r[..n] + r[n..] && forall i | 0 <= i < n :: IsWord(r[..n][i])
  {
  }

  lemma SetToSound(line: string)
    requires Classify(line).SetTo?
    ensures Word(Classify(line).key) && ValueText(Classify(line).value)
    ensures line == Prefix + (Classify(line).key + ("=" + Classify(line).value))
  {
    var r := line[|Prefix|..];
    var n := WordLen(r);
    PrefixAndRest(line, Prefix);
    WordAndRest(r, n);
    PrefixAndRest(r[n..], "=");
    assert r[n..][1..] == r[n + 1..];
  }

  lemma NotSetSound(line: string)
    requires Classify(line).NotSet?
    ensures Word(Classify(line).key) && line == NotSetPrefix + (Classify(line).key + NotSetSuffix)
  {
    var r := line[|NotSetPrefix|..];
    PrefixAndRest(line, NotSetPrefix);
    WordAndRest(r, WordLen(r));
    assert !(Prefix <= line);
  }

  /** Conversely a line is read as an entry only if it is that entry written out. */
  lemma ClassifySound(line: string)
    requires !Classify(line).Comment?
    ensures var k := Classify(line).key;
            var v := if Classify(line).SetTo? then Classify(line).value else No;
            Word(k) && (v == No || ValueText(v)) && line == EntryLine(k, v)
  {
    if Classify(line).SetTo? { SetToSound(line); } else { NotSetSound(line); }
  }

  /** A line is a comment exactly when it writes no entry. */
  lemma CommentExactly(line: string)
    ensures Classify(line).Comment? <==>
            forall k, v :: Word(k) && (v == No || ValueText(v)) ==> line != EntryLine(k, v)
  {
    if Classify(line).Comment? {
      forall k, v | Word(k) && (v == No || ValueText(v)) ensures line != EntryLine(k, v) {
        EntryLineReads(k, v);
      }
    } else {
      ClassifySound(line);
    }
  }

  function ReadLine(s: Store, line: string): Store {
    match Classify(line)
    case SetTo(k, v) => SetKey(s, k, v)
    case NotSet(k) => SetKey(s, k, No)
    case Comment => s.(pending := s.pending + [line])
  }

  function ReadLines(s: Store, lines: seq<string>): Store
    decreases |lines|
  {
    if lines == [] then s else ReadLines(ReadLine(s, lines[0]), lines[1..])
  }

  function WriteEntries(es: seq<Entry>): seq<string> {
    if es == [] then [] else es[0].comments + [EntryLine(es[0].key, es[0].value)] + WriteEntries(es[1..])
  }

  function Write(s: Store): seq<string> { WriteEntries(s.entries) + s.pending }

  const EmptyStore := Store([], [])

  // Reading and writing are inverse.

  predicate Comments(cs: seq<string>) { forall i | 0 <= i < |cs| :: Classify(cs[i]).Comment? }

  predicate EntryOk(e: Entry) { Word(e.key) && (e.value == No || ValueText(e.value)) && Comments(e.comments) }

  /** The stores that lines can express. */
  predicate Lineable(s: Store) {
    DistinctKeys(s.entries) && (forall i | 0 <= i < |s.entries| :: EntryOk(s.entries[i])) && Comments(s.pending)
  }

  lemma {:induction false} ReadConcat(s: Store, a: seq<string>, b: seq<string>)
    ensures ReadLines(s, a + b) == ReadLines(ReadLines(s, a), b)
    decreases |a|
  {
    if a == [] {
      assert a + b == b;
    } else {
      assert (a + b)[1..] == a[1..] + b;
      ReadConcat(ReadLine(s, a[0]), a[1..], b);
    }
  }

  lemma {:induction false} ReadComments(s: Store, cs: seq<string>)
    requires Comments(cs)
    ensures ReadLines(s, cs) == s.(pending := s.pending + cs)
    decreases |cs|
  {
    if cs == [] {
      assert s.pending + cs == s.pending;
    } else {
      ReadComments(ReadLine(s, cs[0]), cs[1..]);
      assert s.pending + [cs[0]] + cs[1..] == s.pending + cs;
    }
  }

  lemma {:induction false} ReadOne(done: seq<Entry>, e: Entry)
    requires EntryOk(e) && Find(done, e.key) == |done|
    ensures ReadLines(Store(done, []), e.comments + [EntryLine(e.key, e.value)]) == Store(done + [e], [])
  {
    var line := EntryLine(e.key, e.value);
    var s0 := Store(done, []);
    ReadConcat(s0, e.comments, [line]);
    ReadComments(s0, e.comments);
    assert [] + e.comments == e.comments;
    EntryLineReads(e.key, e.value);
    var s1 := Store(done, e.comments);
    assert ReadLine(s1, line) == SetKey(s1, e.key, e.value);
    assert ReadLines(s1, [line]) == ReadLines(ReadLine(s1, line), []);
  }

  lemma NewKey(done: seq<Entry>, es: seq<Entry>)
    requires es != [] && Lineable(Store(done + es, []))
    ensures EntryOk(es[0]) && Find(done, es[0].key) == |done|
  {
    var all := done + es;
    assert all[|done|] == es[0];
    assert forall i | 0 <= i < |done| :: all[i] == done[i];
  }

  /** Reading what was written for more entries adds exactly them. */
  lemma {:induction false} ReadEntries(done: seq<Entry>, es: seq<Entry>)
    requires Lineable(Store(done + es, []))
    ensures ReadLines(Store(done, []), WriteEntries(es)) == Store(done + es, [])
    decreases |es|
  {
    if es == [] {
      assert done + es == done;
    } else {
      var e, rest := es[0], es[1..];
      NewKey(done, es);
      ReadOne(done, e);
      ReadConcat(Store(done, []), e.comments + [EntryLine(e.key, e.value)], WriteEntries(rest));
      assert done + [e] + rest == done + es;
      ReadEntries(done + [e], rest);
    }
  }

  lemma WriteReads(s: Store)
    requires Lineable(s)
    ensures ReadLines(EmptyStore, Write(s)) == s
  {
    assert [] + s.entries == s.entries;
    ReadEntries([], s.entries);
    ReadConcat(EmptyStore, WriteEntries(s.entries), s.pending);
    ReadComments(Store(s.entries, []), s.pending);
    assert [] + s.pending == s.pending;
  }

  lemma SetKeyKeeps(s: Store, key: string, value: string)
    requires Lineable(s) && Word(key) && (value == No || ValueText(value))
    ensures Lineable(SetKey(s, key, value))
  {
    var i := Find(s.entries, key);
    if i < |s.entries| {
      assert EntryOk(s.entries[i]);
      CommentsConcat(s.entries[i].comments, s.pending);
    }
  }

  lemma CommentsConcat(a: seq<string>, b: seq<string>)
    requires Comments(a) && Comments(b)
    ensures Comments(a + b)
  {
  }

  lemma {:induction false} ReadLineable(s: Store, lines: seq<string>)
    requires Lineable(s)
    ensures Lineable(ReadLines(s, lines))
    decreases |lines|
  {
    if lines != [] {
      match Classify(lines[0]) {
        case SetTo(k, v) => SetToSound(lines[0]); SetKeyKeeps(s, k, v);
        case NotSet(k) => NotSetSound(lines[0]); SetKeyKeeps(s, k, No);
        case Comment => CommentsConcat(s.pending, [lines[0]]);
      }
      ReadLineable(ReadLine(s, lines[0]), lines[1..]);
    }
  }

  /** Whatever lines were read, writing and reading again gives the same keys in
      the same order with the same values and comments. */
  lemma ParseSerialiseParse(lines: seq<string>)
    ensures ReadLines(EmptyStore, Write(ReadLines(EmptyStore, lines))) == ReadLines(EmptyStore, lines)
  {
    ReadLineable(EmptyStore, lines);
    WriteReads(ReadLines(EmptyStore, lines));
  }
}
