/** A `.config` file as it is kept in memory (kconfig/config.go): a slice and a map over the
    same key-value objects, changed in place. */
module DotConfigObjects {
  import opened DotConfig
  import opened DotConfigText

  class KeyValue {
    const key: string
    var value: string
    var comments: seq<string>

    constructor (key: string, value: string, comments: seq<string>)
      ensures this.key == key && this.value == value && this.comments == comments
    {
      this.key, this.value, this.comments := key, value, comments;
    }
  }

  class DotConfigFile {
    var slice: seq<KeyValue>
    var index: map<string, KeyValue>
    var comments: seq<string>
    /** What the slice holds, where the object of a key is, and all objects. */
    ghost var entries: seq<Entry>
    ghost var pos: map<string, nat>
    ghost var objs: set<KeyValue>

    constructor ()
      ensures Valid() && View() == EmptyStore && slice == [] && objs == {} && index == map[]
    {
      slice, index, comments, entries, pos, objs := [], map[], [], [], map[], {};
    }

    /** The slice and the map hold the same objects, under distinct keys. */
    ghost predicate Valid()
      reads this, objs
    {
      && pos.Keys == index.Keys && |entries| == |slice|
      && (forall k {:trigger index[k]} {:trigger pos[k]} | k in index ::
            pos[k] < |slice| && index[k] == slice[pos[k]] && index[k].key == k)
      && (forall i {:trigger slice[i]} | 0 <= i < |slice| ::
            slice[i] in objs && slice[i].key in index && pos[slice[i].key] == i)
      && (forall i {:trigger slice[i]} | 0 <= i < |slice| ::
            entries[i] == Entry(slice[i].key, slice[i].value, slice[i].comments))
    }

    ghost function View(): Store
      reads this
    {
      Store(entries, comments)
    }

    /** Looking up the map agrees with searching the slice. */
    lemma FindIs(name: string)
      requires Valid()
      ensures name in index <==> Find(entries, name) < |slice|
      ensures name in index ==> Find(entries, name) == pos[name]
    {
      var i := Find(entries, name);
      if name in index {
        assert entries[pos[name]].key == name;
      }
      if i < |slice| {
        assert slice[i].key == name;
      }
    }

    method Value(name: string) returns (v: string)
      requires Valid()
      ensures v == Lookup(entries, name)
    {
      FindIs(name);
      if name !in index {
        return No;
      }
      return index[name].value;
    }

    /** A new object goes into both. */
    method Add(key: string, value: string, notes: seq<string>)
      requires Valid() && key !in index
      modifies this`slice, this`index, this`entries, this`pos, this`objs
      ensures Valid() && fresh(objs - old(objs))
      ensures entries == old(entries) + [Entry(key, value, notes)]
      ensures index.Keys == old(index.Keys) + {key}
    {
      var kv := new KeyValue(key, value, notes);
      index := index[key := kv];
      slice := slice + [kv];
      entries := entries + [Entry(key, value, notes)];
      pos := pos[key := |slice| - 1];
      objs := objs + {kv};
    }

    /** Changes one object, which the slice and the map both see. */
    method Assign(cfg: KeyValue, ghost i: nat, val: string, more: seq<string>)
      requires Valid() && i < |slice| && slice[i] == cfg
      modifies this`entries, cfg
      ensures Valid()
      ensures entries == old(entries)[i := Entry(old(entries)[i].key, val, old(entries)[i].comments + more)]
    {
      assert forall j | 0 <= j < |slice| && j != i :: slice[j] != cfg;
      cfg.value := val;
      cfg.comments := cfg.comments + more;
      entries := entries[i := Entry(cfg.key, val, cfg.comments)];
    }

    method Set(name: string, val: string)
      requires Valid()
      modifies this, objs
      ensures Valid() && View() == SetKey(old(View()), name, val)
      ensures fresh(objs - old(objs))
    {
      FindIs(name);
      if name !in index {
        Add(name, val, comments);
      } else {
        Assign(index[name], pos[name], val, comments);
      }
      comments := [];
    }

    method Unset(name: string)
      requires Valid()
      modifies this`entries, objs
      ensures Valid() && View() == UnsetKey(old(View()), name)
    {
      FindIs(name);
      if name !in index {
        return;
      }
      Assign(index[name], pos[name], No, []);
      assert old(entries)[pos[name]].comments + [] == old(entries)[pos[name]].comments;
    }

    method ReplaceAll(from: string, to: string)
      requires Valid()
      modifies this`entries, objs
      ensures Valid() && View() == old(View()).(entries := Replace(old(entries), from, to))
    {
      ghost var was := entries;
      var i := 0;
      while i < |slice|
        invariant 0 <= i <= |slice| && Valid()
        invariant |entries| == |was| && forall j | 0 <= j < |was| ::
          entries[j] == if j < i && was[j].value == from then was[j].(value := to) else was[j]
      {
        if slice[i].value == from {
          assert was[i].comments + [] == was[i].comments;
          Assign(slice[i], i, to, []);
        }
        i := i + 1;
      }
    }

    method ModToYes()
      requires Valid()
      modifies this`entries, objs
      ensures Valid() && View() == old(View()).(entries := Replace(old(entries), Mod, Yes))
    {
      ReplaceAll(Mod, Yes);
    }

    method ModToNo()
      requires Valid()
      modifies this`entries, objs
      ensures Valid() && View() == old(View()).(entries := Replace(old(entries), Mod, No))
    {
      ReplaceAll(Mod, No);
    }

    method Serialize() returns (text: string)
      requires Valid()
      ensures text == WriteText(View())
    {
      var lines := Lines();
      text := "";
      var i := 0;
      while i < |lines|
        invariant 0 <= i <= |lines|
        invariant text + Join(lines[i..]) == Join(lines)
      {
        assert lines[i..][1..] == lines[i + 1..];
        text := text + (lines[i] + "\n");
        i := i + 1;
      }
    }

    /** The lines in the order in which they are printed. */
    method Lines() returns (lines: seq<string>)
      requires Valid()
      ensures lines == Write(View())
    {
      lines := [];
      var i := 0;
      ghost var es := entries;
      while i < |slice|
        invariant 0 <= i <= |slice|
        invariant lines + WriteEntries(es[i..]) == WriteEntries(es)
      {
        assert es[i..][1..] == es[i + 1..];
        lines := lines + slice[i].comments;
        lines := lines + [EntryLine(slice[i].key, slice[i].value)];
        i := i + 1;
      }
      lines := lines + comments;
    }

    method ParseLine(text: string)
      requires Valid()
      modifies this, objs
      ensures Valid() && View() == ReadLine(old(View()), text)
      ensures fresh(objs - old(objs))
    {
      match Classify(text)
      case SetTo(k, v) => Set(k, v);
      case NotSet(k) => Set(k, No);
      case Comment =>
        comments := comments + [text];
    }

    method Snapshot() returns (es: seq<Entry>)
      requires Valid()
      ensures es == entries && DistinctKeys(es)
    {
      es := [];
      var i := 0;
      while i < |slice|
        invariant 0 <= i <= |slice| && es == entries[..i]
      {
        es := es + [Entry(slice[i].key, slice[i].value, slice[i].comments)];
        i := i + 1;
      }
      assert forall j | 0 <= j < |es| :: es[j].key == slice[j].key && pos[slice[j].key] == j;
    }

    /** A deep copy: it shares no object with the original. */
    method Clone() returns (c: DotConfigFile)
      requires Valid()
      ensures c.Valid() && fresh(c) && fresh(c.objs) && c.View() == View()
    {
      var es := Snapshot();
      c := Build(es);
      c.comments := comments;
    }
  }

  lemma NotYet(es: seq<Entry>, i: nat)
    requires DistinctKeys(es) && i < |es|
    ensures Find(es[..i], es[i].key) == i
    ensures es[..i + 1] == es[..i] + [Entry(es[i].key, es[i].value, es[i].comments)]
  {
  }

  /** A store with new objects for the given entries. */
  method Build(es: seq<Entry>) returns (c: DotConfigFile)
    requires DistinctKeys(es)
    ensures c.Valid() && fresh(c) && fresh(c.objs) && c.entries == es
  {
    c := new DotConfigFile();
    var i := 0;
    while i < |es|
      invariant 0 <= i <= |es| && c.Valid() && fresh(c) && fresh(c.objs) && c.entries == es[..i]
    {
      NotYet(es, i);
      c.FindIs(es[i].key);
      c.Add(es[i].key, es[i].value, es[i].comments);
      i := i + 1;
    }
  }

  method ParseConfigData(data: string) returns (cf: DotConfigFile)
    ensures cf.Valid() && fresh(cf) && fresh(cf.objs) && cf.View() == ReadText(data)
  {
    cf := new DotConfigFile();
    var rest := data;
    while rest != ""
      invariant cf.Valid() && fresh(cf) && fresh(cf.objs)
      invariant ReadLines(cf.View(), Scan(rest)) == ReadText(data)
      decreases |rest|
    {
      var n := LineLen(rest);
      if n >= MaxLine {
        break;
      }
      ghost var more := Scan(rest)[1..];
      cf.ParseLine(StripCr(rest[..n]));
      rest := if n < |rest| then rest[n + 1..] else "";
      assert Scan(rest) == more;
    }
  }

  // Files that share no object.

  datatype Op = SetOp(key: string, value: string) | UnsetOp(key: string) | ModToYesOp | ModToNoOp | LineOp(text: string)

  function ApplyOp(s: Store, op: Op): Store {
    match op
    case SetOp(k, v) => SetKey(s, k, v)
    case UnsetOp(k) => UnsetKey(s, k)
    case ModToYesOp => s.(entries := Replace(s.entries, Mod, Yes))
    case ModToNoOp => s.(entries := Replace(s.entries, Mod, No))
    case LineOp(text) => ReadLine(s, text)
  }

  /** What the operations of one side make of the contents: `ours` tells which are its own. */
  function ApplyOwn(s: Store, ops: seq<(bool, Op)>, ours: bool): Store {
    if ops == [] then s
    else
      var n := |ops| - 1;
      var t := ApplyOwn(s, ops[..n], ours);
      if ops[n].0 == ours then ApplyOp(t, ops[n].1) else t
  }

  method Do(cf: DotConfigFile, op: Op)
    requires cf.Valid()
    modifies cf, cf.objs
    ensures cf.Valid() && cf.View() == ApplyOp(old(cf.View()), op) && fresh(cf.objs - old(cf.objs))
  {
    match op
    case SetOp(k, v) => cf.Set(k, v);
    case UnsetOp(k) => cf.Unset(k);
    case ModToYesOp => cf.ModToYes();
    case ModToNoOp => cf.ModToNo();
    case LineOp(text) => cf.ParseLine(text);
  }

  /** An operation on one file leaves another one alone. */
  method DoBeside(a: DotConfigFile, b: DotConfigFile, op: Op)
    requires a.Valid() && b.Valid() && a != b && a.objs !! b.objs
    modifies a, a.objs
    ensures a.Valid() && a.View() == ApplyOp(old(a.View()), op) && fresh(a.objs - old(a.objs))
    ensures b.Valid() && b.View() == old(b.View()) && b.objs == old(b.objs) && a.objs !! b.objs
  {
    Do(a, op);
  }

  lemma OwnStep(s: Store, ops: seq<(bool, Op)>, i: nat, ours: bool)
    requires i < |ops|
    ensures ApplyOwn(s, ops[..i + 1], ours) ==
            if ops[i].0 == ours then ApplyOp(ApplyOwn(s, ops[..i], ours), ops[i].1) else ApplyOwn(s, ops[..i], ours)
  {
    assert ops[..i + 1][..i] == ops[..i];
  }

  /** Two files without a common object: whatever is done to them, in whatever order, each
      one's contents are what its own operations make of them. */
  method Interleave(a: DotConfigFile, b: DotConfigFile, ops: seq<(bool, Op)>)
    requires a.Valid() && b.Valid() && a != b && a.objs !! b.objs
    modifies a, a.objs, b, b.objs
    ensures a.Valid() && b.Valid() && a.objs !! b.objs
    ensures a.View() == ApplyOwn(old(a.View()), ops, true) && b.View() == ApplyOwn(old(b.View()), ops, false)
  {
    ghost var s, t := a.View(), b.View();
    var i := 0;
    while i < |ops|
      invariant 0 <= i <= |ops|
      invariant a.Valid() && b.Valid() && a.objs !! b.objs
      invariant fresh(a.objs - old(a.objs)) && fresh(b.objs - old(b.objs))
      invariant a.View() == ApplyOwn(s, ops[..i], true) && b.View() == ApplyOwn(t, ops[..i], false)
    {
      OwnStep(s, ops, i, true);
      OwnStep(t, ops, i, false);
      if ops[i].0 {
        DoBeside(a, b, ops[i].1);
      } else {
        DoBeside(b, a, ops[i].1);
      }
      i := i + 1;
    }
    assert ops[..i] == ops;
  }

  /** A clone and its original change independently from then on. */
  method CloneIsIndependent(cf: DotConfigFile, ops: seq<(bool, Op)>) returns (c: DotConfigFile)
    requires cf.Valid()
    modifies cf, cf.objs
    ensures cf.Valid() && cf.View() == ApplyOwn(old(cf.View()), ops, true)
    ensures c.Valid() && c.View() == ApplyOwn(old(cf.View()), ops, false)
  {
    c := cf.Clone();
    Interleave(cf, c, ops);
  }
}
