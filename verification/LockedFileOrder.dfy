/** Many callers of Read, Write and Transform on one file, each going through its
    system calls in small steps under a reader/writer lock
    (internal/lockedfile/lockedfile.go, internal/lockedfile/lockedfile_filelock.go).
    No call fails here; what failures do is the subject of LockedFile. */
module LockedFileOrder {
  import opened Options
  import opened LockedFile

  datatype Op = ReadOp | WriteOp(data: seq<Byte>) | TransformOp(t: seq<Byte> -> Option<seq<Byte>>)

  /** Where a caller stands. `at` is its place in the order of lock acquisitions. */
  datatype Pc =
    | Idle
    | Missing
    | Opened
    | Emptying(at: nat)
    | Writing(at: nat, k: nat)
    | Reading(at: nat, got: seq<Byte>)
    | Tail(at: nat, got: seq<Byte>, next: seq<Byte>, k: nat)
    | Head(at: nat, got: seq<Byte>, next: seq<Byte>, k: nat)
    | Shrink(at: nat, got: seq<Byte>, next: seq<Byte>)
    | Closing(at: nat, got: seq<Byte>)
    | Closed(at: nat, got: seq<Byte>)

  predicate Waiting(pc: Pc) { pc.Idle? || pc.Missing? || pc.Opened? }

  predicate Holding(pc: Pc) { !Waiting(pc) && !pc.Closed? }

  datatype Sys = Sys(start: seq<Byte>, file: Option<seq<Byte>>, ops: seq<Op>, pcs: seq<Pc>, order: seq<nat>)

  function Content(file: Option<seq<Byte>>): seq<Byte> { if file.Some? then file.value else [] }

  // One operation at a time.

  function ApplyOp(op: Op, c: seq<Byte>): seq<Byte> {
    match op
    case ReadOp => c
    case WriteOp(data) => data
    case TransformOp(t) => var r := t(c); if r.Some? then r.value else c
  }

  /** The content after the first k operations, in lock order. */
  function After(start: seq<Byte>, ops: seq<Op>, order: seq<nat>, k: nat): seq<Byte>
    requires k <= |order| && forall j | 0 <= j < |order| :: order[j] < |ops|
  {
    if k == 0 then start else ApplyOp(ops[order[k - 1]], After(start, ops, order, k - 1))
  }

  lemma {:induction false} AfterPrefix(start: seq<Byte>, ops: seq<Op>, order: seq<nat>, i: nat, k: nat)
    requires k <= |order| && i < |ops| && forall j | 0 <= j < |order| :: order[j] < |ops|
    ensures After(start, ops, order + [i], k) == After(start, ops, order, k)
    decreases k
  {
    if k > 0 { AfterPrefix(start, ops, order, i, k - 1); }
  }

  // The steps.

  datatype Step = Open(i: nat) | Lock(i: nat) | Chunk(i: nat, n: nat) | Advance(i: nat) | Unlock(i: nat)

  predicate Exclusive(op: Op) { !op.ReadOp? }

  predicate Shaped(s: Sys) { |s.pcs| == |s.ops| && forall j | 0 <= j < |s.order| :: s.order[j] < |s.ops| }

  /** The lock is free for i. */
  predicate Grantable(s: Sys, i: nat)
    requires Shaped(s) && i < |s.ops|
  {
    forall j | 0 <= j < |s.pcs| && j != i && Holding(s.pcs[j]) :: !Exclusive(s.ops[i]) && !Exclusive(s.ops[j])
  }

  /** What is left to write for a caller, and the bytes it goes to. */
  function Rest(op: Op, pc: Pc): seq<Byte> {
    match pc
    case Writing(_, k) => if op.WriteOp? && k <= |op.data| then op.data[k..] else []
    case Tail(_, _, next, k) => if k <= |next| then next[k..] else []
    case Head(_, got, next, k) => if k <= HeadLength(got, next) then next[k..HeadLength(got, next)] else []
    case _ => []
  }

  predicate Enabled(s: Sys, st: Step)
    requires Shaped(s)
  {
    st.i < |s.ops| &&
    var pc, op := s.pcs[st.i], s.ops[st.i];
    match st
    case Open(_) => pc.Idle?
    case Lock(_) => pc.Opened? && Grantable(s, st.i)
    case Chunk(_, n) =>
      if pc.Reading? then 0 < n <= |Content(s.file)| - |pc.got|
      else 0 < n <= |Rest(op, pc)|
    case Advance(_) =>
      (match pc
       case Emptying(_) => true
       case Reading(_, got) => |got| >= |Content(s.file)|
       case Writing(_, _) => Rest(op, pc) == []
       case Tail(_, _, _, _) => Rest(op, pc) == []
       case Head(_, _, _, _) => Rest(op, pc) == []
       case Shrink(_, _, _) => true
       case _ => false)
    case Unlock(_) => pc.Closing?
  }

  /** After the read: the content to write, if the function gives one. */
  function AfterRead(op: Op, at: nat, got: seq<Byte>): Pc {
    if !op.TransformOp? then Closing(at, got)
    else
      var r := op.t(got);
      if r.None? then Closing(at, got)
      else if |r.value| > |got| then Tail(at, got, r.value, |got|)
      else Head(at, got, r.value, 0)
  }

  function Moved(s: Sys, st: Step): (Option<seq<Byte>>, Pc)
    requires Shaped(s) && Enabled(s, st)
  {
    var pc, op, c := s.pcs[st.i], s.ops[st.i], Content(s.file);
    match st
    case Open(_) =>
      if s.file.Some? then (s.file, Opened)
      else if op.ReadOp? then (None, Missing)
      else (Some([]), Opened)
    case Lock(_) => (s.file, if op.WriteOp? then Emptying(|s.order|) else Reading(|s.order|, []))
    case Chunk(_, n) =>
      (match pc
       case Reading(at, got) => (s.file, Reading(at, got + c[|got|..|got| + n]))
       case Writing(at, k) => (Some(Over(c, Rest(op, pc), k, n)), Writing(at, k + n))
       case Tail(at, got, next, k) => (Some(Over(c, Rest(op, pc), k, n)), Tail(at, got, next, k + n))
       case Head(at, got, next, k) => (Some(Over(c, Rest(op, pc), k, n)), Head(at, got, next, k + n))
       case _ => (s.file, pc))
    case Advance(_) =>
      (match pc
       case Emptying(at) => (Some(Resize(c, 0)), Writing(at, 0))
       case Reading(at, got) => (s.file, AfterRead(op, at, got))
       case Writing(at, _) => (s.file, Closing(at, []))
       case Tail(at, got, next, _) => (s.file, Head(at, got, next, 0))
       case Head(at, got, next, _) =>
         (s.file, if |next| < |got| then Shrink(at, got, next) else Closing(at, got))
       case Shrink(at, got, next) => (Some(Resize(c, |next|)), Closing(at, got))
       case _ => (s.file, pc))
    case Unlock(_) => (s.file, Closed(pc.at, pc.got))
  }

  function Next(s: Sys, st: Step): Sys
    requires Shaped(s) && Enabled(s, st)
  {
    var (file, pc) := Moved(s, st);
    Sys(s.start, file, s.ops, s.pcs[st.i := pc], if st.Lock? then s.order + [st.i] else s.order)
  }

  // What every run keeps.

  function Base(s: Sys, k: nat): seq<Byte>
    requires Shaped(s) && k <= |s.order|
  {
    After(s.start, s.ops, s.order, k)
  }

  /** The lock order lists exactly the callers that got the lock, each once. */
  ghost predicate Placed(s: Sys)
    requires Shaped(s)
  {
    && (forall i | 0 <= i < |s.pcs| && !Waiting(s.pcs[i]) :: s.pcs[i].at < |s.order| && s.order[s.pcs[i].at] == i)
    && (forall j | 0 <= j < |s.order| :: !Waiting(s.pcs[s.order[j]]) && s.pcs[s.order[j]].at == j)
  }

  ghost predicate Excluded(s: Sys)
    requires Shaped(s)
  {
    forall i, j | 0 <= i < |s.pcs| && 0 <= j < |s.pcs| && i != j && Holding(s.pcs[i]) && Holding(s.pcs[j]) ::
      !Exclusive(s.ops[i])
  }

  /** Writers and readers at work, told by the content they found. */
  predicate Doing(op: Op, pc: Pc, base: seq<Byte>, c: seq<Byte>) {
    match pc
    case Emptying(_) => op.WriteOp? && c == base
    case Writing(_, k) => op.WriteOp? && k <= |op.data| && c == op.data[..k]
    case Reading(_, got) => !op.WriteOp? && c == base && got <= c
    case Tail(_, got, next, k) =>
      op.TransformOp? && got == base && op.t(got) == Some(next) && |got| <= k <= |next| && c == Grown(got, next, k)
    case Head(_, got, next, k) =>
      && op.TransformOp? && got == base && op.t(got) == Some(next)
      && k <= HeadLength(got, next) && c == Mixed(got, next, k)
    case Shrink(_, got, next) =>
      && op.TransformOp? && got == base && op.t(got) == Some(next)
      && |next| < |got| && c == Mixed(got, next, |next|)
    case Closing(_, got) => c == ApplyOp(op, base) && (!op.WriteOp? ==> got == base)
    case _ => true
  }

  function Grown(got: seq<Byte>, next: seq<Byte>, k: nat): seq<Byte>
    requires |got| <= k <= |next|
  {
    got + next[|got|..k]
  }

  /** A caller holding the lock is at work on what the operations before it made;
      what one that is through took for the content is what they made. */
  ghost predicate AtWork(s: Sys, i: nat)
    requires Shaped(s) && Placed(s) && i < |s.pcs|
  {
    && (Holding(s.pcs[i]) ==> Doing(s.ops[i], s.pcs[i], Base(s, s.pcs[i].at), Content(s.file)))
    && (s.pcs[i].Closed? && !s.ops[i].WriteOp? ==> s.pcs[i].got == Base(s, s.pcs[i].at))
  }

  ghost predicate Working(s: Sys)
    requires Shaped(s) && Placed(s)
  {
    forall i | 0 <= i < |s.pcs| :: AtWork(s, i)
  }

  ghost predicate WriterLast(s: Sys)
    requires Shaped(s) && Placed(s)
  {
    forall i | 0 <= i < |s.pcs| && Holding(s.pcs[i]) && Exclusive(s.ops[i]) :: s.pcs[i].at == |s.order| - 1
  }

  predicate WriterIn(s: Sys)
    requires Shaped(s)
  {
    exists i | 0 <= i < |s.pcs| :: Holding(s.pcs[i]) && Exclusive(s.ops[i])
  }

  ghost predicate Inv(s: Sys) {
    && Shaped(s)
    && Placed(s)
    && Excluded(s)
    && Working(s)
    && WriterLast(s)
    && (!WriterIn(s) ==> Content(s.file) == Base(s, |s.order|))
    && (s.order != [] ==> s.file.Some?)
    && (forall i | 0 <= i < |s.pcs| && s.pcs[i].Opened? :: s.file.Some?)
  }

  // One step at a time.

  lemma OverEnd(c: seq<Byte>, data: seq<Byte>, n: nat)
    requires n <= |data|
    ensures Over(c, data, |c|, n) == c + data[..n]
  {
  }

  lemma WriteChunk(data: seq<Byte>, k: nat, n: nat)
    requires k + n <= |data|
    ensures Over(data[..k], data[k..], k, n) == data[..k + n]
  {
    OverEnd(data[..k], data[k..], n);
  }

  lemma TailChunk(got: seq<Byte>, next: seq<Byte>, k: nat, n: nat)
    requires |got| <= k && k + n <= |next|
    ensures Over(Grown(got, next, k), next[k..], k, n) == Grown(got, next, k + n)
  {
    OverEnd(Grown(got, next, k), next[k..], n);
    assert next[|got|..k] + next[k..][..n] == next[|got|..k + n];
  }

  lemma HeadChunk(got: seq<Byte>, next: seq<Byte>, k: nat, n: nat)
    requires k + n <= HeadLength(got, next)
    ensures Over(Mixed(got, next, k), next[k..HeadLength(got, next)], k, n) == Mixed(got, next, k + n)
  {
    var c, l := Mixed(got, next, k), HeadLength(got, next);
    var more := if |next| > |got| then next[|got|..] else [];
    assert c[..k] == next[..k];
    assert next[..k] + next[k..l][..n] == next[..k + n];
    assert c[k + n..] == got[k + n..] + more;
  }

  lemma WritingChunk(op: Op, at: nat, k: nat, base: seq<Byte>, c: seq<Byte>, n: nat)
    requires Doing(op, Writing(at, k), base, c) && 0 < n <= |Rest(op, Writing(at, k))|
    ensures Doing(op, Writing(at, k + n), base, Over(c, Rest(op, Writing(at, k)), k, n))
  {
    WriteChunk(op.data, k, n);
  }

  lemma DoingChunk(op: Op, pc: Pc, base: seq<Byte>, c: seq<Byte>, n: nat)
    requires Doing(op, pc, base, c) && (pc.Writing? || pc.Tail? || pc.Head?) && 0 < n <= |Rest(op, pc)|
    ensures Doing(op, pc.(k := pc.k + n), base, Over(c, Rest(op, pc), pc.k, n))
  {
    if pc.Writing? {
      WritingChunk(op, pc.at, pc.k, base, c, n);
    } else if pc.Tail? {
      TailChunk(pc.got, pc.next, pc.k, n);
    } else {
      HeadChunk(pc.got, pc.next, pc.k, n);
    }
  }

  /** What a step of the holder of the lock may do. */
  ghost predicate Fine(s: Sys, i: nat, base: seq<Byte>, file: Option<seq<Byte>>, pc: Pc)
    requires Shaped(s) && i < |s.ops| && Holding(s.pcs[i])
  {
    && Doing(s.ops[i], pc, base, Content(file))
    && Holding(pc) && pc.at == s.pcs[i].at
    && (!Exclusive(s.ops[i]) ==> file == s.file)
    && file.Some?
  }

  lemma ReadEnds(s: Sys, i: nat, base: seq<Byte>, at: nat, got: seq<Byte>)
    requires Shaped(s) && i < |s.ops| && s.pcs[i] == Reading(at, got) && s.file.Some?
    requires Doing(s.ops[i], s.pcs[i], base, Content(s.file)) && |got| >= |Content(s.file)|
    ensures Fine(s, i, base, s.file, AfterRead(s.ops[i], at, got))
  {
    if s.ops[i].TransformOp? {
      var r := s.ops[i].t(got);
      if r.Some? {
        MixedEnds(got, r.value);
      }
    }
  }

  lemma RewriteAdvances(s: Sys, st: Step, base: seq<Byte>)
    requires Shaped(s) && st.Advance? && Enabled(s, st) && s.file.Some?
    requires s.pcs[st.i].Tail? || s.pcs[st.i].Head? || s.pcs[st.i].Shrink?
    requires Doing(s.ops[st.i], s.pcs[st.i], base, Content(s.file))
    ensures var (file, pc) := Moved(s, st); Fine(s, st.i, base, file, pc)
  {
    var pc := s.pcs[st.i];
    MixedEnds(pc.got, pc.next);
  }

  lemma DoingAdvance(s: Sys, st: Step, base: seq<Byte>)
    requires Shaped(s) && st.Advance? && Enabled(s, st) && s.file.Some?
    requires Doing(s.ops[st.i], s.pcs[st.i], base, Content(s.file))
    ensures Holding(s.pcs[st.i])
    ensures var (file, pc) := Moved(s, st); Fine(s, st.i, base, file, pc)
  {
    var pc := s.pcs[st.i];
    if pc.Reading? {
      ReadEnds(s, st.i, base, pc.at, pc.got);
    } else if pc.Tail? || pc.Head? || pc.Shrink? {
      RewriteAdvances(s, st, base);
    }
  }

  lemma ReadChunk(s: Sys, st: Step, base: seq<Byte>)
    requires Shaped(s) && st.Chunk? && Enabled(s, st) && s.pcs[st.i].Reading? && s.file.Some?
    requires Doing(s.ops[st.i], s.pcs[st.i], base, Content(s.file))
    ensures var (file, pc) := Moved(s, st); Fine(s, st.i, base, file, pc)
  {
    var got, c := s.pcs[st.i].got, Content(s.file);
    assert got + c[|got|..|got| + st.n] == c[..|got| + st.n];
  }

  lemma WritesChunk(s: Sys, st: Step, base: seq<Byte>)
    requires Shaped(s) && st.Chunk? && Enabled(s, st) && !s.pcs[st.i].Reading? && s.file.Some?
    requires Doing(s.ops[st.i], s.pcs[st.i], base, Content(s.file))
    ensures Holding(s.pcs[st.i])
    ensures var (file, pc) := Moved(s, st); Fine(s, st.i, base, file, pc)
  {
    DoingChunk(s.ops[st.i], s.pcs[st.i], base, Content(s.file), st.n);
  }

  lemma OthersMove(s: Sys, i: nat, pc: Pc, file: Option<seq<Byte>>, j: nat)
    requires Inv(s) && i < |s.pcs| && Holding(s.pcs[i]) && Fine(s, i, Base(s, s.pcs[i].at), file, pc) && j < |s.pcs|
    ensures var s' := s.(file := file, pcs := s.pcs[i := pc]); Placed(s') && AtWork(s', j)
  {
    StillPlaced(s, i, pc, file);
    assert AtWork(s, j);
    if j != i && Holding(s.pcs[j]) {
      assert !Exclusive(s.ops[i]);
    }
  }

  /** A caller that holds the lock moves on without giving it up. */
  lemma MovesOn(s: Sys, i: nat, pc: Pc, file: Option<seq<Byte>>)
    requires Inv(s) && i < |s.pcs| && Holding(s.pcs[i]) && Fine(s, i, Base(s, s.pcs[i].at), file, pc)
    ensures Inv(s.(file := file, pcs := s.pcs[i := pc]))
  {
    var s' := s.(file := file, pcs := s.pcs[i := pc]);
    StillPlaced(s, i, pc, file);
    SameWriters(s, i, pc, file);
    forall j: nat | j < |s'.pcs| ensures AtWork(s', j) { OthersMove(s, i, pc, file, j); }
    assert Base(s', |s.order|) == Base(s, |s.order|);
  }

  lemma OpenKeeps(s: Sys, st: Step)
    requires Inv(s) && Enabled(s, st) && st.Open?
    ensures Inv(Next(s, st))
  {
    var s' := Next(s, st);
    var i := st.i;
    assert s' == Sys(s.start, s'.file, s.ops, s.pcs[i := s'.pcs[i]], s.order);
    assert Waiting(s.pcs[i]) && Waiting(s'.pcs[i]) && Content(s'.file) == Content(s.file);
    WaitsOn(s, i, s'.pcs[i], s'.file);
  }

  lemma SameWriters(s: Sys, i: nat, pc: Pc, file: Option<seq<Byte>>)
    requires Shaped(s) && i < |s.pcs| && (Holding(s.pcs[i]) <==> Holding(pc))
    ensures WriterIn(s) <==> WriterIn(s.(file := file, pcs := s.pcs[i := pc]))
  {
    var s' := s.(file := file, pcs := s.pcs[i := pc]);
    if WriterIn(s) {
      var j :| 0 <= j < |s.pcs| && Holding(s.pcs[j]) && Exclusive(s.ops[j]);
      assert Holding(s'.pcs[j]);
    }
    if WriterIn(s') {
      var j :| 0 <= j < |s'.pcs| && Holding(s'.pcs[j]) && Exclusive(s'.ops[j]);
      assert Holding(s.pcs[j]);
    }
  }

  lemma StillPlaced(s: Sys, i: nat, pc: Pc, file: Option<seq<Byte>>)
    requires Shaped(s) && Placed(s) && i < |s.pcs| && (Waiting(s.pcs[i]) <==> Waiting(pc))
    requires !Waiting(pc) ==> pc.at == s.pcs[i].at
    ensures Placed(s.(file := file, pcs := s.pcs[i := pc]))
  {
  }

  lemma StillWorking(s: Sys, i: nat, pc: Pc, file: Option<seq<Byte>>)
    requires Shaped(s) && Placed(s) && Working(s) && i < |s.pcs|
    requires Waiting(s.pcs[i]) && Waiting(pc) && Content(file) == Content(s.file)
    ensures var s' := s.(file := file, pcs := s.pcs[i := pc]); Placed(s') && Working(s')
  {
    var s' := s.(file := file, pcs := s.pcs[i := pc]);
    StillPlaced(s, i, pc, file);
    forall j: nat | j < |s'.pcs| ensures AtWork(s', j) { assert AtWork(s, j); }
  }

  /** A caller without the lock changes nothing that the others see. */
  lemma WaitsOn(s: Sys, i: nat, pc: Pc, file: Option<seq<Byte>>)
    requires Inv(s) && i < |s.pcs| && Waiting(s.pcs[i]) && Waiting(pc) && Content(file) == Content(s.file)
    requires (s.file.Some? ==> file.Some?) && (pc.Opened? ==> file.Some?)
    ensures Inv(s.(file := file, pcs := s.pcs[i := pc]))
  {
    StillWorking(s, i, pc, file);
    SameWriters(s, i, pc, file);
  }

  lemma LockFinds(s: Sys, st: Step)
    requires Inv(s) && Enabled(s, st) && st.Lock?
    ensures !WriterIn(s) && Content(s.file) == Base(s, |s.order|)
    ensures Exclusive(s.ops[st.i]) ==> forall j | 0 <= j < |s.pcs| :: !Holding(s.pcs[j])
  {
  }

  lemma LockPlaces(s: Sys, i: nat, pc: Pc)
    requires Shaped(s) && Placed(s) && i < |s.pcs| && Waiting(s.pcs[i]) && !Waiting(pc) && pc.at == |s.order|
    ensures var s' := s.(pcs := s.pcs[i := pc], order := s.order + [i]); Shaped(s') && Placed(s')
  {
  }

  lemma SameBase(s: Sys, i: nat, pc: Pc, k: nat)
    requires Shaped(s) && i < |s.pcs| && k <= |s.order|
    ensures var s' := s.(pcs := s.pcs[i := pc], order := s.order + [i]); Shaped(s') && Base(s', k) == Base(s, k)
  {
    AfterPrefix(s.start, s.ops, s.order, i, k);
  }

  lemma LockWorks(s: Sys, i: nat, pc: Pc, j: nat)
    requires Shaped(s) && Placed(s) && Working(s) && i < |s.pcs| && Waiting(s.pcs[i]) && j < |s.pcs|
    requires Content(s.file) == Base(s, |s.order|)
    requires pc == if s.ops[i].WriteOp? then Emptying(|s.order|) else Reading(|s.order|, [])
    ensures var s' := s.(pcs := s.pcs[i := pc], order := s.order + [i]); Shaped(s') && Placed(s') && AtWork(s', j)
  {
    var s' := s.(pcs := s.pcs[i := pc], order := s.order + [i]);
    LockPlaces(s, i, pc);
    assert AtWork(s, j);
    if !Waiting(s'.pcs[j]) {
      SameBase(s, i, pc, s'.pcs[j].at);
    }
  }

  lemma LockKeeps(s: Sys, st: Step)
    requires Inv(s) && Enabled(s, st) && st.Lock?
    ensures Inv(Next(s, st))
    ensures Next(s, st).order == s.order + [st.i]
    ensures forall k: nat | k <= |s.order| :: Base(Next(s, st), k) == Base(s, k)
  {
    var s', pc := Next(s, st), Next(s, st).pcs[st.i];
    forall k: nat | k <= |s.order| ensures Base(s', k) == Base(s, k) { SameBase(s, st.i, pc, k); }
    LockFinds(s, st);
    assert s' == s.(pcs := s.pcs[st.i := pc], order := s.order + [st.i]);
    LockPlaces(s, st.i, pc);
    forall j: nat | j < |s'.pcs| ensures AtWork(s', j) { LockWorks(s, st.i, pc, j); }
    if Exclusive(s.ops[st.i]) {
      assert Holding(s'.pcs[st.i]);
      assert WriterIn(s');
    } else {
      SameBase(s, st.i, pc, |s.order|);
      assert Base(s', |s.order| + 1) == Base(s', |s.order|);
    }
  }

  lemma UnlockKeeps(s: Sys, st: Step)
    requires Inv(s) && Enabled(s, st) && st.Unlock?
    ensures Inv(Next(s, st))
    ensures Content(Next(s, st).file) == ApplyOp(s.ops[st.i], Base(s, s.pcs[st.i].at))
    ensures Exclusive(s.ops[st.i]) ==> s.pcs[st.i].at == |s.order| - 1
  {
    var s' := Next(s, st);
    assert AtWork(s, st.i);
    assert Placed(s');
    forall j: nat | j < |s'.pcs| ensures AtWork(s', j) { assert AtWork(s, j); }
    if Exclusive(s.ops[st.i]) {
      assert Content(s'.file) == Base(s', |s'.order|);
    } else {
      assert !WriterIn(s);
    }
  }

  lemma HeldStepKeeps(s: Sys, st: Step)
    requires Inv(s) && Enabled(s, st) && (st.Chunk? || st.Advance?)
    ensures Inv(Next(s, st))
  {
    var pc := s.pcs[st.i];
    assert AtWork(s, st.i);
    if st.Advance? {
      DoingAdvance(s, st, Base(s, pc.at));
    } else if pc.Reading? {
      ReadChunk(s, st, Base(s, pc.at));
    } else {
      WritesChunk(s, st, Base(s, pc.at));
    }
    var (file, pc') := Moved(s, st);
    MovesOn(s, st.i, pc', file);
  }

  /** Every step keeps the invariant. */
  lemma StepKeeps(s: Sys, st: Step)
    requires Inv(s) && Enabled(s, st)
    ensures Inv(Next(s, st))
  {
    match st
    case Open(_) => OpenKeeps(s, st);
    case Lock(_) => LockKeeps(s, st);
    case Unlock(_) => UnlockKeeps(s, st);
    case _ => HeldStepKeeps(s, st);
  }

  function Init(file: Option<seq<Byte>>, ops: seq<Op>): Sys {
    Sys(Content(file), file, ops, seq(|ops|, _ => Idle), [])
  }

  /** The state after a run of steps, each possible when it is taken. */
  ghost predicate Run(s: Sys, steps: seq<Step>, s': Sys)
    requires Shaped(s)
    decreases |steps|
  {
    if steps == [] then s' == s
    else
      var k := |steps| - 1;
      exists m: Sys :: Shaped(m) && Run(s, steps[..k], m) && Enabled(m, steps[k]) && s' == Next(m, steps[k])
  }

  lemma {:induction false} RunKeeps(s: Sys, steps: seq<Step>, s': Sys)
    requires Inv(s) && Run(s, steps, s')
    ensures Inv(s') && s'.start == s.start && s'.ops == s.ops
    decreases |steps|
  {
    if steps != [] {
      var k := |steps| - 1;
      var m: Sys :| Shaped(m) && Run(s, steps[..k], m) && Enabled(m, steps[k]) && s' == Next(m, steps[k]);
      RunKeeps(s, steps[..k], m);
      StepKeeps(m, steps[k]);
    }
  }

  lemma InitInv(file: Option<seq<Byte>>, ops: seq<Op>)
    ensures Inv(Init(file, ops))
  {
    var s := Init(file, ops);
    assert forall i | 0 <= i < |s.pcs| :: s.pcs[i] == Idle;
    assert !WriterIn(s);
  }

  // What that means for the callers.

  /** What the caller read, once it read all, is the outcome of the operations that
      locked the file before it. */
  ghost predicate ReadWhole(s: Sys, i: nat)
    requires Shaped(s) && Placed(s) && i < |s.pcs|
  {
    var pc := s.pcs[i];
    ((pc.Closing? || pc.Closed?) && !s.ops[i].WriteOp?) || pc.Tail? || pc.Head? || pc.Shrink? ==>
      pc.got == Base(s, pc.at)
  }

  lemma WorkReadsWhole(s: Sys, i: nat)
    requires Inv(s) && i < |s.pcs|
    ensures ReadWhole(s, i)
  {
    assert AtWork(s, i);
  }

  /** In any run: nobody reads a half-written file, and what the file holds when no
      writer is in is the outcome of all operations so far, one at a time, in lock
      order. Nothing is lost. */
  lemma Linearizable(file: Option<seq<Byte>>, ops: seq<Op>, steps: seq<Step>, s: Sys)
    requires Run(Init(file, ops), steps, s)
    ensures s.ops == ops && s.start == Content(file) && Shaped(s) && Placed(s)
    ensures forall i: nat | i < |ops| :: ReadWhole(s, i)
    ensures !WriterIn(s) ==> Content(s.file) == Base(s, |s.order|)
  {
    InitInv(file, ops);
    RunKeeps(Init(file, ops), steps, s);
    forall i: nat | i < |ops| ensures ReadWhole(s, i) { WorkReadsWhole(s, i); }
  }

  /** When everybody is through, each operation that found a file took effect once. */
  lemma AllTookEffect(file: Option<seq<Byte>>, ops: seq<Op>, steps: seq<Step>, s: Sys)
    requires Run(Init(file, ops), steps, s)
    requires |s.pcs| == |ops| && forall i | 0 <= i < |ops| :: s.pcs[i].Closed? || s.pcs[i].Missing?
    ensures s.start == Content(file) && s.ops == ops && Shaped(s) && Content(s.file) == Base(s, |s.order|)
    ensures forall i: nat | i < |ops| :: i in s.order <==> s.pcs[i].Closed?
    ensures forall j, k | 0 <= j < k < |s.order| :: s.order[j] != s.order[k]
  {
    Linearizable(file, ops, steps, s);
    forall i: nat | i < |ops| ensures i in s.order <==> s.pcs[i].Closed? {
      if s.pcs[i].Closed? {
        assert s.order[s.pcs[i].at] == i;
      }
    }
  }

  /** A Read that finds no file comes before every operation that locks it. */
  lemma MissingIsFirst(s: Sys, st: Step)
    requires Inv(s) && Enabled(s, st) && Next(s, st).pcs[st.i].Missing? && s.pcs[st.i].Idle?
    ensures st.Open? && s.ops[st.i].ReadOp? && s.order == [] && s.file == None
  {
  }

  /** A caller that is done and lets go of the lock leaves what its operation is for: a Read
      has the whole file, a Write its data, a Transform what its function makes of what it
      read, or the file as it was. */
  lemma LeavesExactly(s: Sys, i: nat)
    requires Inv(s) && i < |s.ops| && s.pcs[i].Closing?
    ensures match s.ops[i]
            case ReadOp => s.pcs[i].got == Content(s.file)
            case WriteOp(data) => Content(s.file) == data
            case TransformOp(t) =>
              Content(s.file) == if t(s.pcs[i].got).Some? then t(s.pcs[i].got).value else s.pcs[i].got
  {
    assert AtWork(s, i);
  }

  // Nobody waits forever.

  lemma HolderMoves(s: Sys, i: nat) returns (st: Step)
    requires Inv(s) && i < |s.ops| && Holding(s.pcs[i])
    ensures st.i == i && Enabled(s, st)
  {
    assert AtWork(s, i);
    var pc := s.pcs[i];
    if pc.Closing? {
      st := Unlock(i);
    } else {
      var left: nat := if !pc.Reading? then |Rest(s.ops[i], pc)| else |Content(s.file)| - |pc.got|;
      st := if left > 0 then Chunk(i, left) else Advance(i);
    }
  }

  /** Until all callers are through, one of them can go on. */
  lemma SomebodyMoves(s: Sys, i: nat) returns (st: Step)
    requires Inv(s) && i < |s.ops| && !s.pcs[i].Closed? && !s.pcs[i].Missing?
    ensures Enabled(s, st)
  {
    if j :| 0 <= j < |s.pcs| && Holding(s.pcs[j]) {
      st := HolderMoves(s, j);
    } else {
      st := if s.pcs[i].Idle? then Open(i) else Lock(i);
    }
  }
}
