/** Any number of processes that lock files through FileLock, over one kernel
    whose locks belong to (process, inode) pairs; all interleavings of the atomic
    steps of all calls. */
module FileLockSystem {
  import opened Options
  import opened FileLock

  type Proc = nat

  /** `leaked` remembers for which pairs the kernel refused an F_UNLCK. */
  datatype Sys = Sys(mgrs: map<Proc, Mgr>, kernel: map<(Proc, Inode), LockType>, leaked: set<(Proc, Inode)>)

  const Boot := Sys(map[], map[], {})

  function At(s: Sys, p: Proc): Mgr { if p in s.mgrs then s.mgrs[p] else NewMgr }

  function Pc(s: Sys, p: Proc, f: File): Pc { PcOf(At(s, p), f) }

  datatype Step =
    | Enter(p: Proc, f: File, ino: Inode, lt: LockType)  // first critical section of lock
    | Send(p: Proc, f: File)                             // reaches the channel send
    | Grant(p: Proc, f: File)                            // F_SETLKW succeeds
    | Deadlk(p: Proc, f: File)                           // F_SETLKW says EDEADLK: sleep, retry
    | Refuse(p: Proc, f: File)                           // F_SETLKW fails otherwise
    | Check(p: Proc, f: File)                            // first critical section of unlock
    | Unlck(p: Proc, f: File, ok: bool)                  // F_UNLCK
    | Begin(p: Proc, f: File)                            // last critical section of unlock
    | Receive(p: Proc, f: File)                          // the rendezvous that ends it

  /** No other process holds a lock that excludes this one. */
  ghost predicate Grantable(s: Sys, p: Proc, i: Inode, lt: LockType) {
    forall q: Proc | q != p && (q, i) in s.kernel :: lt == ReadLock && s.kernel[(q, i)] == ReadLock
  }

  /** The file of the thread that sends on the channel `f` receives from. */
  predicate SenderReady(m: Mgr, f: File) {
    PcOf(m, f).Receiving? && PcOf(m, f).ch in m.makers &&
    var g := m.makers[PcOf(m, f).ch];
    PcOf(m, g).Sending? && PcOf(m, g).ch == PcOf(m, f).ch
  }

  /** `f` has an inode recorded. */
  predicate Known(m: Mgr, f: File) { f in m.tab.inodes }

  /** One call per file is in flight, critical sections need the mutex, and a
      holder of the lock is who calls unlock. */
  ghost predicate Enabled(s: Sys, st: Step) {
    var m := At(s, st.p);
    var pc := PcOf(m, st.f);
    match st
    case Enter(_, _, _, _) => m.mu.None? && (pc.Idle? || pc.Held?)
    case Send(_, _) => pc.Committed?
    case Grant(p, f) => pc.Acquiring? && Known(m, f) && Grantable(s, p, m.tab.inodes[f], pc.lt)
    case Deadlk(_, _) => pc.Acquiring?
    case Refuse(_, _) => pc.Acquiring?
    case Check(_, f) => m.mu.None? && (pc.Held? || pc.Failing?) && Owns(m.tab, f)
    case Unlck(_, f, _) => pc.Releasing? && Known(m, f)
    case Begin(_, f) => m.mu.None? && pc.Released? && Known(m, f)
    case Receive(_, f) => SenderReady(m, f) && Known(m, f) && Lookup(m.tab, m.tab.inodes[f]).queue != []
  }

  function WithMgr(s: Sys, p: Proc, m: Mgr): Sys { s.(mgrs := s.mgrs[p := m]) }

  ghost function Apply(s: Sys, st: Step): Sys
    requires Enabled(s, st)
  {
    var m := At(s, st.p);
    var pc := PcOf(m, st.f);
    match st
    case Enter(p, f, ino, lt) => WithMgr(s, p, LockEnter(m, f, ino, lt))
    case Send(p, f) => WithMgr(s, p, Goto(m, f, Sending(pc.ch, pc.lt)))
    case Grant(p, f) =>
      WithMgr(s, p, Goto(m, f, Held(pc.lt))).(kernel := s.kernel[(p, m.tab.inodes[f]) := pc.lt])
    case Deadlk(_, _) => s
    case Refuse(p, f) => WithMgr(s, p, Goto(m, f, Failing))
    case Check(p, f) => WithMgr(s, p, Goto(m, f, Releasing))
    case Unlck(p, f, ok) =>
      var n := WithMgr(s, p, Goto(m, f, Released));
      var key := (p, m.tab.inodes[f]);
      if ok then n.(kernel := s.kernel - {key}, leaked := s.leaked - {key})
      else n.(leaked := s.leaked + {key})
    case Begin(p, f) =>
      WithMgr(s, p, if Lookup(m.tab, m.tab.inodes[f]).queue == [] then Forget(m, f) else StartReceive(m, f))
    case Receive(p, f) =>
      var g := m.makers[pc.ch];
      WithMgr(s, p, HandOff(m, f, g, PcOf(m, g).lt))
  }

  ghost predicate Run(s: Sys, steps: seq<Step>, t: Sys)
    decreases |steps|
  {
    if steps == [] then s == t
    else Enabled(s, steps[0]) && Run(Apply(s, steps[0]), steps[1..], t)
  }

  // The invariant.

  /** The owner is between taking and giving up the kernel lock. */
  predicate InKernel(pc: Pc) { pc.Acquiring? || pc.Failing? || pc.Held? || pc.Releasing? }

  ghost predicate MgrsOk(s: Sys) { forall p: Proc :: MgrOk(At(s, p)) }

  /** Whoever was told that it holds the lock has the kernel lock of that type. */
  ghost predicate HoldersLocked(s: Sys) {
    forall p: Proc, f: File | Pc(s, p, f).Held? ::
      Known(At(s, p), f) && (p, At(s, p).tab.inodes[f]) in s.kernel &&
      s.kernel[(p, At(s, p).tab.inodes[f])] == Pc(s, p, f).lt
  }

  ghost predicate Compatible(s: Sys) {
    forall p: Proc, q: Proc, i: Inode | p != q && (p, i) in s.kernel && (q, i) in s.kernel ::
      s.kernel[(p, i)] == ReadLock && s.kernel[(q, i)] == ReadLock
  }

  /** A process has the kernel lock only for an owner that has not given it up,
      unless the kernel itself refused to release it. */
  ghost predicate NoStray(s: Sys) {
    forall p: Proc, i: Inode | (p, i) in s.kernel ::
      (p, i) in s.leaked ||
      (i in At(s, p).tab.locks && At(s, p).tab.locks[i].owner.Some? &&
       InKernel(Pc(s, p, At(s, p).tab.locks[i].owner.value)))
  }

  ghost predicate Inv(s: Sys) { MgrsOk(s) && HoldersLocked(s) && Compatible(s) && NoStray(s) }

  lemma BootOk()
    ensures Inv(Boot)
  {
    assert MgrOk(NewMgr);
  }

  /** The bookkeeping of the stepping process stays in order. */
  lemma StepMgrOk(s: Sys, st: Step)
    requires MgrsOk(s) && Enabled(s, st)
    ensures MgrOk(At(Apply(s, st), st.p))
  {
    var m := At(s, st.p);
    match st
    case Enter(p, f, ino, lt) => LockEnterKeeps(m, f, ino, lt);
    case Send(p, f) => StartSendKeeps(m, f);
    case Grant(p, f) => GotoOwnerKeeps(m, f, Held(PcOf(m, f).lt));
    case Deadlk(_, _) =>
    case Refuse(p, f) => GotoOwnerKeeps(m, f, Failing);
    case Check(p, f) => GotoOwnerKeeps(m, f, Releasing);
    case Unlck(p, f, ok) => GotoOwnerKeeps(m, f, Released);
    case Begin(p, f) =>
      if Lookup(m.tab, m.tab.inodes[f]).queue == [] { ForgetKeeps(m, f); } else { StartReceiveKeeps(m, f); }
    case Receive(p, f) => HandOffKeeps(m, f, m.makers[PcOf(m, f).ch]);
  }

  lemma StepMgrsOk(s: Sys, st: Step)
    requires MgrsOk(s) && Enabled(s, st)
    ensures MgrsOk(Apply(s, st))
  {
    var t := Apply(s, st);
    StepMgrOk(s, st);
    forall p: Proc ensures MgrOk(At(t, p)) {
      if p != st.p { assert At(t, p) == At(s, p); }
    }
  }

  /** Two files of a process that own an inode own different ones. */
  lemma OwnersDiffer(m: Mgr, f: File, g: File)
    requires MgrOk(m) && f != g && Owning(PcOf(m, f)) && Owning(PcOf(m, g))
    ensures Known(m, f) && Known(m, g) && m.tab.inodes[f] != m.tab.inodes[g]
  {
    assert FileOk(m, f) && FileOk(m, g);
  }

  lemma StepFrameHere(s: Sys, st: Step, h: File)
    requires MgrsOk(s) && Enabled(s, st) && h != st.f
    ensures var was, now := At(s, st.p), At(Apply(s, st), st.p);
            && (PcOf(now, h) == PcOf(was, h) ||
                (st.Receive? && PcOf(was, h).Sending? && PcOf(now, h) == Acquiring(PcOf(was, h).lt)))
            && (Known(now, h) <==> Known(was, h))
            && (Known(was, h) ==> now.tab.inodes[h] == was.tab.inodes[h])
  {
  }

  /** A step changes the counter and inode of its own file, and a hand-off those
      of the next owner; every other file of every process is as it was. */
  lemma StepFrame(s: Sys, st: Step, q: Proc, h: File)
    requires MgrsOk(s) && Enabled(s, st)
    requires q != st.p || h != st.f
    ensures var t := Apply(s, st);
            && (Pc(t, q, h) == Pc(s, q, h) ||
                (st.Receive? && Pc(s, q, h).Sending? && Pc(t, q, h) == Acquiring(Pc(s, q, h).lt)))
            && (Known(At(t, q), h) <==> Known(At(s, q), h))
            && (Known(At(s, q), h) ==> At(t, q).tab.inodes[h] == At(s, q).tab.inodes[h])
  {
    if q == st.p {
      StepFrameHere(s, st, h);
    }
  }

  lemma StepHolders(s: Sys, st: Step)
    requires Inv(s) && Enabled(s, st)
    ensures HoldersLocked(Apply(s, st))
  {
    var t := Apply(s, st);
    var m := At(s, st.p);
    forall q: Proc, h: File | Pc(t, q, h).Held?
      ensures Known(At(t, q), h) && (q, At(t, q).tab.inodes[h]) in t.kernel &&
              t.kernel[(q, At(t, q).tab.inodes[h])] == Pc(t, q, h).lt
    {
      if q != st.p || h != st.f {
        StepFrame(s, st, q, h);
        assert Pc(s, q, h).Held?;
        if q == st.p && (st.Grant? || st.Unlck?) {
          OwnersDiffer(m, st.f, h);
        }
      } else {
        assert FileOk(m, h);
        assert st.Grant? || t == s || (st.Enter? && At(t, q) == m);
      }
    }
  }

  lemma StepCompatible(s: Sys, st: Step)
    requires Inv(s) && Enabled(s, st)
    ensures Compatible(Apply(s, st))
  {
    var t := Apply(s, st);
    if st.Grant? {
      var i := At(s, st.p).tab.inodes[st.f];
      assert Grantable(s, st.p, i, Pc(s, st.p, st.f).lt);
    } else {
      assert forall key | key in t.kernel :: key in s.kernel && t.kernel[key] == s.kernel[key];
    }
  }

  /** The owner of an entry changes only when the entry is dropped or handed on. */
  lemma StepOwner(s: Sys, st: Step, q: Proc, i: Inode)
    requires MgrsOk(s) && Enabled(s, st) && i in At(s, q).tab.locks
    ensures var t := Apply(s, st);
            || (i in At(t, q).tab.locks && At(t, q).tab.locks[i].owner == At(s, q).tab.locks[i].owner)
            || (q == st.p && (st.Begin? || st.Receive?) && Known(At(s, q), st.f) && At(s, q).tab.inodes[st.f] == i)
  {
    assert EntryOk(At(s, q), i);
    assert FileOk(At(s, st.p), st.f);
  }

  lemma StepNoStray(s: Sys, st: Step)
    requires Inv(s) && Enabled(s, st)
    ensures NoStray(Apply(s, st))
  {
    var t := Apply(s, st);
    forall q: Proc, i: Inode | (q, i) in t.kernel
      ensures (q, i) in t.leaked ||
              (i in At(t, q).tab.locks && At(t, q).tab.locks[i].owner.Some? &&
               InKernel(Pc(t, q, At(t, q).tab.locks[i].owner.value)))
    {
      StepNoStrayAt(s, st, q, i);
    }
  }

  lemma StepNoStrayAt(s: Sys, st: Step, q: Proc, i: Inode)
    requires Inv(s) && Enabled(s, st) && (q, i) in Apply(s, st).kernel
    ensures var t := Apply(s, st);
            (q, i) in t.leaked ||
            (i in At(t, q).tab.locks && At(t, q).tab.locks[i].owner.Some? &&
             InKernel(Pc(t, q, At(t, q).tab.locks[i].owner.value)))
  {
    var t := Apply(s, st);
    var m := At(s, st.p);
    assert FileOk(m, st.f);
    if st.Grant? && (q, i) == (st.p, m.tab.inodes[st.f]) {
      assert Owns(m.tab, st.f);
    } else if (q, i) !in t.leaked {
      assert (q, i) in s.kernel && (q, i) !in s.leaked;
      var o := At(s, q).tab.locks[i].owner.value;
      assert EntryOk(At(s, q), i) && FileOk(At(s, q), o);
      StepOwner(s, st, q, i);
      if q != st.p || o != st.f { StepFrame(s, st, q, o); }
    }
  }

  lemma StepInv(s: Sys, st: Step)
    requires Inv(s) && Enabled(s, st)
    ensures Inv(Apply(s, st))
  {
    StepMgrsOk(s, st);
    StepHolders(s, st);
    StepCompatible(s, st);
    StepNoStray(s, st);
  }

  /** Every reachable state, whatever the interleaving, the EDEADLK retries and
      the failed calls. */
  lemma {:induction false} RunInv(s: Sys, steps: seq<Step>, t: Sys)
    requires Inv(s) && Run(s, steps, t)
    ensures Inv(t)
    decreases |steps|
  {
    if steps != [] {
      StepInv(s, steps[0]);
      RunInv(Apply(s, steps[0]), steps[1..], t);
    }
  }

  // What a caller relies on.

  /** A lock that was granted excludes: nobody else in the process holds the
      inode, and other processes hold it only if all of them read. */
  lemma HeldExcludes(s: Sys, p: Proc, f: File, q: Proc, g: File)
    requires Inv(s) && Pc(s, p, f).Held? && Pc(s, q, g).Held? && (p, f) != (q, g)
    ensures Known(At(s, p), f) && Known(At(s, q), g)
    ensures At(s, p).tab.inodes[f] == At(s, q).tab.inodes[g] ==>
              p != q && Pc(s, p, f).lt == ReadLock && Pc(s, q, g).lt == ReadLock
  {
    if p == q { OwnersDiffer(At(s, p), f, g); }
  }

  /** From the F_UNLCK on, through the hand-off and until the next owner's own
      request is granted, the process does not have the kernel lock. */
  lemma ReleasedBeforeHandOff(s: Sys, p: Proc, f: File)
    requires Inv(s) && (Pc(s, p, f).Released? || Pc(s, p, f).Receiving?)
    ensures Known(At(s, p), f)
    ensures (p, At(s, p).tab.inodes[f]) !in s.leaked ==> (p, At(s, p).tab.inodes[f]) !in s.kernel
  {
    assert FileOk(At(s, p), f);
  }

  /** `unlock` panics exactly on a file that owns no lock, so never for a holder
      nor for a lock call that undoes itself. */
  lemma PanicsExactly(s: Sys, p: Proc, f: File)
    requires Inv(s)
    ensures !Owns(At(s, p).tab, f) <==> Pc(s, p, f).Idle? || Waiting(Pc(s, p, f))
  {
    var m := At(s, p);
    assert FileOk(m, f);
    if Owns(m.tab, f) {
      assert EntryOk(m, m.tab.inodes[f]);
    }
  }

  /** While a process's mutex is held by a receive, the send that ends it is
      either under way or the next step of its thread. */
  lemma ReceiveNeverSticks(s: Sys, p: Proc, f: File)
    requires Inv(s) && At(s, p).mu == Some(f)
    ensures Enabled(s, Receive(p, f)) ||
            exists g: File :: Enabled(s, Send(p, g)) && Enabled(Apply(s, Send(p, g)), Receive(p, f))
  {
    var m := At(s, p);
    assert FileOk(m, f);
    CommittedSender(m, f);
    var g := m.makers[PcOf(m, f).ch];
    if PcOf(m, g).Committed? {
      assert Enabled(s, Send(p, g));
      var t := Apply(s, Send(p, g));
      assert At(t, p) == Goto(m, g, Sending(PcOf(m, g).ch, PcOf(m, g).lt));
      assert Enabled(t, Receive(p, f));
    }
  }

  // First come, first served.

  /** `f` waits for inode `i` behind the owner and `k` other files. */
  predicate Behind(s: Sys, p: Proc, i: Inode, k: nat, f: File) {
    var m := At(s, p);
    i in m.tab.locks && k < |m.tab.locks[i].queue| && m.tab.locks[i].queue[k] in m.makers &&
    m.makers[m.tab.locks[i].queue[k]] == f
  }

  predicate OwnerIs(s: Sys, p: Proc, i: Inode, f: File) {
    i in At(s, p).tab.locks && At(s, p).tab.locks[i].owner == Some(f)
  }

  /** The step completes an unlock of inode `i`. */
  predicate Unlocks(s: Sys, st: Step, p: Proc, i: Inode) {
    var m := At(s, p);
    st.p == p && Known(m, st.f) && m.tab.inodes[st.f] == i &&
    (st.Receive? || (st.Begin? && Lookup(m.tab, i).queue == []))
  }

  ghost function Unlockings(s: Sys, steps: seq<Step>, p: Proc, i: Inode): nat
    decreases |steps|
  {
    if steps == [] || !Enabled(s, steps[0]) then 0
    else (if Unlocks(s, steps[0], p, i) then 1 else 0) + Unlockings(Apply(s, steps[0]), steps[1..], p, i)
  }

  /** A waiting file is exactly one that stands in its inode's queue, and the
      queue is in the order of arrival: channels are numbered as they are made. */
  lemma QueueIsWaiters(s: Sys, p: Proc, i: Inode, f: File)
    requires Inv(s)
    ensures Waiting(Pc(s, p, f)) && Known(At(s, p), f) && At(s, p).tab.inodes[f] == i <==>
            exists k: nat :: Behind(s, p, i, k, f)
    ensures i in At(s, p).tab.locks ==> Increasing(At(s, p).tab.locks[i].queue)
  {
    var m := At(s, p);
    assert FileOk(m, f);
    if i in m.tab.locks { assert EntryOk(m, i); }
    if Waiting(PcOf(m, f)) && m.tab.inodes[f] == i {
      var q := Lookup(m.tab, i).queue;
      var k :| 0 <= k < |q| && q[k] == PcOf(m, f).ch;
      assert Behind(s, p, i, k, f);
    }
    if k: nat :| Behind(s, p, i, k, f) {
      assert QueuedOk(m, i, m.tab.locks[i].queue[k]);
    }
  }

  lemma MakerStays(s: Sys, st: Step, p: Proc, ch: Chan)
    requires MgrsOk(s) && Enabled(s, st) && ch in At(s, p).makers && ch < At(s, p).next
    ensures ch in At(Apply(s, st), p).makers && At(Apply(s, st), p).makers[ch] == At(s, p).makers[ch]
  {
  }

  /** Only a completed unlock changes the owner of an inode or takes from its queue. */
  lemma EntryStays(s: Sys, st: Step, p: Proc, i: Inode)
    requires MgrsOk(s) && Enabled(s, st) && i in At(s, p).tab.locks && !Unlocks(s, st, p, i)
    ensures var was, now := At(s, p).tab, At(Apply(s, st), p).tab;
            i in now.locks && now.locks[i].owner == was.locks[i].owner && was.locks[i].queue <= now.locks[i].queue
  {
    assert EntryOk(At(s, p), i);
    assert FileOk(At(s, st.p), st.f);
  }

  /** A completed unlock makes the first in the queue the owner. */
  lemma UnlockHandsOver(s: Sys, st: Step, p: Proc, i: Inode)
    requires MgrsOk(s) && Enabled(s, st) && i in At(s, p).tab.locks && Unlocks(s, st, p, i)
    requires At(s, p).tab.locks[i].queue != []
    ensures var was, now := At(s, p), At(Apply(s, st), p).tab;
            && was.tab.locks[i].queue[0] in was.makers
            && i in now.locks && now.locks[i].owner == Some(was.makers[was.tab.locks[i].queue[0]])
            && now.locks[i].queue == was.tab.locks[i].queue[1..]
  {
    var m := At(s, p);
    assert EntryOk(m, i) && FileOk(m, st.f);
    assert QueuedOk(m, i, m.tab.locks[i].queue[0]);
  }

  /** A completed unlock moves everybody up by one; nothing else moves the queue. */
  lemma BehindStep(s: Sys, st: Step, p: Proc, i: Inode, k: nat, f: File)
    requires Inv(s) && Enabled(s, st) && Behind(s, p, i, k, f)
    ensures var t := Apply(s, st);
            if !Unlocks(s, st, p, i) then Behind(t, p, i, k, f)
            else if k > 0 then Behind(t, p, i, k - 1, f)
            else OwnerIs(t, p, i, f)
  {
    var m := At(s, p);
    var ch := m.tab.locks[i].queue[k];
    assert EntryOk(m, i) && QueuedOk(m, i, ch);
    MakerStays(s, st, p, ch);
    if Unlocks(s, st, p, i) {
      UnlockHandsOver(s, st, p, i);
    } else {
      EntryStays(s, st, p, i);
    }
  }

  lemma OwnerStep(s: Sys, st: Step, p: Proc, i: Inode, f: File)
    requires Inv(s) && Enabled(s, st) && OwnerIs(s, p, i, f) && !Unlocks(s, st, p, i)
    ensures OwnerIs(Apply(s, st), p, i, f)
  {
    EntryStays(s, st, p, i);
  }

  lemma {:induction false} OwnerStays(s: Sys, steps: seq<Step>, t: Sys, p: Proc, i: Inode, f: File)
    requires Inv(s) && Run(s, steps, t) && OwnerIs(s, p, i, f) && Unlockings(s, steps, p, i) == 0
    ensures OwnerIs(t, p, i, f)
    decreases |steps|
  {
    if steps != [] {
      OwnerStep(s, steps[0], p, i, f);
      StepInv(s, steps[0]);
      OwnerStays(Apply(s, steps[0]), steps[1..], t, p, i, f);
    }
  }

  /** After `n` completed unlocks a file that was behind `k` others. */
  predicate Served(t: Sys, p: Proc, i: Inode, k: nat, n: nat, f: File) {
    (n <= k ==> Behind(t, p, i, k - n, f)) && (n == k + 1 ==> OwnerIs(t, p, i, f))
  }

  lemma OneNearer(t: Sys, p: Proc, i: Inode, k: nat, n: nat, f: File)
    requires k > 0 && Served(t, p, i, k - 1, n, f)
    ensures Served(t, p, i, k, n + 1, f)
  {
  }

  /** In any run, a file behind k others has moved up by the number of completed
      unlocks, and owns the lock after exactly k + 1 of them. */
  lemma {:induction false} FirstComeFirstServed(
      s: Sys, steps: seq<Step>, t: Sys, p: Proc, i: Inode, k: nat, f: File)
    requires Inv(s) && Run(s, steps, t) && Behind(s, p, i, k, f)
    ensures Served(t, p, i, k, Unlockings(s, steps, p, i), f)
    decreases |steps|, 0
  {
    if steps != [] {
      BehindStep(s, steps[0], p, i, k, f);
      StepInv(s, steps[0]);
      ServedRest(Apply(s, steps[0]), steps[1..], t, p, i, k, Unlocks(s, steps[0], p, i), f);
    }
  }

  /** The rest of a run whose first step completed an unlock or not. */
  lemma {:induction false} ServedRest(
      u: Sys, rest: seq<Step>, t: Sys, p: Proc, i: Inode, k: nat, unlocked: bool, f: File)
    requires Inv(u) && Run(u, rest, t)
    requires if !unlocked then Behind(u, p, i, k, f)
             else if k > 0 then Behind(u, p, i, k - 1, f) else OwnerIs(u, p, i, f)
    ensures Served(t, p, i, k, (if unlocked then 1 else 0) + Unlockings(u, rest, p, i), f)
    decreases |rest|, 1
  {
    if !unlocked {
      FirstComeFirstServed(u, rest, t, p, i, k, f);
    } else if k > 0 {
      FirstComeFirstServed(u, rest, t, p, i, k - 1, f);
      OneNearer(t, p, i, k, Unlockings(u, rest, p, i), f);
    } else if Unlockings(u, rest, p, i) == 0 {
      OwnerStays(u, rest, t, p, i, f);
    }
  }
}
