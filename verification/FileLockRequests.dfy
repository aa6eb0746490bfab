/** What a caller of `lock` is given is what it asked for (internal/filelock): inode and
    type of a lock that is held are those of the request, through queue and hand-off, so
    locks exclude each other by what was asked; and what nothing stands against goes on. */
module FileLockRequests {
  import opened Options
  import opened FileLock
  import opened FileLockSystem

  datatype Request = Request(ino: Inode, lt: LockType)

  /** The step is a call of lock for f that is not refused: one on a file that is not in
      use, or on the inode for which the file is in use. */
  predicate Asks(s: Sys, st: Step, p: Proc, f: File, was: Option<Request>) {
    st.Enter? && st.p == p && st.f == f && (PcOf(At(s, p), f).Idle? || (was.Some? && was.value.ino == st.ino))
  }

  function AskedNext(s: Sys, st: Step, p: Proc, f: File, was: Option<Request>): Option<Request> {
    if Asks(s, st, p, f, was) then Some(Request(st.ino, st.lt)) else was
  }

  /** The last such call in a run, and before it `was`. */
  ghost function Asked(s: Sys, steps: seq<Step>, p: Proc, f: File, was: Option<Request>): Option<Request>
    decreases |steps|
  {
    if steps == [] || !Enabled(s, steps[0]) then was
    else Asked(Apply(s, steps[0]), steps[1..], p, f, AskedNext(s, steps[0], p, f, was))
  }

  /** A file in use is recorded with the inode of its request, and with its type as long
      as it works for the lock or has it. */
  predicate AsAsked(m: Mgr, f: File, was: Option<Request>) {
    var pc := PcOf(m, f);
    !pc.Idle? ==>
      && was.Some? && f in m.tab.inodes && m.tab.inodes[f] == was.value.ino
      && (Waiting(pc) || pc.Acquiring? || pc.Held? ==> pc.lt == was.value.lt)
  }

  lemma OwnStep(s: Sys, st: Step, was: Option<Request>)
    requires Inv(s) && Enabled(s, st) && AsAsked(At(s, st.p), st.f, was) && FileOk(At(s, st.p), st.f)
    ensures AsAsked(At(Apply(s, st), st.p), st.f, AskedNext(s, st, st.p, st.f, was))
  {
    if st.Receive? {
      CommittedSender(At(s, st.p), st.f);
    }
  }

  lemma AskedStep(s: Sys, st: Step, p: Proc, f: File, was: Option<Request>)
    requires Inv(s) && Enabled(s, st) && AsAsked(At(s, p), f, was)
    ensures AsAsked(At(Apply(s, st), p), f, AskedNext(s, st, p, f, was))
  {
    if st.p != p || st.f != f {
      StepFrame(s, st, p, f);
    } else {
      assert FileOk(At(s, p), f);
      OwnStep(s, st, was);
    }
  }

  lemma {:induction false} AskedRun(s: Sys, steps: seq<Step>, t: Sys, p: Proc, f: File, was: Option<Request>)
    requires Inv(s) && Run(s, steps, t) && AsAsked(At(s, p), f, was)
    ensures AsAsked(At(t, p), f, Asked(s, steps, p, f, was))
    decreases |steps|
  {
    if steps != [] {
      AskedStep(s, steps[0], p, f, was);
      StepInv(s, steps[0]);
      AskedRun(Apply(s, steps[0]), steps[1..], t, p, f, AskedNext(s, steps[0], p, f, was));
    }
  }

  /** In every run whoever holds a lock holds it on the inode and with the type it asked
      for last, and the kernel has granted that. */
  lemma HeldAsAsked(steps: seq<Step>, t: Sys, p: Proc, f: File)
    requires Run(Boot, steps, t) && PcOf(At(t, p), f).Held?
    ensures var asked := Asked(Boot, steps, p, f, None);
            && asked.Some? && asked.value.lt == PcOf(At(t, p), f).lt
            && Known(At(t, p), f) && At(t, p).tab.inodes[f] == asked.value.ino
            && (p, asked.value.ino) in t.kernel && t.kernel[(p, asked.value.ino)] == asked.value.lt
  {
    BootOk();
    RunInv(Boot, steps, t);
    AskedRun(Boot, steps, t, p, f, None);
  }

  /** Two callers that asked for one inode, one of them to write, never hold it at once. */
  lemma WriterIsAlone(steps: seq<Step>, t: Sys, p: Proc, f: File, q: Proc, g: File, i: Inode, lt: LockType)
    requires Run(Boot, steps, t) && (p, f) != (q, g)
    requires Asked(Boot, steps, p, f, None) == Some(Request(i, WriteLock))
    requires Asked(Boot, steps, q, g, None) == Some(Request(i, lt))
    ensures !(PcOf(At(t, p), f).Held? && PcOf(At(t, q), g).Held?)
  {
    if PcOf(At(t, p), f).Held? && PcOf(At(t, q), g).Held? {
      BootOk();
      RunInv(Boot, steps, t);
      HeldAsAsked(steps, t, p, f);
      HeldAsAsked(steps, t, q, g);
      HeldExcludes(t, p, f, q, g);
    }
  }

  // Nothing but a lock in the way, or a process's own mutex, holds a call up.

  /** A call that has begun: where its thread stands, what it can do next, and where that
      leads. Only a send waits for another thread of the process, and only a grant for
      another process. */
  lemma CallGoesOn(s: Sys, p: Proc, f: File)
    requires Inv(s)
    ensures var m := At(s, p);
            match PcOf(m, f)
            case Idle => true
            case Sending(_, _) => true
            case Committed(ch, lt) =>
              Enabled(s, Send(p, f)) && PcOf(At(Apply(s, Send(p, f)), p), f) == Sending(ch, lt)
            case Acquiring(lt) =>
              Known(m, f) && (Enabled(s, Grant(p, f)) <==> Grantable(s, p, m.tab.inodes[f], lt)) &&
              (Enabled(s, Grant(p, f)) ==> PcOf(At(Apply(s, Grant(p, f)), p), f) == Held(lt))
            case Releasing =>
              forall ok :: Enabled(s, Unlck(p, f, ok)) && PcOf(At(Apply(s, Unlck(p, f, ok)), p), f) == Released
            case Released =>
              m.mu.None? ==>
                Enabled(s, Step.Begin(p, f)) && Known(m, f) &&
                PcOf(At(Apply(s, Step.Begin(p, f)), p), f) ==
                  var q := Lookup(m.tab, m.tab.inodes[f]).queue; if q == [] then Pc.Idle else Receiving(q[0])
            case Receiving(_) =>
              Enabled(s, Receive(p, f)) ||
              exists g: File :: Enabled(s, Send(p, g)) && Enabled(Apply(s, Send(p, g)), Receive(p, f))
            case _ =>
              m.mu.None? ==> Enabled(s, Check(p, f)) && PcOf(At(Apply(s, Check(p, f)), p), f) == Releasing
  {
    assert FileOk(At(s, p), f);
    if PcOf(At(s, p), f).Receiving? {
      ReceiveNeverSticks(s, p, f);
    }
  }

  /** A lock that nothing stands against is granted as asked. */
  lemma FreeLockIsGranted(s: Sys, p: Proc, f: File, i: Inode, lt: LockType)
    requires Inv(s) && At(s, p).mu.None? && PcOf(At(s, p), f).Idle? && i !in At(s, p).tab.locks
    requires Grantable(s, p, i, lt)
    ensures Enabled(s, Enter(p, f, i, lt)) && Enabled(Apply(s, Enter(p, f, i, lt)), Grant(p, f))
    ensures var u := Apply(Apply(s, Enter(p, f, i, lt)), Grant(p, f));
            PcOf(At(u, p), f) == Held(lt) && u.kernel == s.kernel[(p, i) := lt]
  {
    assert FileOk(At(s, p), f);
  }

  /** Giving up a lock that nobody waits for leaves the file idle, the inode free and the
      kernel without the lock. */
  lemma UnlockFrees(s: Sys, p: Proc, f: File, i: Inode)
    requires Inv(s) && At(s, p).mu.None? && PcOf(At(s, p), f).Held?
    requires Known(At(s, p), f) && At(s, p).tab.inodes[f] == i && Lookup(At(s, p).tab, i).queue == []
    ensures Enabled(s, Check(p, f))
    ensures var u := Apply(s, Check(p, f));
            && Enabled(u, Unlck(p, f, true))
            && var v := Apply(u, Unlck(p, f, true));
               && Enabled(v, Step.Begin(p, f))
               && var t := Apply(v, Step.Begin(p, f));
                  && PcOf(At(t, p), f).Idle? && i !in At(t, p).tab.locks && f !in At(t, p).tab.inodes
                  && t.kernel == s.kernel - {(p, i)}
  {
    assert FileOk(At(s, p), f);
  }
}
