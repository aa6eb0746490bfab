/** Per-descriptor file locks on top of POSIX `fcntl` locks, which belong to an
    (inode, process) pair (internal/filelock/filelock_fcntl.go). Every process
    keeps an owner and a queue of waiting channels per inode; an unlock gives the
    kernel lock up and hands the ownership to the first waiter. */
module FileLock {
  import opened Options

  type File = nat
  type Inode = nat
  type Chan = nat

  datatype LockType = ReadLock | WriteLock

  datatype InodeLock = InodeLock(owner: Option<File>, queue: seq<Chan>)

  /** The two package-level maps. */
  datatype Table = Table(inodes: map<File, Inode>, locks: map<Inode, InodeLock>)

  /** A missing entry reads as Go's zero value. */
  function Lookup(t: Table, ino: Inode): InodeLock {
    if ino in t.locks then t.locks[ino] else InodeLock(None, [])
  }

  predicate Owns(t: Table, f: File) {
    f in t.inodes && Lookup(t, t.inodes[f]).owner == Some(f)
  }

  datatype Entered = Changed | Mine | Wait

  /** How the first critical section of `lock` ends. */
  function EnterOutcome(t: Table, f: File, ino: Inode): Entered {
    if f in t.inodes && t.inodes[f] != ino then Changed
    else
      var owner := Lookup(t, ino).owner;
      if owner.None? || owner == Some(f) then Mine else Wait
  }

  function EnterTable(t: Table, f: File, ino: Inode, ch: Chan): Table {
    var l := Lookup(t, ino);
    match EnterOutcome(t, f, ino)
    case Changed => t
    case Mine => Table(t.inodes[f := ino], t.locks[ino := l.(owner := Some(f))])
    case Wait => Table(t.inodes[f := ino], t.locks[ino := l.(queue := l.queue + [ch])])
  }

  /** The last critical section of `unlock`, nobody waiting. */
  function ForgetTable(t: Table, f: File, ino: Inode): Table {
    Table(t.inodes - {f}, t.locks - {ino})
  }

  /** The last critical section of `unlock` once the first waiter sent its file. */
  function HandTable(t: Table, f: File, ino: Inode, next: File): Table
    requires Lookup(t, ino).queue != []
  {
    Table(t.inodes - {f}, t.locks[ino := InodeLock(Some(next), Lookup(t, ino).queue[1..])])
  }

  /** The bookkeeping as an object; every method is one critical section. */
  class LockTable {
    var inodes: map<File, Inode>
    var locks: map<Inode, InodeLock>

    constructor ()
      ensures State() == Table(map[], map[])
    {
      inodes, locks := map[], map[];
    }

    ghost function State(): Table
      reads this
    {
      Table(inodes, locks)
    }

    method Enter(f: File, ino: Inode, ch: Chan) returns (r: Entered)
      modifies this
      ensures r == EnterOutcome(old(State()), f, ino)
      ensures State() == EnterTable(old(State()), f, ino, ch)
    {
      if f in inodes && inodes[f] != ino {
        return Changed;
      }
      var l := if ino in locks then locks[ino] else InodeLock(None, []);
      inodes := inodes[f := ino];
      if l.owner == Some(f) {
        r := Mine;
      } else if l.owner.None? {
        l := l.(owner := Some(f));
        r := Mine;
      } else {
        l := l.(queue := l.queue + [ch]);
        r := Wait;
      }
      locks := locks[ino := l];
    }

    /** The owner check of `unlock`; anything but `ok` is a panic. */
    method CheckOwner(f: File) returns (ok: bool)
      ensures ok <==> Owns(State(), f)
    {
      var owner := None;
      if f in inodes {
        owner := if inodes[f] in locks then locks[inodes[f]].owner else None;
      }
      ok := owner == Some(f);
    }

    /** `sender` is what the receive from the first channel of the queue yields. */
    method Finish(f: File, ino: Inode, sender: File)
      modifies this
      ensures State() == if Lookup(old(State()), ino).queue == [] then ForgetTable(old(State()), f, ino)
                         else HandTable(old(State()), f, ino, sender)
    {
      var l := if ino in locks then locks[ino] else InodeLock(None, []);
      if |l.queue| == 0 {
        locks := locks - {ino};
      } else {
        l := InodeLock(Some(sender), l.queue[1..]);
        locks := locks[ino := l];
      }
      inodes := inodes - {f};
    }
  }

  // Threads. One call at a time is in flight for a file, so a file's program
  // counter stands for the thread that calls with it.

  datatype Pc =
    | Idle
    | Committed(ch: Chan, lt: LockType)   // has queued its channel, will send next
    | Sending(ch: Chan, lt: LockType)     // blocked in the send
    | Acquiring(lt: LockType)             // owner, in the kernel-lock retry loop
    | Failing                             // the kernel refused; will call unlock
    | Held(lt: LockType)                  // lock returned nil
    | Releasing                           // passed the owner check, F_UNLCK next
    | Released                            // last critical section next
    | Receiving(ch: Chan)                 // holds the mutex, waits for the sender

  datatype Mgr = Mgr(
    mu: Option<File>, tab: Table, pcs: map<File, Pc>, makers: map<Chan, File>, next: Chan)

  function PcOf(m: Mgr, f: File): Pc { if f in m.pcs then m.pcs[f] else Idle }

  predicate Waiting(pc: Pc) { pc.Committed? || pc.Sending? }

  predicate Owning(pc: Pc) { pc != Idle && !Waiting(pc) }

  const NewMgr := Mgr(None, Table(map[], map[]), map[], map[], 0)

  predicate Increasing(q: seq<Chan>) { forall i, j | 0 <= i < j < |q| :: q[i] < q[j] }

  /** A file is known exactly while a call or a lock of it is outstanding; it owns
      its inode, or it waits with its channel in the inode's queue. */
  ghost predicate FileOk(m: Mgr, f: File) {
    && (f in m.tab.inodes <==> PcOf(m, f) != Idle)
    && (Owning(PcOf(m, f)) ==> Owns(m.tab, f))
    && (Waiting(PcOf(m, f)) ==>
          PcOf(m, f).ch in m.makers && m.makers[PcOf(m, f).ch] == f &&
          PcOf(m, f).ch in Lookup(m.tab, m.tab.inodes[f]).queue)
    && (PcOf(m, f).Receiving? <==> m.mu == Some(f))
    && (PcOf(m, f).Receiving? ==>
          var q := Lookup(m.tab, m.tab.inodes[f]).queue; q != [] && q[0] == PcOf(m, f).ch)
  }

  /** An entry has an owner that knows it, and its queue holds, in the order of
      arrival, the channels of files that wait for this inode. */
  ghost predicate EntryOk(m: Mgr, i: Inode)
    requires i in m.tab.locks
  {
    var l := m.tab.locks[i];
    && l.owner.Some? && l.owner.value in m.tab.inodes && m.tab.inodes[l.owner.value] == i
    && Owning(PcOf(m, l.owner.value))
    && Increasing(l.queue)
    && forall k | 0 <= k < |l.queue| :: QueuedOk(m, i, l.queue[k])
  }

  ghost predicate QueuedOk(m: Mgr, i: Inode, ch: Chan) {
    && ch in m.makers && ch < m.next
    && m.makers[ch] in m.tab.inodes && m.tab.inodes[m.makers[ch]] == i
    && Waiting(PcOf(m, m.makers[ch])) && PcOf(m, m.makers[ch]).ch == ch
  }

  ghost predicate MgrOk(m: Mgr) {
    && (forall f: File :: FileOk(m, f))
    && (forall i | i in m.tab.locks :: EntryOk(m, i))
  }

  function Goto(m: Mgr, f: File, pc: Pc): Mgr { m.(pcs := m.pcs[f := pc]) }

  // The steps of one process.

  function LockEnter(m: Mgr, f: File, ino: Inode, lt: LockType): Mgr {
    var t := EnterTable(m.tab, f, ino, m.next);
    match EnterOutcome(m.tab, f, ino)
    case Changed => m
    case Mine => Goto(m, f, Acquiring(lt)).(tab := t)
    case Wait => Goto(m, f, Committed(m.next, lt)).(tab := t, makers := m.makers[m.next := f], next := m.next + 1)
  }

  function Forget(m: Mgr, f: File): Mgr
    requires f in m.tab.inodes
  {
    Goto(m, f, Idle).(tab := ForgetTable(m.tab, f, m.tab.inodes[f]))
  }

  function StartReceive(m: Mgr, f: File): Mgr
    requires f in m.tab.inodes && Lookup(m.tab, m.tab.inodes[f]).queue != []
  {
    Goto(m, f, Receiving(Lookup(m.tab, m.tab.inodes[f]).queue[0])).(mu := Some(f))
  }

  function HandOff(m: Mgr, f: File, g: File, lt: LockType): Mgr
    requires f in m.tab.inodes && Lookup(m.tab, m.tab.inodes[f]).queue != []
  {
    Goto(Goto(m, f, Idle), g, Acquiring(lt)).(mu := None, tab := HandTable(m.tab, f, m.tab.inodes[f], g))
  }

  /** Moving between two states of a lock's owner touches nothing else. */
  lemma GotoOwnerKeeps(m: Mgr, f: File, pc: Pc)
    requires MgrOk(m) && Owning(PcOf(m, f)) && Owning(pc) && !PcOf(m, f).Receiving? && !pc.Receiving?
    ensures MgrOk(Goto(m, f, pc))
  {
    var n := Goto(m, f, pc);
    forall g: File ensures FileOk(n, g) {
      assert FileOk(m, g);
    }
    forall i | i in n.tab.locks ensures EntryOk(n, i) {
      assert EntryOk(m, i);
      forall k | 0 <= k < |n.tab.locks[i].queue| ensures QueuedOk(n, i, n.tab.locks[i].queue[k]) {
        assert QueuedOk(m, i, n.tab.locks[i].queue[k]);
      }
    }
  }

  lemma StartSendKeeps(m: Mgr, f: File)
    requires MgrOk(m) && PcOf(m, f).Committed?
    ensures MgrOk(Goto(m, f, Sending(PcOf(m, f).ch, PcOf(m, f).lt)))
  {
    var n := Goto(m, f, Sending(PcOf(m, f).ch, PcOf(m, f).lt));
    forall g: File ensures FileOk(n, g) {
      assert FileOk(m, g);
    }
    forall i | i in n.tab.locks ensures EntryOk(n, i) {
      assert EntryOk(m, i);
      forall k | 0 <= k < |n.tab.locks[i].queue| ensures QueuedOk(n, i, n.tab.locks[i].queue[k]) {
        assert QueuedOk(m, i, n.tab.locks[i].queue[k]);
      }
    }
  }

  /** A file whose program counter is not idle has an entry for its inode. */
  lemma BusyHasEntry(m: Mgr, f: File)
    requires MgrOk(m) && PcOf(m, f) != Idle
    ensures f in m.tab.inodes && m.tab.inodes[f] in m.tab.locks
  {
    assert FileOk(m, f);
  }

  lemma FirstOwnerKeeps(m: Mgr, f: File, ino: Inode, lt: LockType)
    requires MgrOk(m) && m.mu.None? && PcOf(m, f).Idle? && ino !in m.tab.locks
    ensures MgrOk(LockEnter(m, f, ino, lt))
  {
    var n := LockEnter(m, f, ino, lt);
    assert FileOk(m, f);
    forall g: File ensures FileOk(n, g) {
      assert FileOk(m, g);
      if g != f && PcOf(m, g) != Idle { BusyHasEntry(m, g); }
    }
    forall i | i in n.tab.locks ensures EntryOk(n, i) {
      if i != ino {
        assert EntryOk(m, i);
        forall k | 0 <= k < |n.tab.locks[i].queue| ensures QueuedOk(n, i, n.tab.locks[i].queue[k]) {
          assert QueuedOk(m, i, n.tab.locks[i].queue[k]);
        }
      }
    }
  }

  lemma EnqueueKeeps(m: Mgr, f: File, ino: Inode, lt: LockType)
    requires MgrOk(m) && m.mu.None? && PcOf(m, f).Idle? && ino in m.tab.locks
    ensures MgrOk(LockEnter(m, f, ino, lt))
  {
    var n := LockEnter(m, f, ino, lt);
    assert FileOk(m, f) && EntryOk(m, ino);
    assert EnterOutcome(m.tab, f, ino) == Wait;
    var q, q' := m.tab.locks[ino].queue, n.tab.locks[ino].queue;
    assert q' == q + [m.next];
    forall g: File ensures FileOk(n, g) {
      assert FileOk(m, g);
      if g == f { assert q'[|q|] == m.next; }
    }
    forall i | i in n.tab.locks ensures EntryOk(n, i) {
      assert EntryOk(m, i);
      forall k | 0 <= k < |n.tab.locks[i].queue| ensures QueuedOk(n, i, n.tab.locks[i].queue[k]) {
        if i != ino || k < |q| { assert QueuedOk(m, i, m.tab.locks[i].queue[k]); }
      }
    }
  }

  lemma LockEnterKeeps(m: Mgr, f: File, ino: Inode, lt: LockType)
    requires MgrOk(m) && m.mu.None? && (PcOf(m, f).Idle? || PcOf(m, f).Held?)
    ensures MgrOk(LockEnter(m, f, ino, lt))
  {
    assert FileOk(m, f);
    if PcOf(m, f).Held? {
      if m.tab.inodes[f] == ino {
        assert EnterTable(m.tab, f, ino, m.next) == m.tab;
        GotoOwnerKeeps(m, f, Acquiring(lt));
      }
    } else if ino in m.tab.locks {
      EnqueueKeeps(m, f, ino, lt);
    } else {
      FirstOwnerKeeps(m, f, ino, lt);
    }
  }

  lemma ForgetKeeps(m: Mgr, f: File)
    requires MgrOk(m) && m.mu.None? && PcOf(m, f).Released? && f in m.tab.inodes
    requires Lookup(m.tab, m.tab.inodes[f]).queue == []
    ensures MgrOk(Forget(m, f))
  {
    var n := Forget(m, f);
    var ino := m.tab.inodes[f];
    assert FileOk(m, f);
    forall g: File ensures FileOk(n, g) {
      assert FileOk(m, g);
    }
    forall i | i in n.tab.locks ensures EntryOk(n, i) {
      assert EntryOk(m, i);
      forall k | 0 <= k < |n.tab.locks[i].queue| ensures QueuedOk(n, i, n.tab.locks[i].queue[k]) {
        assert QueuedOk(m, i, n.tab.locks[i].queue[k]);
      }
    }
  }

  lemma StartReceiveKeeps(m: Mgr, f: File)
    requires MgrOk(m) && m.mu.None? && PcOf(m, f).Released? && f in m.tab.inodes
    requires Lookup(m.tab, m.tab.inodes[f]).queue != []
    ensures MgrOk(StartReceive(m, f))
  {
    var n := StartReceive(m, f);
    forall g: File ensures FileOk(n, g) {
      assert FileOk(m, g);
    }
    forall i | i in n.tab.locks ensures EntryOk(n, i) {
      assert EntryOk(m, i);
      forall k | 0 <= k < |n.tab.locks[i].queue| ensures QueuedOk(n, i, n.tab.locks[i].queue[k]) {
        assert QueuedOk(m, i, n.tab.locks[i].queue[k]);
      }
    }
  }

  /** The receive inside the critical section has its sender: the channel's maker
      is in its send or about to enter it. */
  lemma CommittedSender(m: Mgr, f: File)
    requires MgrOk(m) && PcOf(m, f).Receiving?
    ensures f in m.tab.inodes && Lookup(m.tab, m.tab.inodes[f]).queue != []
    ensures PcOf(m, f).ch in m.makers
    ensures var g := m.makers[PcOf(m, f).ch];
            g != f && Waiting(PcOf(m, g)) && PcOf(m, g).ch == PcOf(m, f).ch
  {
    assert FileOk(m, f);
    assert EntryOk(m, m.tab.inodes[f]);
    assert QueuedOk(m, m.tab.inodes[f], m.tab.locks[m.tab.inodes[f]].queue[0]);
  }

  lemma HandOffKeeps(m: Mgr, f: File, g: File)
    requires MgrOk(m) && PcOf(m, f).Receiving? && PcOf(m, g).Sending? && PcOf(m, g).ch == PcOf(m, f).ch
    ensures f in m.tab.inodes && Lookup(m.tab, m.tab.inodes[f]).queue != []
    ensures MgrOk(HandOff(m, f, g, PcOf(m, g).lt))
  {
    CommittedSender(m, f);
    assert FileOk(m, f) && FileOk(m, g);
    var ino := m.tab.inodes[f];
    assert EntryOk(m, ino);
    assert QueuedOk(m, ino, m.tab.locks[ino].queue[0]);
    var n := HandOff(m, f, g, PcOf(m, g).lt);
    forall h: File ensures FileOk(n, h) {
      HandOffFile(m, f, g, h);
    }
    forall i | i in n.tab.locks ensures EntryOk(n, i) {
      assert EntryOk(m, i);
      forall k | 0 <= k < |n.tab.locks[i].queue| ensures QueuedOk(n, i, n.tab.locks[i].queue[k]) {
        if i == ino {
          assert n.tab.locks[i].queue[k] == m.tab.locks[i].queue[k + 1];
          assert QueuedOk(m, i, m.tab.locks[i].queue[k + 1]);
        } else {
          assert QueuedOk(m, i, m.tab.locks[i].queue[k]);
        }
      }
    }
  }

  lemma HandOffFile(m: Mgr, f: File, g: File, h: File)
    requires MgrOk(m) && PcOf(m, f).Receiving? && PcOf(m, g).Sending? && PcOf(m, g).ch == PcOf(m, f).ch
    requires f in m.tab.inodes && Lookup(m.tab, m.tab.inodes[f]).queue != []
    ensures FileOk(HandOff(m, f, g, PcOf(m, g).lt), h)
  {
    var ino := m.tab.inodes[f];
    assert FileOk(m, f) && FileOk(m, g) && FileOk(m, h) && EntryOk(m, ino);
    var q := m.tab.locks[ino].queue;
    assert QueuedOk(m, ino, q[0]);
    if h != f && h != g && Waiting(PcOf(m, h)) && m.tab.inodes[h] == ino {
      assert PcOf(m, h).ch != q[0];
      assert q == [q[0]] + q[1..];
    }
  }
}
