/** The FIFO that holds the child back until `Exec` (libmocktainer/container_linux.go):
    any number of Exec calls, from any number of processes, against one child. */
module ExecFifo {
  import opened Options
  import opened Handshake

  /** An Exec call: opening the FIFO for reading, reading it to its end, done. */
  datatype Call = Idle | Opening | Reading(got: bool) | Returned(ok: bool)

  /** `fifo`: the FIFO is still in the container's directory. `bytes`: what was written
      and not read. `taker`: the call that read the byte. */
  datatype Sys = Sys(h: State, fifo: bool, childOpen: bool, bytes: nat, taker: Option<nat>, calls: seq<Call>)

  predicate HoldsOpen(c: Call) { c.Opening? || c.Reading? }

  predicate HasReader(s: Sys) { exists e | 0 <= e < |s.calls| :: HoldsOpen(s.calls[e]) }

  /** The child's end is closed by its death, or by the exec because it is close-on-exec. */
  predicate WriterGone(h: State) { h.chi.CDead? || h.chi.CUser? }

  datatype Move =
    | Hand(st: Step)
    | Begin(e: nat)
    | Open(e: nat)
    | Take(e: nat)
    | End(e: nat)
    | Poll(e: nat)
    | Remove

  predicate CanMove(s: Sys, m: Move) {
    match m
    case Hand(st) => Enabled(s.h, st) && (st.ChildMoves? ==> st.reader == HasReader(s))
    case Begin(e) => e < |s.calls| && s.calls[e].Idle?
    case Open(e) => e < |s.calls| && s.calls[e].Opening? && s.childOpen
    case Take(e) => e < |s.calls| && s.calls[e].Reading? && s.bytes > 0
    case End(e) => e < |s.calls| && s.calls[e].Reading? && s.bytes == 0 && WriterGone(s.h)
    case Poll(e) => e < |s.calls| && s.calls[e].Opening? && s.h.chi.CDead?
    case Remove => s.fifo
  }

  /** The child's step with what it does to the FIFO. */
  function HandStep(s: Sys, st: Step): Sys
    requires Enabled(s.h, st)
  {
    Sys(Apply(s.h, st), s.fifo, s.childOpen || (st.ChildMoves? && s.h.chi.CFifo?),
        if st.ChildMoves? && st.reader && s.h.chi.CWrite? then s.bytes + 1 else s.bytes, s.taker, s.calls)
  }

  function Moved(s: Sys, m: Move): Sys
    requires CanMove(s, m)
  {
    match m
    case Hand(st) => HandStep(s, st)
    case Begin(e) => s.(calls := s.calls[e := if s.fifo then Opening else Returned(false)])
    case Open(e) => s.(calls := s.calls[e := Reading(false)])
    case Take(e) => s.(calls := s.calls[e := Reading(true)], bytes := 0, taker := Some(e))
    case End(e) =>
      if s.calls[e].got then s.(calls := s.calls[e := Returned(s.fifo)], fifo := false)
      else s.(calls := s.calls[e := Returned(false)])
    case Poll(e) => s.(calls := s.calls[e := if s.fifo then Reading(false) else Returned(false)])
    case Remove => s.(fifo := false)
  }

  predicate Written(h: State) { |h.trace| >= Lead(h) + 7 }

  /** The call that read something is the one that took the byte. */
  predicate TookIt(s: Sys) {
    forall e | 0 <= e < |s.calls| && (s.calls[e] == Reading(true) || s.calls[e] == Returned(true)) :: s.taker == Some(e)
  }

  predicate Begun(s: Sys) { exists e | 0 <= e < |s.calls| :: !s.calls[e].Idle? }

  ghost predicate FifoInv(s: Sys) {
    && Inv(s.h)
    && s.bytes <= 1
    && (s.taker.Some? ==> s.bytes == 0 && Written(s.h))
    && (s.bytes > 0 ==> Written(s.h))
    && TookIt(s)
    && (s.childOpen ==> Begun(s))
    && (s.h.chi.CWrite? || Written(s.h) ==> s.childOpen)
  }

  lemma InitFifoInv(hooks: bool, n: nat)
    ensures FifoInv(Sys(Init(hooks), true, false, 0, None, seq(n, _ => Idle)))
  {
    InitInv(hooks);
  }

  lemma ParentWritesNot(h: State)
    requires ParentEnabled(h) && Inv(h)
    ensures var r := ParentStep(h); (Written(h) <==> Written(r)) && (r.chi == h.chi || r.chi.CDead?)
  {
  }

  lemma ChildWritesOnce(h: State, reader: bool)
    requires ChildEnabled(h, reader) && Inv(h)
    ensures var r := ChildStep(h, reader);
            && (Written(r) <==> Written(h) || (h.chi.CWrite? && reader))
            && (r.chi.CWrite? <==> h.chi.CFifo?)
  {
  }

  /** Only the child's write step makes the FIFO written. */
  lemma WritesOnce(h: State, st: Step)
    requires Inv(h) && Enabled(h, st)
    ensures Written(Apply(h, st)) <==> Written(h) || (h.chi.CWrite? && st.ChildMoves? && st.reader)
    ensures Apply(h, st).chi.CWrite? ==> h.chi.CWrite? || (h.chi.CFifo? && st.ChildMoves?)
    ensures Written(h) ==> !h.chi.CWrite?
  {
    if st.ParentMoves? {
      ParentWritesNot(h);
    } else if st.ChildMoves? {
      ChildWritesOnce(h, st.reader);
    }
  }

  lemma HandKeeps(s: Sys, st: Step)
    requires FifoInv(s) && CanMove(s, Hand(st))
    ensures FifoInv(HandStep(s, st))
  {
    StepInv(s.h, st);
    WritesOnce(s.h, st);
    if st.ChildMoves? && s.h.chi.CFifo? {
      var e :| 0 <= e < |s.calls| && HoldsOpen(s.calls[e]);
      assert !s.calls[e].Idle?;
    }
  }

  lemma BegunKeeps(s: Sys, e: nat, c: Call)
    requires e < |s.calls| && !c.Idle?
    ensures Begun(s.(calls := s.calls[e := c]))
  {
    assert s.calls[e := c][e] == c;
  }

  /** Every move, of the handshake or of a call, keeps the invariant. */
  lemma MoveKeeps(s: Sys, m: Move)
    requires FifoInv(s) && CanMove(s, m)
    ensures FifoInv(Moved(s, m))
  {
    if m.Hand? {
      HandKeeps(s, m.st);
    } else if !m.Remove? {
      var s' := Moved(s, m);
      assert s'.calls == s.calls[m.e := s'.calls[m.e]];
      BegunKeeps(s, m.e, s'.calls[m.e]);
    }
  }

  predicate FifoRuns(states: seq<Sys>, moves: seq<Move>) {
    && |states| == |moves| + 1
    && forall k | 0 <= k < |moves| :: CanMove(states[k], moves[k]) && states[k + 1] == Moved(states[k], moves[k])
  }

  lemma {:induction false} FifoRunInv(states: seq<Sys>, moves: seq<Move>, hooks: bool, n: nat, k: nat)
    requires FifoRuns(states, moves) && k < |states|
    requires states[0] == Sys(Init(hooks), true, false, 0, None, seq(n, _ => Idle))
    ensures FifoInv(states[k])
    decreases k
  {
    if k == 0 {
      InitFifoInv(hooks, n);
    } else {
      FifoRunInv(states, moves, hooks, n, k - 1);
      MoveKeeps(states[k - 1], moves[k - 1]);
    }
  }

  /** At most one Exec returns nil, and then the child's byte was written and is gone. */
  lemma OneExecReturnsNil(s: Sys, e: nat, f: nat)
    requires FifoInv(s) && e < |s.calls| && f < |s.calls| && s.calls[e] == Returned(true)
    ensures s.calls[f] == Returned(true) ==> e == f
    ensures FifoWrite in s.h.trace && s.bytes == 0
  {
    WrittenIs(s.h);
  }

  lemma WrittenIs(h: State)
    requires Inv(h) && Written(h)
    ensures FifoWrite in h.trace
  {
    OrderIs(h.hooks);
    assert h.trace[Lead(h) + 6] == FifoWrite;
  }

  /** The child gets past the FIFO only while an Exec has it open. */
  lemma WriteNeedsExec(s: Sys, st: Step)
    requires FifoInv(s) && CanMove(s, Hand(st)) && !Written(s.h) && Written(Apply(s.h, st))
    ensures HasReader(s)
  {
    WritesOnce(s.h, st);
  }

  // When an Exec returns nil.

  predicate TookBy(moves: seq<Move>, k: nat, e: nat)
    requires k <= |moves|
  {
    exists i | 0 <= i < k :: moves[i] == Take(e)
  }

  /** The call came to its end, after it took the byte, with the FIFO in the directory. */
  predicate EndedWell(states: seq<Sys>, moves: seq<Move>, k: nat, e: nat)
    requires k <= |moves| <= |states|
  {
    exists j | 0 <= j < k :: moves[j] == End(e) && TookBy(moves, j, e) && states[j].fifo
  }

  /** What a call stands at tells what it has done. */
  predicate Tells(c: Call, took: bool, well: bool) {
    match c
    case Idle => !took && !well
    case Opening => !took && !well
    case Reading(got) => got == took && !well
    case Returned(ok) => ok == well
  }

  lemma OneMoreMove(states: seq<Sys>, moves: seq<Move>, k: nat, e: nat)
    requires k < |moves| <= |states|
    ensures TookBy(moves, k + 1, e) <==> TookBy(moves, k, e) || moves[k] == Take(e)
    ensures EndedWell(states, moves, k + 1, e) <==>
            EndedWell(states, moves, k, e) || (moves[k] == End(e) && TookBy(moves, k, e) && states[k].fifo)
  {
  }

  lemma TellsOn(s: Sys, m: Move, e: nat, took: bool, well: bool)
    requires CanMove(s, m) && e < |s.calls| && Tells(s.calls[e], took, well)
    ensures var t := Moved(s, m);
            |t.calls| == |s.calls| && Tells(t.calls[e], took || m == Take(e), well || (m == End(e) && took && s.fifo))
  {
  }

  lemma {:induction false} PastOf(states: seq<Sys>, moves: seq<Move>, hooks: bool, n: nat, k: nat, e: nat)
    requires FifoRuns(states, moves) && k < |states| && e < n
    requires states[0] == Sys(Init(hooks), true, false, 0, None, seq(n, _ => Idle))
    ensures |states[k].calls| == n && Tells(states[k].calls[e], TookBy(moves, k, e), EndedWell(states, moves, k, e))
    decreases k
  {
    if k > 0 {
      var i := k - 1;
      PastOf(states, moves, hooks, n, i, e);
      TellsOn(states[i], moves[i], e, TookBy(moves, i, e), EndedWell(states, moves, i, e));
      OneMoreMove(states, moves, i, e);
    }
  }

  /** A call that has returned returned nil if and only if it took the child's byte and
      the FIFO was still in the directory when it came to its end. */
  lemma NilExactly(states: seq<Sys>, moves: seq<Move>, hooks: bool, n: nat, k: nat, e: nat)
    requires FifoRuns(states, moves) && k < |states| && e < n
    requires states[0] == Sys(Init(hooks), true, false, 0, None, seq(n, _ => Idle))
    ensures |states[k].calls| == n
    ensures states[k].calls[e].Returned? ==> (states[k].calls[e].ok <==> EndedWell(states, moves, k, e))
  {
    PastOf(states, moves, hooks, n, k, e);
  }

  /** While nobody else removes the FIFO, it goes with the one call that returns nil. */
  predicate OwnRemoval(s: Sys) {
    && (!s.fifo ==> exists e | 0 <= e < |s.calls| :: s.calls[e] == Returned(true))
    && (s.taker.Some? ==> s.taker.value < |s.calls| &&
                          (s.calls[s.taker.value] == Reading(true) || s.calls[s.taker.value] == Returned(true)))
  }

  lemma OwnRemovalKeeps(s: Sys, m: Move)
    requires FifoInv(s) && CanMove(s, m) && !m.Remove? && OwnRemoval(s)
    ensures OwnRemoval(Moved(s, m)) && (Moved(s, m).taker.Some? <==> s.taker.Some? || m.Take?)
  {
    var t := Moved(s, m);
    if m.Hand? {
    } else if !s.fifo {
      var e :| 0 <= e < |s.calls| && s.calls[e] == Returned(true);
      assert t.calls[e] == Returned(true);
    } else if m.End? {
      assert t.calls[m.e].Returned?;
    }
  }

  lemma {:induction false} OwnRemovalRun(states: seq<Sys>, moves: seq<Move>, hooks: bool, n: nat, k: nat)
    requires FifoRuns(states, moves) && k < |states| && forall i | 0 <= i < |moves| :: !moves[i].Remove?
    requires states[0] == Sys(Init(hooks), true, false, 0, None, seq(n, _ => Idle))
    ensures OwnRemoval(states[k]) && (states[k].taker.Some? <==> exists i | 0 <= i < k :: moves[i].Take?)
    decreases k
  {
    if k > 0 {
      OwnRemovalRun(states, moves, hooks, n, k - 1);
      FifoRunInv(states, moves, hooks, n, k - 1);
      OwnRemovalKeeps(states[k - 1], moves[k - 1]);
    }
  }

  /** If nobody else removes the FIFO, the byte was taken and all calls are back, exactly
      one of them returned nil. */
  lemma ExactlyOneNil(states: seq<Sys>, moves: seq<Move>, hooks: bool, n: nat, s: Sys)
    requires FifoRuns(states, moves) && forall i | 0 <= i < |moves| :: !moves[i].Remove?
    requires states[0] == Sys(Init(hooks), true, false, 0, None, seq(n, _ => Idle)) && s == states[|moves|]
    requires exists i | 0 <= i < |moves| :: moves[i].Take?
    requires forall e | 0 <= e < |s.calls| :: s.calls[e].Returned?
    ensures exists e | 0 <= e < |s.calls| :: s.calls[e].ok && forall f | 0 <= f < |s.calls| :: s.calls[f].ok ==> f == e
  {
    FifoRunInv(states, moves, hooks, n, |moves|);
    OwnRemovalRun(states, moves, hooks, n, |moves|);
    var e := s.taker.value;
    forall f | 0 <= f < |s.calls| && s.calls[f].ok ensures f == e {
      assert s.calls[f] == Returned(true);
    }
  }

  /** Once the child has gone on or is dead, every call gets on: none blocks forever. */
  lemma CallsComeBack(s: Sys, e: nat)
    requires FifoInv(s) && WriterGone(s.h) && e < |s.calls|
    ensures s.calls[e].Idle? ==> CanMove(s, Begin(e))
    ensures s.calls[e].Opening? ==> CanMove(s, Open(e)) || CanMove(s, Poll(e))
    ensures s.calls[e].Reading? ==> CanMove(s, Take(e)) || CanMove(s, End(e))
  {
  }

  lemma ExecOpens(s: Sys, e: nat) returns (a: Sys, b: Sys, c: Sys)
    requires FifoInv(s) && s.h.chi.CFifo? && s.fifo && e < |s.calls| && s.calls[e].Idle?
    ensures CanMove(s, Begin(e)) && a == Moved(s, Begin(e))
    ensures CanMove(a, Hand(ChildMoves(true))) && b == Moved(a, Hand(ChildMoves(true)))
    ensures CanMove(b, Open(e)) && c == Moved(b, Open(e))
    ensures c.h.chi.CWrite? && c.fifo && c.bytes == 0 && c.calls == s.calls[e := Reading(false)]
  {
    a := Moved(s, Begin(e));
    assert HoldsOpen(a.calls[e]);
    b := Moved(a, Hand(ChildMoves(true)));
    c := Moved(b, Open(e));
  }

  lemma ExecReads(s: Sys, e: nat) returns (a: Sys, b: Sys, c: Sys, d: Sys, t: Sys)
    requires s.h.chi.CWrite? && s.fifo && s.bytes == 0 && e < |s.calls| && s.calls[e].Reading?
    ensures CanMove(s, Hand(ChildMoves(true))) && a == Moved(s, Hand(ChildMoves(true)))
    ensures CanMove(a, Take(e)) && b == Moved(a, Take(e))
    ensures CanMove(b, Hand(ChildMoves(true))) && c == Moved(b, Hand(ChildMoves(true)))
    ensures CanMove(c, Hand(ChildMoves(true))) && d == Moved(c, Hand(ChildMoves(true)))
    ensures CanMove(d, End(e)) && t == Moved(d, End(e))
    ensures t.calls == s.calls[e := Returned(true)] && !t.fifo && t.h.chi.CUser?
  {
    assert HoldsOpen(s.calls[e]);
    a := Moved(s, Hand(ChildMoves(true)));
    b := Moved(a, Take(e));
    assert HoldsOpen(b.calls[e]);
    c := Moved(b, Hand(ChildMoves(true)));
    d := Moved(c, Hand(ChildMoves(true)));
    t := Moved(d, End(e));
  }

  lemma RunsOn(states: seq<Sys>, moves: seq<Move>, m: Move, t: Sys)
    requires FifoRuns(states, moves) && CanMove(states[|moves|], m) && t == Moved(states[|moves|], m)
    ensures FifoRuns(states + [t], moves + [m])
  {
  }

  /** An Exec on a child that waits at the FIFO lets it go on to the user's program and
      returns nil. */
  lemma ExecSucceeds(s: Sys, e: nat) returns (states: seq<Sys>, moves: seq<Move>)
    requires FifoInv(s) && s.h.chi.CFifo? && s.fifo && e < |s.calls| && s.calls[e].Idle?
    ensures FifoRuns(states, moves) && states[0] == s
    ensures var t := states[|moves|]; t.calls == s.calls[e := Returned(true)] && !t.fifo && t.h.chi.CUser?
  {
    var hand := Hand(ChildMoves(true));
    var a, b, c := ExecOpens(s, e);
    states, moves := [s], [];
    RunsOn(states, moves, Begin(e), a);
    states, moves := states + [a], moves + [Begin(e)];
    RunsOn(states, moves, hand, b);
    states, moves := states + [b], moves + [hand];
    RunsOn(states, moves, Open(e), c);
    states, moves := states + [c], moves + [Open(e)];
    var more, t := ExecEnds(states, moves, c, e);
    states, moves := states + more.0, moves + more.1;
  }

  lemma ExecEnds(states: seq<Sys>, moves: seq<Move>, s: Sys, e: nat) returns (more: (seq<Sys>, seq<Move>), t: Sys)
    requires FifoRuns(states, moves) && s == states[|moves|]
    requires s.h.chi.CWrite? && s.fifo && s.bytes == 0 && e < |s.calls| && s.calls[e].Reading?
    ensures FifoRuns(states + more.0, moves + more.1) && more.0 != [] && t == more.0[|more.0| - 1]
    ensures t.calls == s.calls[e := Returned(true)] && !t.fifo && t.h.chi.CUser?
  {
    var hand := Hand(ChildMoves(true));
    var a, b, c, d, end := ExecReads(s, e);
    t := end;
    more := ([a, b, c, d, t], [hand, Take(e), hand, hand, End(e)]);
    RunsOn(states, moves, hand, a);
    RunsOn(states + [a], moves + [hand], Take(e), b);
    RunsOn(states + [a] + [b], moves + [hand] + [Take(e)], hand, c);
    RunsOn(states + [a] + [b] + [c], moves + [hand] + [Take(e)] + [hand], hand, d);
    RunsOn(states + [a] + [b] + [c] + [d], moves + [hand] + [Take(e)] + [hand] + [hand], End(e), t);
    assert states + more.0 == states + [a] + [b] + [c] + [d] + [t];
    assert moves + more.1 == moves + [hand] + [Take(e)] + [hand] + [hand] + [End(e)];
  }
}
