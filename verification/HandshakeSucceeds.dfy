/** The start of a container in which no call fails and nobody is killed (libmocktainer):
    whatever the interleaving, it comes to its end after a bounded number of steps, the
    parent returns nil, and the child goes through the whole order of events. */
module HandshakeSucceeds {
  import opened Handshake

  /** A step that works; the child writes to the FIFO while an Exec has it open. */
  predicate Works(s: State, st: Step) {
    st.ParentMoves? || (st.ChildMoves? && (s.chi.CWrite? ==> st.reader))
  }

  predicate GoingWell(par: Par) {
    !(par.PTerminate? || par.PDead? || par == PShutdown(false) || par == PDone(false))
  }

  ghost predicate Well(s: State) {
    Inv(s) && !s.chi.CFail? && !s.chi.CDead? && GoingWell(s.par) && !s.silent && !s.gotError && !s.shutdownFailed
  }

  lemma ParentWorks(s: State)
    requires Well(s) && ParentEnabled(s)
    ensures var r := ParentStep(s); !r.chi.CFail? && !r.chi.CDead? && GoingWell(r.par)
    ensures var r := ParentStep(s); !r.silent && !r.gotError && !r.shutdownFailed && r.hooks == s.hooks
  {
  }

  lemma ChildWorks(s: State, reader: bool)
    requires Well(s) && ChildEnabled(s, reader) && (s.chi.CWrite? ==> reader)
    ensures var r := ChildStep(s, reader); !r.chi.CFail? && !r.chi.CDead? && GoingWell(r.par)
    ensures var r := ChildStep(s, reader); !r.silent && !r.gotError && !r.shutdownFailed && r.hooks == s.hooks
  {
  }

  lemma StaysWell(s: State, st: Step)
    requires Well(s) && Enabled(s, st) && Works(s, st)
    ensures Well(Apply(s, st)) && Apply(s, st).hooks == s.hooks
  {
    StepInv(s, st);
    if st.ParentMoves? {
      ParentWorks(s);
    } else {
      ChildWorks(s, st.reader);
    }
  }

  // Every step gets nearer to the end.

  function ChildRank(chi: Chi): nat {
    match chi
    case CConfig => 0
    case CSetup => 1
    case CHooks => 2
    case CResume => 3
    case CCreateContainer => 4
    case CReady => 5
    case CRun => 6
    case CFinal => 7
    case CClose => 8
    case CLog => 9
    case CFifo => 10
    case CWrite => 11
    case CStartContainer => 12
    case CExec => 13
    case _ => 14
  }

  function ParentRank(s: State): nat {
    match s.par
    case PSend => 0
    case PRead => if |s.trace| == 0 then 1 else if |s.trace| < Lead(s) + 5 then 5 else 8
    case PPrestart => 2
    case PCreateRuntime => 3
    case PResume => 4
    case PSave => 6
    case PRun => 7
    case PShutdown(_) => 9
    case _ => 10
  }

  lemma ParentGetsOn(s: State)
    requires Well(s) && ParentEnabled(s)
    ensures ParentRank(ParentStep(s)) > ParentRank(s) && ParentStep(s).chi == s.chi
  {
  }

  lemma ChildGetsOn(s: State, reader: bool)
    requires Well(s) && ChildEnabled(s, reader) && (s.chi.CWrite? ==> reader)
    ensures var r := ChildStep(s, reader); ChildRank(r.chi) > ChildRank(s.chi) && ParentRank(r) >= ParentRank(s)
  {
  }

  predicate AtLeast(s: State, k: nat) { ParentRank(s) + ChildRank(s.chi) >= k }

  lemma GetsOn(s: State, st: Step, r: State, k: nat)
    requires Well(s) && Enabled(s, st) && Works(s, st) && r == Apply(s, st) && AtLeast(s, k)
    ensures Well(r) && r.hooks == s.hooks && AtLeast(r, k + 1)
  {
    StaysWell(s, st);
    if st.ParentMoves? {
      ParentGetsOn(s);
    } else {
      ChildGetsOn(s, st.reader);
    }
  }

  ghost predicate GoodRun(states: seq<State>, steps: seq<Step>, hooks: bool) {
    Runs(states, steps) && states[0] == Init(hooks) && forall k | 0 <= k < |steps| :: Works(states[k], steps[k])
  }

  lemma {:induction false} RunStaysWell(states: seq<State>, steps: seq<Step>, hooks: bool, k: nat)
    requires GoodRun(states, steps, hooks) && k < |states|
    ensures Well(states[k]) && states[k].hooks == hooks && AtLeast(states[k], k)
    decreases k
  {
    if k == 0 {
      InitInv(hooks);
    } else {
      RunStaysWell(states, steps, hooks, k - 1);
      GetsOn(states[k - 1], steps[k - 1], states[k], k - 1);
    }
  }

  /** Where nothing can move any more, the start is over: the parent has returned nil, and
      the child runs the user's program, or waits for an Exec. */
  lemma OverMeansStarted(s: State)
    requires Well(s) && !ParentEnabled(s)
    ensures !ChildEnabled(s, true) ==> s.par == PDone(true) && s.chi.CUser? && s.trace == Order(s.hooks)
    ensures !ChildEnabled(s, false) && s.chi.CFifo? ==>
              s.par == PDone(true) && s.trace == Order(s.hooks)[..Lead(s) + 6]
    ensures !ChildEnabled(s, false) ==> s.chi.CFifo? || s.chi.CUser?
  {
  }

  /** A start in which everything works ends after at most 24 steps, and then it has
      succeeded: the parent returned nil, and with an Exec the child has gone through all
      events to the user's program; without one it waits at the FIFO. */
  lemma StartSucceeds(states: seq<State>, steps: seq<Step>, hooks: bool, s: State)
    requires GoodRun(states, steps, hooks) && s == states[|steps|]
    ensures |steps| <= 24
    ensures !ParentEnabled(s) && !ChildEnabled(s, true) ==> s.par == PDone(true) && s.trace == Order(hooks)
    ensures !ParentEnabled(s) && !ChildEnabled(s, false) && !s.chi.CUser? ==>
              s.par == PDone(true) && s.chi.CFifo? && s.trace == Order(hooks)[..Lead(s) + 6]
  {
    RunStaysWell(states, steps, hooks, |steps|);
    if !ParentEnabled(s) {
      OverMeansStarted(s);
    }
  }
}
