/** The status of a container, recomputed from the operating system on every request
    (libmocktainer/container_linux.go, libmocktainer/state_linux.go,
    libmocktainer/factory_linux.go). One container, one Start, any number of container
    objects in any number of processes, and an operating system that changes between
    any two looks at it. The statuses are those of the OCI Runtime Specification
    v1.1.0, runtime.md, "State". */
module ContainerStatus {
  import opened Options

  datatype Status = Created | Running | Stopped

  /** `containerState`: one of the three, or loaded and not yet refreshed. */
  datatype CState = Is(s: Status) | Loaded

  datatype Error = NoError | TransitionError | StillRunning

  /** The `transition` methods. `again` is what the running state finds when it looks
      a second time. */
  function Transition(st: CState, to: Status, again: Status): (CState, Error) {
    match st
    case Loaded => (Is(to), NoError)
    case Is(Stopped) => if to.Created? then (st, TransitionError) else (Is(to), NoError)
    case Is(Running) =>
      if to.Created? then (st, TransitionError)
      else if to.Stopped? && again.Running? then (st, StillRunning)
      else (Is(to), NoError)
    case Is(Created) => (Is(to), NoError)
  }

  // The operating system.

  datatype Proc = Proc(start: nat, zombie: bool)

  /** A process for good: a pid with the start time of one of its uses. */
  datatype Rec = Rec(pid: nat, start: nat)

  /** `child`: the init process that Start made. `made`: the exec FIFO was made.
      `killed`: the processes that were sent SIGKILL. */
  datatype Os = Os(
    procs: map<nat, Proc>, used: set<Rec>, child: Option<Rec>, made: bool, fifo: bool, saved: Option<Rec>,
    killed: set<Rec>)

  predicate Alive(os: Os, r: Rec) {
    r.pid in os.procs && os.procs[r.pid].start == r.start && !os.procs[r.pid].zombie
  }

  predicate OsOk(os: Os) {
    && (forall p | p in os.procs :: Rec(p, os.procs[p].start) in os.used && os.procs[p].start != 0)
    && (os.child.Some? ==> os.child.value in os.used && os.child.value.start != 0 && os.made)
    && (os.saved.Some? ==> os.saved == os.child)
    && (os.fifo ==> os.made)
  }

  /** The recorded init is dead or was sent SIGKILL first. */
  predicate Safe(os: Os) {
    os.child.Some? ==> !Alive(os, os.child.value) || os.child.value in os.killed
  }

  predicate Ended(os: Os) { os.child.Some? ==> !Alive(os, os.child.value) }

  predicate FifoOver(os: Os) { os.made && !os.fifo }

  // The objects.

  datatype Phase = Fresh | FifoMade | Spawned | After

  /** Why an object looks at the process: to refresh, perhaps on the way to destroy; for
      the second look of the running state; or to destroy while running. */
  datatype Why = Refresh(destroy: bool) | Second(destroy: bool) | Dying

  /** `runType` looks at the process, then at the FIFO; then its answer is used. */
  datatype Act = Free | Look(why: Why) | Check(why: Why) | Got(why: Why, t: Status) | Kill | Remove

  datatype Obj = Obj(st: CState, init: Option<nat>, start: nat, phase: Phase, act: Act)

  datatype Sys = Sys(os: Os, objs: seq<Obj>, failed: bool)

  /** The `destroy` methods, up to their first look or effect. */
  function Dispatch(st: CState): Act {
    match st
    case Is(Stopped) => Remove
    case Is(Running) => Look(Dying)
    case Is(Created) => Kill
    case Loaded => Look(Refresh(true))
  }

  function Finish(o: Obj, destroy: bool, r: (CState, Error)): (Obj, bool) {
    if !r.1.NoError? then (o.(act := Free), true)
    else (o.(st := r.0, act := if destroy then Dispatch(r.0) else Free), false)
  }

  function Matches(os: Os, o: Obj): bool { o.init.Some? && Alive(os, Rec(o.init.value, o.start)) }

  /** SIGKILL goes to whatever has the pid now. */
  function KillPid(os: Os, init: Option<nat>): Os {
    if init.Some? && init.value in os.procs
    then os.(killed := os.killed + {Rec(init.value, os.procs[init.value].start)})
    else os
  }

  /** The next micro-step of an object that is at work. */
  function Work(os: Os, o: Obj): (Os, Obj, bool)
    requires !o.act.Free?
  {
    match o.act
    case Look(w) => (os, o.(act := if Matches(os, o) then Check(w) else Got(w, Stopped)), false)
    case Check(w) => (os, o.(act := Got(w, if os.fifo then Created else Running)), false)
    case Got(Refresh(d), t) =>
      if o.st == Is(Running) && t.Stopped? then (os, o.(act := Look(Second(d))), false)
      else var (o', bad) := Finish(o, d, Transition(o.st, t, t)); (os, o', bad)
    case Got(Second(d), t) => var (o', bad) := Finish(o, d, Transition(o.st, Stopped, t)); (os, o', bad)
    case Got(Dying, t) => (os, o.(act := if t.Running? then Free else Remove), false)
    case Kill => (KillPid(os, o.init), o.(act := Remove), false)
    case Remove =>
      (os.(fifo := false, saved := None), o.(st := Is(Stopped), init := None, act := Free), false)
  }

  // The steps.

  datatype Step =
    | Spawn(pid: nat, start: nat)
    | Die(pid: nat)
    | Reap(pid: nat)
    | FifoRemoved
    | MakeFifo
    | SpawnInit(pid: nat, start: nat)
    | Ready(saves: bool)
    | StartFails
    | Load
    | AskStatus(i: nat)
    | AskDestroy(i: nat)
    | Works(i: nat)

  predicate NewProc(os: Os, pid: nat, start: nat) { pid !in os.procs && start != 0 && Rec(pid, start) !in os.used }

  predicate Enabled(s: Sys, st: Step) {
    |s.objs| > 0 &&
    match st
    case Spawn(pid, start) => NewProc(s.os, pid, start)
    case Die(pid) => pid in s.os.procs
    case Reap(pid) =>
      pid in s.os.procs && s.os.procs[pid].zombie &&
      !(s.objs[0].phase.Spawned? && s.os.child.Some? && s.os.child.value.pid == pid)
    case FifoRemoved => true
    case MakeFifo => s.objs[0].phase.Fresh? && s.objs[0].act.Free? && !s.os.made && s.objs[0].st == Is(Stopped)
    case SpawnInit(pid, start) => s.objs[0].phase.FifoMade? && s.objs[0].act.Free? && NewProc(s.os, pid, start)
    case Ready(_) => s.objs[0].phase.Spawned? && s.objs[0].act.Free?
    case StartFails => (s.objs[0].phase.FifoMade? || s.objs[0].phase.Spawned?) && s.objs[0].act.Free?
    case Load => s.os.saved.Some?
    case AskStatus(i) => i < |s.objs| && s.objs[i].act.Free?
    case AskDestroy(i) => i < |s.objs| && s.objs[i].act.Free? && (s.objs[i].phase.Fresh? || s.objs[i].phase.After?)
    case Works(i) => i < |s.objs| && !s.objs[i].act.Free?
  }

  function Born(os: Os, pid: nat, start: nat): Os {
    os.(procs := os.procs[pid := Proc(start, false)], used := os.used + {Rec(pid, start)})
  }

  function Reaped(os: Os, pid: nat): Os { os.(procs := os.procs - {pid}) }

  /** What is recorded of the init: its pid, and its start time if it can be found. */
  function Seen(os: Os, c: Obj): Rec {
    if c.init.None? then Rec(0, 0)
    else Rec(c.init.value, if c.init.value in os.procs then os.procs[c.init.value].start else 0)
  }

  /** `terminate` kills the init and waits for it; then the FIFO is deleted. */
  function Abandoned(os: Os): Os {
    (if os.child.Some? then Reaped(os, os.child.value.pid) else os).(fifo := false)
  }

  function ApplyOs(s: Sys, st: Step): Os
    requires Enabled(s, st)
  {
    match st
    case Spawn(pid, start) => Born(s.os, pid, start)
    case Die(pid) => s.os.(procs := s.os.procs[pid := s.os.procs[pid].(zombie := true)])
    case Reap(pid) => Reaped(s.os, pid)
    case FifoRemoved => s.os.(fifo := false)
    case MakeFifo => s.os.(made := true, fifo := true)
    case SpawnInit(pid, start) => Born(s.os, pid, start).(child := Some(Rec(pid, start)))
    case Ready(saves) => if saves then s.os.(saved := Some(Seen(s.os, s.objs[0]))) else s.os
    case StartFails => Abandoned(s.os)
    case Works(i) => Work(s.os, s.objs[i]).0
    case _ => s.os
  }

  function ApplyObjs(s: Sys, st: Step): seq<Obj>
    requires Enabled(s, st)
  {
    var c := s.objs[0];
    match st
    case MakeFifo => s.objs[0 := c.(phase := FifoMade)]
    case SpawnInit(pid, _) => s.objs[0 := c.(phase := Spawned, init := Some(pid))]
    case Ready(saves) =>
      s.objs[0 := if saves then c.(st := Is(Created), start := Seen(s.os, c).start, phase := After)
                  else c.(st := Is(Created))]
    case StartFails => s.objs[0 := c.(phase := After)]
    case Load => s.objs + [Obj(Loaded, Some(s.os.saved.value.pid), s.os.saved.value.start, After, Look(Refresh(false)))]
    case AskStatus(i) => s.objs[i := s.objs[i].(act := Look(Refresh(false)))]
    case AskDestroy(i) => s.objs[i := s.objs[i].(act := Dispatch(s.objs[i].st))]
    case Works(i) => s.objs[i := Work(s.os, s.objs[i]).1]
    case _ => s.objs
  }

  function Apply(s: Sys, st: Step): Sys
    requires Enabled(s, st)
  {
    Sys(ApplyOs(s, st), ApplyObjs(s, st), s.failed || (st.Works? && Work(s.os, s.objs[st.i]).2))
  }

  // What every run keeps.

  /** The object's record is that of the child, or no process matches it. */
  predicate RecordOk(os: Os, o: Obj) {
    && (o.init.Some? ==>
          os.child.Some? && o.init.value == os.child.value.pid && (o.start == 0 || o.start == os.child.value.start))
    && (o.phase.After? && o.init.Some? && o.start == 0 ==> Ended(os))
    && (o.init.None? && o.phase.After? ==> Safe(os))
    && ((o.phase.Fresh? || o.phase.FifoMade?) ==> o.init.None? && o.start == 0 && os.child.None?)
    && (o.phase.Spawned? ==> o.init.Some? && o.start == 0 && os.child.value.pid in os.procs &&
                             os.procs[os.child.value.pid].start == os.child.value.start)
  }

  predicate NoMatch(os: Os, o: Obj) { o.init.None? || o.start == 0 || Ended(os) }

  predicate StateOk(os: Os, o: Obj) {
    match o.st
    case Is(Stopped) => NoMatch(os, o)
    case Is(Running) => o.phase.After? && o.init.Some? && FifoOver(os)
    case Is(Created) => o.init.Some?
    case Loaded => o.phase.After? && o.init.Some?
  }

  predicate ActOk(os: Os, o: Obj) {
    match o.act
    case Free => true
    case Look(w) => WhyOk(os, o, w)
    case Check(w) => WhyOk(os, o, w) && !w.Second? && o.st != Is(Stopped) && o.init.Some? && o.start != 0
    case Got(w, t) =>
      && WhyOk(os, o, w)
      && (t.Stopped? ==> NoMatch(os, o))
      && (!t.Stopped? ==> !w.Second? && o.st != Is(Stopped) && o.init.Some? && o.start != 0)
      && (t.Running? ==> FifoOver(os))
      && (t.Created? ==> o.st != Is(Running))
    case Kill => o.st == Is(Created) && o.phase.After?
    case Remove => (o.phase.After? || o.phase.Fresh?) && Safe(os)
  }

  predicate WhyOk(os: Os, o: Obj, w: Why) {
    match w
    case Refresh(d) => d ==> o.phase.After?
    case Second(d) => o.st == Is(Running) && NoMatch(os, o) && (d ==> o.phase.After?)
    case Dying => o.st == Is(Running)
  }

  predicate ObjOk(os: Os, o: Obj) { RecordOk(os, o) && StateOk(os, o) && ActOk(os, o) }

  ghost predicate Inv(s: Sys) {
    && OsOk(s.os)
    && |s.objs| > 0
    && (forall i | 0 <= i < |s.objs| :: ObjOk(s.os, s.objs[i]))
    && (forall i | 0 < i < |s.objs| :: s.objs[i].phase.After?)
    && (s.os.child.None? ==> |s.objs| == 1)
    && (s.objs[0].phase.Fresh? ==> !s.os.made)
    && (s.objs[0].phase.FifoMade? ==> s.os.made)
    && !s.failed
  }

  /** What is over stays over. */
  predicate Later(os: Os, os': Os) {
    && os'.child == os.child
    && (Ended(os) ==> Ended(os'))
    && (Safe(os) ==> Safe(os'))
    && (FifoOver(os) ==> FifoOver(os'))
  }

  lemma LaterKeeps(os: Os, os': Os, o: Obj)
    requires ObjOk(os, o) && Later(os, os') && !o.phase.Spawned?
    ensures ObjOk(os', o)
  {
  }

  /** No start time of a pid comes twice: a process that is gone stays gone. */
  lemma BornKeeps(os: Os, pid: nat, start: nat)
    requires OsOk(os) && NewProc(os, pid, start)
    ensures OsOk(Born(os, pid, start)) && Later(os, Born(os, pid, start))
  {
  }

  predicate EnvStep(st: Step) { st.Spawn? || st.Die? || st.Reap? || st.FifoRemoved? }

  lemma EnvLater(s: Sys, st: Step)
    requires OsOk(s.os) && Enabled(s, st) && EnvStep(st)
    ensures OsOk(ApplyOs(s, st)) && Later(s.os, ApplyOs(s, st))
  {
    if st.Spawn? {
      BornKeeps(s.os, st.pid, st.start);
    }
  }

  lemma EnvKeepsSpawned(s: Sys, st: Step)
    requires Inv(s) && Enabled(s, st) && EnvStep(st) && s.objs[0].phase.Spawned?
    ensures ObjOk(ApplyOs(s, st), s.objs[0])
  {
    EnvLater(s, st);
    assert ObjOk(s.os, s.objs[0]);
  }

  lemma EnvKeeps(s: Sys, st: Step)
    requires Inv(s) && Enabled(s, st) && EnvStep(st)
    ensures Inv(Apply(s, st))
  {
    EnvLater(s, st);
    var os' := ApplyOs(s, st);
    forall i | 0 <= i < |s.objs| ensures ObjOk(os', s.objs[i]) {
      if s.objs[i].phase.Spawned? {
        EnvKeepsSpawned(s, st);
      } else {
        LaterKeeps(s.os, os', s.objs[i]);
      }
    }
  }

  lemma StartKeeps(s: Sys, st: Step)
    requires Inv(s) && Enabled(s, st) && (st.MakeFifo? || st.SpawnInit?)
    ensures Inv(Apply(s, st))
  {
    assert ObjOk(s.os, s.objs[0]);
    assert |s.objs| == 1;
  }

  lemma SpawnedIsSeen(os: Os, c: Obj)
    requires RecordOk(os, c) && c.phase.Spawned?
    ensures os.child == Some(Seen(os, c))
  {
  }

  lemma ReadyKeeps(s: Sys, st: Step)
    requires Inv(s) && Enabled(s, st) && st.Ready?
    ensures Inv(Apply(s, st))
  {
    var c, os' := s.objs[0], ApplyOs(s, st);
    assert ObjOk(s.os, c);
    SpawnedIsSeen(s.os, c);
    assert Later(s.os, os');
    forall i | 0 < i < |s.objs| ensures ObjOk(os', s.objs[i]) {
      LaterKeeps(s.os, os', s.objs[i]);
    }
  }

  lemma FailKeeps(s: Sys, st: Step)
    requires Inv(s) && Enabled(s, st) && st.StartFails?
    ensures Inv(Apply(s, st))
  {
    var c, os' := s.objs[0], ApplyOs(s, st);
    assert ObjOk(s.os, c);
    assert Later(s.os, os');
    forall i | 0 < i < |s.objs| ensures ObjOk(os', s.objs[i]) {
      LaterKeeps(s.os, os', s.objs[i]);
    }
  }

  lemma AskKeeps(s: Sys, st: Step)
    requires Inv(s) && Enabled(s, st) && (st.Load? || st.AskStatus? || st.AskDestroy?)
    ensures Inv(Apply(s, st))
  {
    if !st.Load? {
      assert ObjOk(s.os, s.objs[st.i]);
    }
  }

  lemma WorkIsLater(os: Os, o: Obj)
    requires OsOk(os) && ObjOk(os, o) && !o.act.Free?
    ensures OsOk(Work(os, o).0) && Later(os, Work(os, o).0)
    ensures Work(os, o).0.procs == os.procs && Work(os, o).0.made == os.made
  {
  }

  /** The object after its micro-step is as it should be, and no error came up. */
  predicate FineWork(os: Os, o: Obj)
    requires !o.act.Free?
  {
    ObjOk(Work(os, o).0, Work(os, o).1) && !Work(os, o).2 && Work(os, o).1.phase == o.phase
  }

  lemma LookIsFine(os: Os, o: Obj)
    requires OsOk(os) && ObjOk(os, o) && (o.act.Look? || o.act.Check?)
    ensures FineWork(os, o)
  {
  }

  /** An answer never asks for a transition that is refused. */
  lemma AnswerIsFine(os: Os, o: Obj, t: Status)
    requires ObjOk(os, o) && o.act.Got? && !o.act.why.Dying? && t == (if o.act.why.Second? then Stopped else o.act.t)
    requires !(o.act.why.Refresh? && o.st == Is(Running) && t.Stopped?)
    ensures Transition(o.st, t, o.act.t) == (Is(t), NoError)
    ensures StateOk(os, o.(st := Is(t)))
  {
  }

  lemma DispatchIsFine(os: Os, o: Obj)
    requires OsOk(os) && RecordOk(os, o) && StateOk(os, o) && o.phase.After? && !o.st.Loaded?
    ensures ActOk(os, o.(act := Dispatch(o.st)))
  {
  }

  lemma GotIsFine(os: Os, o: Obj)
    requires OsOk(os) && ObjOk(os, o) && o.act.Got?
    ensures FineWork(os, o)
  {
    var w := o.act.why;
    if w.Refresh? && o.st == Is(Running) && o.act.t.Stopped? {
    } else if !w.Dying? {
      var t := if w.Second? then Stopped else o.act.t;
      AnswerIsFine(os, o, t);
      if w.destroy {
        DispatchIsFine(os, o.(st := Is(t)));
      }
    }
  }

  lemma WorkIsOk(os: Os, o: Obj)
    requires OsOk(os) && ObjOk(os, o) && !o.act.Free?
    ensures FineWork(os, o)
  {
    if o.act.Look? || o.act.Check? {
      LookIsFine(os, o);
    } else if o.act.Got? {
      GotIsFine(os, o);
    }
  }

  lemma WorksKeeps(s: Sys, st: Step)
    requires Inv(s) && Enabled(s, st) && st.Works?
    ensures Inv(Apply(s, st))
  {
    var o, os' := s.objs[st.i], ApplyOs(s, st);
    assert ObjOk(s.os, o);
    WorkIsLater(s.os, o);
    WorkIsOk(s.os, o);
    forall i | 0 <= i < |s.objs| && i != st.i ensures ObjOk(os', s.objs[i]) {
      if !s.objs[i].phase.Spawned? {
        LaterKeeps(s.os, os', s.objs[i]);
      }
    }
  }

  /** Every step keeps the invariant: no refresh ever returns an error. */
  lemma StepInv(s: Sys, st: Step)
    requires Inv(s) && Enabled(s, st)
    ensures Inv(Apply(s, st))
  {
    if EnvStep(st) {
      EnvKeeps(s, st);
    } else if st.Works? {
      WorksKeeps(s, st);
    } else if st.MakeFifo? || st.SpawnInit? {
      StartKeeps(s, st);
    } else if st.Ready? {
      ReadyKeeps(s, st);
    } else if st.StartFails? {
      FailKeeps(s, st);
    } else {
      AskKeeps(s, st);
    }
  }

  // Whole runs.

  function Init(procs: map<nat, Proc>, used: set<Rec>): Sys {
    Sys(Os(procs, used, None, false, false, None, {}), [Obj(Is(Stopped), None, 0, Fresh, Free)], false)
  }

  predicate Runs(states: seq<Sys>, steps: seq<Step>) {
    && |states| == |steps| + 1
    && OsOk(states[0].os) && states[0] == Init(states[0].os.procs, states[0].os.used)
    && forall k | 0 <= k < |steps| :: Enabled(states[k], steps[k]) && states[k + 1] == Apply(states[k], steps[k])
  }

  /** `refreshState` never returns an error, in any run. */
  lemma {:induction false} RunInv(states: seq<Sys>, steps: seq<Step>, k: nat)
    requires Runs(states, steps) && k < |states|
    ensures Inv(states[k]) && !states[k].failed
    decreases k
  {
    if k > 0 {
      RunInv(states, steps, k - 1);
      StepInv(states[k - 1], steps[k - 1]);
    }
  }

  function Rank(t: Status): nat { match t case Created => 0 case Running => 1 case Stopped => 2 }

  /** After Start an object's status only moves forward. */
  predicate Forward(o: Obj, o': Obj) {
    o.phase.After? ==> o'.phase.After? && (o.st.Is? ==> o'.st.Is? && Rank(o.st.s) <= Rank(o'.st.s))
  }

  lemma WorkMovesForward(os: Os, o: Obj)
    requires OsOk(os) && ObjOk(os, o) && !o.act.Free?
    ensures Forward(o, Work(os, o).1)
  {
    WorkIsOk(os, o);
    if o.act.Got? && !o.act.why.Dying? && !(o.act.why.Refresh? && o.st == Is(Running) && o.act.t.Stopped?) {
      AnswerIsFine(os, o, if o.act.why.Second? then Stopped else o.act.t);
    }
  }

  lemma StepMovesForward(s: Sys, st: Step, i: nat)
    requires Inv(s) && Enabled(s, st) && i < |s.objs|
    ensures i < |Apply(s, st).objs| && Forward(s.objs[i], Apply(s, st).objs[i])
  {
    assert ObjOk(s.os, s.objs[i]);
    if st.Works? && st.i == i {
      WorkMovesForward(s.os, s.objs[i]);
    }
  }

  lemma {:induction false} StatusMovesForward(states: seq<Sys>, steps: seq<Step>, i: nat, k: nat, m: nat)
    requires Runs(states, steps) && k <= m < |states| && i < |states[k].objs|
    ensures i < |states[m].objs| && Forward(states[k].objs[i], states[m].objs[i])
    decreases m
  {
    if k < m {
      StatusMovesForward(states, steps, i, k, m - 1);
      RunInv(states, steps, m - 1);
      StepMovesForward(states[m - 1], steps[m - 1], i);
    }
  }

  /** `Destroy` removes the container's directory only when its init is dead or was sent
      SIGKILL before. */
  lemma RemovesSafely(s: Sys, i: nat)
    requires Inv(s) && i < |s.objs| && s.objs[i].act.Remove?
    ensures Safe(s.os)
  {
    assert ObjOk(s.os, s.objs[i]);
  }

  // Objects of different processes.

  /** The object will find nothing older than t. */
  predicate NotBefore(s: Sys, j: nat, t: Status) {
    && (t.Running? ==> FifoOver(s.os) && (j < |s.objs| && s.objs[j].act.Got? ==> !s.objs[j].act.t.Created?))
    && (t.Stopped? ==>
          && s.os.child.Some? && Ended(s.os)
          && (j < |s.objs| ==> !s.objs[j].act.Check? && (s.objs[j].act.Got? ==> s.objs[j].act.t.Stopped?)))
  }

  /** What one object found out holds for all that begin to look afterwards. */
  lemma OneFindsForAll(s: Sys, i: nat, j: nat)
    requires Inv(s) && i < |s.objs| && s.objs[i].phase.After? && s.objs[i].init.Some? && s.objs[i].st.Is?
    requires j < |s.objs| ==> s.objs[j].act.Free?
    ensures NotBefore(s, j, s.objs[i].st.s)
  {
    assert ObjOk(s.os, s.objs[i]);
  }

  lemma StepIsLater(s: Sys, st: Step)
    requires Inv(s) && Enabled(s, st) && s.os.made
    ensures FifoOver(s.os) ==> FifoOver(ApplyOs(s, st))
    ensures s.os.child.Some? && Ended(s.os) ==> ApplyOs(s, st).child == s.os.child && Ended(ApplyOs(s, st))
  {
    assert ObjOk(s.os, s.objs[0]);
    if EnvStep(st) {
      EnvLater(s, st);
    } else if st.Works? {
      assert ObjOk(s.os, s.objs[st.i]);
      WorkIsLater(s.os, s.objs[st.i]);
    }
  }

  lemma NotBeforeStays(s: Sys, st: Step, j: nat, t: Status)
    requires Inv(s) && Enabled(s, st) && NotBefore(s, j, t)
    ensures NotBefore(Apply(s, st), j, t)
  {
    if !t.Created? {
      StepIsLater(s, st);
      if j < |s.objs| {
        assert ObjOk(s.os, s.objs[j]);
      }
    }
  }

  lemma {:induction false} NotBeforeInRun(states: seq<Sys>, steps: seq<Step>, k: nat, m: nat, j: nat, t: Status)
    requires Runs(states, steps) && k <= m < |states| && NotBefore(states[k], j, t)
    ensures NotBefore(states[m], j, t)
    decreases m
  {
    if k < m {
      NotBeforeInRun(states, steps, k, m - 1, j, t);
      RunInv(states, steps, m - 1);
      NotBeforeStays(states[m - 1], steps[m - 1], j, t);
    }
  }

  /** Also across objects: once one object, not destroyed, stands at a status, no look
      that begins later, from whatever process, answers with an earlier one. */
  lemma NoOlderAnswer(states: seq<Sys>, steps: seq<Step>, k: nat, m: nat, i: nat, j: nat)
    requires Runs(states, steps) && k <= m < |states| && i < |states[k].objs| && j < |states[m].objs|
    requires var o := states[k].objs[i]; o.phase.After? && o.init.Some? && o.st.Is?
    requires j < |states[k].objs| ==> states[k].objs[j].act.Free?
    requires states[m].objs[j].act.Got?
    ensures Rank(states[k].objs[i].st.s) <= Rank(states[m].objs[j].act.t)
  {
    RunInv(states, steps, k);
    OneFindsForAll(states[k], i, j);
    NotBeforeInRun(states, steps, k, m, j, states[k].objs[i].st.s);
  }

  // The methods of one container, when nobody interferes.

  /** The answer of `runType`. */
  function Observed(os: Os, o: Obj): Status {
    if !Matches(os, o) then Stopped else if os.fifo then Created else Running
  }

  function Left(act: Act): nat {
    match act
    case Free => 0
    case Remove => 1
    case Kill => 2
    case Got(Dying, _) => 3
    case Check(Dying) => 4
    case Look(Dying) => 5
    case Got(Second(_), _) => 6
    case Check(Second(_)) => 7
    case Look(Second(_)) => 8
    case Got(Refresh(_), _) => 9
    case Check(Refresh(_)) => 10
    case Look(Refresh(_)) => 11
  }

  /** The micro-steps of a call, one after the other. */
  function Completed(os: Os, o: Obj): (Os, Obj, Error)
    decreases Left(o.act)
  {
    if o.act.Free? then (os, o, NoError)
    else
      var (os', o', _) := Work(os, o);
      var (os'', o'', err) := Completed(os', o');
      (os'', o'', if o.act == Got(Dying, Running) then StillRunning else err)
  }

  /** What `Destroy` does when nothing happens in between. */
  function Destroyed(os: Os, o: Obj): (Os, Obj, Error) {
    var st := if o.st.Loaded? then Is(Observed(os, o)) else o.st;
    if st == Is(Running) && Observed(os, o).Running? then (os, o.(st := st, act := Free), StillRunning)
    else
      ((if st == Is(Created) then KillPid(os, o.init) else os).(fifo := false, saved := None),
       o.(st := Is(Stopped), init := None, act := Free), NoError)
  }

  lemma LookCompletes(os: Os, o: Obj, w: Why)
    requires o.act == Look(w)
    ensures Completed(os, o) == Completed(os, o.(act := Got(w, Observed(os, o))))
  {
    if Matches(os, o) {
      var o1 := o.(act := Check(w));
      assert Completed(os, o1) == Completed(os, o1.(act := Got(w, Observed(os, o))));
    }
  }

  lemma LastCompletes(os: Os, o: Obj)
    requires o.act == Remove
    ensures Completed(os, o) ==
            (os.(fifo := false, saved := None), o.(st := Is(Stopped), init := None, act := Free), NoError)
  {
    var (os', o', _) := Work(os, o);
    assert Completed(os', o') == (os', o', NoError);
  }

  lemma RemoveCompletes(os: Os, o: Obj)
    requires o.act == Dispatch(o.st) && !o.st.Loaded?
    ensures Completed(os, o) == Destroyed(os, o)
  {
    if o.act.Look? {
      LookCompletes(os, o, Dying);
      var o1 := o.(act := Got(Dying, Observed(os, o)));
      if !Observed(os, o).Running? {
        assert Completed(os, o1) == Completed(os, o1.(act := Remove));
        LastCompletes(os, o1.(act := Remove));
      }
    } else if o.act.Kill? {
      assert Completed(os, o) == Completed(KillPid(os, o.init), o.(act := Remove));
      LastCompletes(KillPid(os, o.init), o.(act := Remove));
    } else {
      LastCompletes(os, o);
    }
  }

  lemma DestroyCompletes(os: Os, o: Obj)
    ensures Completed(os, o.(act := Dispatch(o.st))) == Destroyed(os, o)
  {
    var o0 := o.(act := Dispatch(o.st));
    if o.st.Loaded? {
      var t := Observed(os, o);
      LookCompletes(os, o0, Refresh(true));
      var o1, o2 := o.(act := Got(Refresh(true), t)), o.(st := Is(t), act := Dispatch(Is(t)));
      assert Completed(os, o1) == Completed(os, o2);
      RemoveCompletes(os, o2);
    } else {
      RemoveCompletes(os, o0);
    }
  }

  class Machine {
    var os: Os
    constructor (os: Os) ensures this.os == os { this.os := os; }
  }

  class Container {
    const machine: Machine
    var state: CState
    var init: Option<nat>
    var start: nat

    constructor (machine: Machine, state: CState, init: Option<nat>, start: nat)
      ensures this.machine == machine && Value() == Obj(state, init, start, After, Free)
    {
      this.machine, this.state, this.init, this.start := machine, state, init, start;
    }

    ghost function Value(): Obj
      reads this
    {
      Obj(state, init, start, After, Free)
    }

    /** The process on record is there and no zombie. */
    ghost predicate Live()
      reads this, machine
    {
      init.Some? && init.value in machine.os.procs && machine.os.procs[init.value] == Proc(start, false)
    }

    method RunType() returns (t: Status)
      ensures t == Observed(machine.os, Value())
      ensures t == if !Live() then Stopped else if machine.os.fifo then Created else Running
    {
      if init.None? {
        return Stopped;
      }
      var os := machine.os;
      if init.value !in os.procs {
        return Stopped;
      }
      var stat := os.procs[init.value];
      if stat.start != start || stat.zombie {
        return Stopped;
      }
      return if os.fifo then Created else Running;
    }

    method RefreshState() returns (err: Error)
      modifies this`state
      ensures var t := Observed(machine.os, old(Value())); (state, err) == Transition(old(state), t, t)
      ensures err.NoError? ==> state == Is(if !Live() then Stopped else if machine.os.fifo then Created else Running)
      ensures !err.NoError? ==> state == old(state) && err.TransitionError?
      ensures err.TransitionError? <==>
                Live() && machine.os.fifo && (old(state) == Is(Stopped) || old(state) == Is(Running))
    {
      var t := RunType();
      err := NoError;
      match state {
        case Is(Stopped) =>
          if t.Created? { err := TransitionError; } else { state := Is(t); }
        case Is(Running) =>
          if t.Stopped? {
            var again := RunType();
            if again.Running? { err := StillRunning; } else { state := Is(t); }
          } else if t.Created? {
            err := TransitionError;
          }
        case Is(Created) => state := Is(t);
        case Loaded => state := Is(t);
      }
    }

    /** `destroy` itself: remove the directory, forget the process. */
    method DestroyNow()
      modifies this, machine
      ensures machine.os == old(machine.os).(fifo := false, saved := None)
      ensures Value() == old(Value()).(st := Is(Stopped), init := None)
    {
      machine.os := machine.os.(fifo := false, saved := None);
      init := None;
      state := Is(Stopped);
    }

    method Destroy() returns (err: Error)
      modifies this, machine
      ensures (machine.os, Value(), err) == Completed(old(machine.os), old(Value()).(act := Dispatch(old(state))))
      ensures err == if old(Live()) && !old(machine.os).fifo && (old(state) == Is(Running) || old(state).Loaded?)
                     then StillRunning else NoError
      ensures !err.NoError? ==> machine.os == old(machine.os) && state == Is(Running)
      ensures err.NoError? ==>
                && state == Is(Stopped) && init.None? && !machine.os.fifo && machine.os.saved.None?
                && machine.os.procs == old(machine.os).procs
                && machine.os.killed == old(machine.os).killed +
                     if (old(state) == Is(Created) || (old(state).Loaded? && old(Live()))) && old(init).Some? &&
                        old(init).value in old(machine.os).procs
                     then {Rec(old(init).value, old(machine.os).procs[old(init).value].start)} else {}
    {
      err := NoError;
      DestroyCompletes(machine.os, Value());
      if state.Loaded? {
        err := RefreshState();
        if !err.NoError? {
          return;
        }
      }
      if state == Is(Created) {
        machine.os := KillPid(machine.os, init);
      } else if state == Is(Running) {
        var t := RunType();
        if t.Running? {
          return StillRunning;
        }
      }
      DestroyNow();
    }
  }
}
