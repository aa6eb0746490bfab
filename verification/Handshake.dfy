/** The start of a container: the parent's side (libmocktainer/process_linux.go) and
    the child's side (libmocktainer/init_linux.go, libmocktainer/rootfs_linux.go,
    libmocktainer/standard_init_linux.go) of the handshake over the init pipe
    (libmocktainer/sync.go), from the moment the parent sends the configuration.
    Either side may fail at any call or be killed at any time. */
module Handshake {
  datatype Msg = Config | ProcHooks | ProcResume | ProcReady | ProcRun | ProcError

  datatype Event =
    Prestart | CreateRuntime | Resume | CreateContainer | Ready | StateSaved | Run | PipeClosed | FifoWrite |
    StartContainer | ExecUser

  /** `initProcess.start`: the loop of parseSync with its callback, then the way out. */
  datatype Par =
    | PSend
    | PRead
    | PPrestart
    | PCreateRuntime
    | PResume
    | PSave
    | PRun
    | PShutdown(ok: bool)
    | PTerminate(shut: bool)
    | PDone(ok: bool)
    | PDead

  /** `startInitialization` and what it calls. */
  datatype Chi =
    | CConfig
    | CSetup
    | CHooks
    | CResume
    | CCreateContainer
    | CReady
    | CRun
    | CFinal
    | CClose
    | CLog
    | CFifo
    | CWrite
    | CStartContainer
    | CExec
    | CUser
    | CFail
    | CDead

  /** `seen` is seenProcReady. `gotError`, `silent` and `shutdownFailed` record that a
      procError was received, that the child ended before it closed the pipe without
      reporting, and that the shutdown of the pipe failed. */
  datatype State = State(hooks: bool, par: Par, chi: Chi, up: seq<Msg>, down: seq<Msg>, seen: bool, gotError: bool,
                         silent: bool, shutdownFailed: bool, trace: seq<Event>)

  function Init(hooks: bool): State {
    State(hooks, PSend, CConfig, [], [], false, false, false, false, [])
  }

  /** The one order of events. */
  function Order(hooks: bool): seq<Event> {
    (if hooks then [Prestart, CreateRuntime] else []) +
    [Resume, CreateContainer, Ready, StateSaved, Run, PipeClosed, FifoWrite, StartContainer, ExecUser]
  }

  /** The number of events before procResume. */
  function Lead(s: State): nat { if s.hooks then 2 else 0 }

  predicate PipeWasClosed(s: State) { |s.trace| >= Lead(s) + 6 }

  /** The child's end is closed: by the child itself or by its death. */
  predicate UpClosed(s: State) {
    s.chi.CLog? || s.chi.CFifo? || s.chi.CWrite? || s.chi.CStartContainer? || s.chi.CExec? || s.chi.CUser? ||
    s.chi.CDead? || (s.chi.CFail? && PipeWasClosed(s))
  }

  predicate ParentClosed(par: Par) { par.PDone? || par.PDead? }

  predicate DownClosed(par: Par) { ParentClosed(par) || (par.PTerminate? && par.shut) }

  function Emit(s: State, e: Event): State { s.(trace := s.trace + [e]) }

  /** SIGKILL from outside, or from the child itself. */
  function KillChild(s: State): State {
    if s.chi.CDead? then s else s.(chi := CDead, silent := s.silent || !PipeWasClosed(s))
  }

  // The parent.

  predicate ParentEnabled(s: State) {
    match s.par
    case PRead => s.up != [] || UpClosed(s)
    case PDone(_) => false
    case PDead => false
    case _ => true
  }

  function Handle(s: State, m: Msg): State {
    match m
    case ProcHooks => s.(par := if s.hooks then PPrestart else PResume)
    case ProcReady => s.(par := PSave, seen := true)
    case ProcError => s.(par := PShutdown(false), gotError := true)
    case _ => s.(par := PShutdown(false))
  }

  /** A write to a child that is gone fails. */
  function Answer(s: State, m: Msg, e: Event): State {
    if UpClosed(s) then s.(par := PShutdown(false)) else Emit(s.(par := PRead, down := s.down + [m]), e)
  }

  function ParentStep(s: State): State
    requires ParentEnabled(s)
  {
    match s.par
    case PSend => if UpClosed(s) then s.(par := PTerminate(false)) else s.(par := PRead, down := s.down + [Config])
    case PRead => if s.up == [] then s.(par := PShutdown(true)) else Handle(s.(up := s.up[1..]), s.up[0])
    case PPrestart => Emit(s.(par := PCreateRuntime), Prestart)
    case PCreateRuntime => Emit(s.(par := PResume), CreateRuntime)
    case PResume => Answer(s, ProcResume, Resume)
    case PSave => Emit(s.(par := PRun), StateSaved)
    case PRun => Answer(s, ProcRun, Run)
    case PShutdown(ok) => if ok && s.seen then s.(par := PDone(true)) else s.(par := PTerminate(true))
    case PTerminate(_) => s.(par := PDone(false), chi := CDead)
  }

  /** A call of the parent fails: sending, a hook, saving the state, or reading what a
      killed child left of a message. */
  predicate ParentMayFail(s: State) {
    s.par.PSend? || s.par.PPrestart? || s.par.PCreateRuntime? || s.par.PResume? || s.par.PSave? || s.par.PRun? ||
    (s.par.PRead? && s.silent)
  }

  function ParentFails(s: State): State
    requires ParentMayFail(s)
  {
    if s.par.PSend? then s.(par := PTerminate(false)) else s.(par := PShutdown(false))
  }

  // The child.

  predicate ChildEnabled(s: State, reader: bool) {
    match s.chi
    case CConfig => s.down != [] || DownClosed(s.par)
    case CResume => s.down != [] || DownClosed(s.par)
    case CRun => s.down != [] || DownClosed(s.par)
    case CFifo => reader
    case CUser => false
    case CDead => false
    case _ => true
  }

  function Await(s: State, m: Msg, next: Chi): State {
    if s.down == [] then s.(chi := CFail)
    else s.(down := s.down[1..], chi := if s.down[0] == m then next else CFail)
  }

  function Tell(s: State, m: Msg, next: Chi): State {
    if ParentClosed(s.par) then s.(chi := CFail) else s.(up := s.up + [m], chi := next)
  }

  /** `reader`: an Exec has the FIFO open for reading. */
  function ChildStep(s: State, reader: bool): State
    requires ChildEnabled(s, reader)
  {
    match s.chi
    case CConfig => Await(s, Config, CSetup)
    case CSetup => s.(chi := CHooks)
    case CHooks => Tell(s, ProcHooks, CResume)
    case CResume => Await(s, ProcResume, CCreateContainer)
    case CCreateContainer => Emit(s.(chi := CReady), CreateContainer)
    case CReady => var t := Tell(s, ProcReady, CRun); if t.chi.CFail? then t else Emit(t, Ready)
    case CRun => Await(s, ProcRun, CFinal)
    case CFinal => if s.par.PDead? then KillChild(s) else s.(chi := CClose)
    case CClose => Emit(s.(chi := CLog), PipeClosed)
    case CLog => s.(chi := CFifo)
    case CFifo => s.(chi := CWrite)
    case CWrite => if reader then Emit(s.(chi := CStartContainer), FifoWrite) else s.(chi := CFail)
    case CStartContainer => Emit(s.(chi := CExec), StartContainer)
    case CExec => Emit(s.(chi := CUser), ExecUser)
    case CFail =>
      s.(chi := CDead, silent := s.silent || (ParentClosed(s.par) && !PipeWasClosed(s)),
         up := if ParentClosed(s.par) || PipeWasClosed(s) then s.up else s.up + [ProcError])
  }

  /** Any step of the child's own work may fail. */
  predicate ChildMayFail(s: State) {
    !(s.chi.CConfig? || s.chi.CResume? || s.chi.CRun? || s.chi.CClose? || s.chi.CUser? || s.chi.CFail? || s.chi.CDead?)
  }

  // The runs.

  datatype Step =
    ParentMoves | ParentFailure | ShutdownFailure | ParentKilled | ChildMoves(reader: bool) | ChildFailure | ChildKilled

  predicate Enabled(s: State, st: Step) {
    match st
    case ParentMoves => ParentEnabled(s)
    case ParentFailure => ParentMayFail(s)
    case ShutdownFailure => s.par == PShutdown(true)
    case ParentKilled => !ParentClosed(s.par)
    case ChildMoves(reader) => ChildEnabled(s, reader)
    case ChildFailure => ChildMayFail(s)
    case ChildKilled => !s.chi.CDead?
  }

  function Apply(s: State, st: Step): State
    requires Enabled(s, st)
  {
    match st
    case ParentMoves => ParentStep(s)
    case ParentFailure => ParentFails(s)
    case ShutdownFailure => s.(par := PTerminate(false), shutdownFailed := true)
    case ParentKilled => s.(par := PDead)
    case ChildMoves(reader) => ChildStep(s, reader)
    case ChildFailure => s.(chi := CFail)
    case ChildKilled => KillChild(s)
  }

  // What every run keeps.

  /** Where the trace must stand for the child to be where it is. */
  predicate ChildPlace(s: State) {
    var b, n := Lead(s), |s.trace|;
    match s.chi
    case CConfig => n == 0
    case CSetup => n == 0
    case CHooks => n == 0
    case CCreateContainer => n == b + 1
    case CReady => n == b + 2
    case CFinal => n == b + 5
    case CClose => n == b + 5
    case CLog => n == b + 6
    case CFifo => n == b + 6
    case CWrite => n == b + 6
    case CStartContainer => n == b + 7
    case CExec => n == b + 8
    case CUser => n == b + 9
    case CResume => n <= b + 1
    case CRun => b + 3 <= n <= b + 5
    case _ => true
  }

  /** While the parent acts on a message, the child waits for the answer or is dead. */
  predicate ParentPlace(s: State) {
    var b, n := Lead(s), |s.trace|;
    match s.par
    case PSend => n == 0 && s.up == [] && s.down == [] && (s.chi.CConfig? || s.chi.CDead?)
    case PPrestart => s.hooks && n == 0 && s.up == [] && s.down == [] && (s.chi.CResume? || s.chi.CDead?)
    case PCreateRuntime => s.hooks && n == 1 && s.up == [] && s.down == [] && (s.chi.CResume? || s.chi.CDead?)
    case PResume => n == b && s.up == [] && s.down == [] && (s.chi.CResume? || s.chi.CDead?)
    case PSave => n == b + 3 && s.up == [] && s.down == [] && (s.chi.CRun? || s.chi.CDead?) && s.seen
    case PRun => n == b + 4 && s.up == [] && s.down == [] && (s.chi.CRun? || s.chi.CDead?) && s.seen
    case PRead =>
      && (s.chi.CConfig? ==> s.down == [Config])
      && (s.chi.CResume? ==> s.up == [ProcHooks] || s.down == [ProcResume])
      && (s.chi.CRun? ==> s.up == [ProcReady] || s.down == [ProcRun])
    case PShutdown(ok) =>
      (ok ==> UpClosed(s) && s.up == [] && !s.gotError) && (Stalled(s) || PipeWasClosed(s)) && (PipeWasClosed(s) ==> ok)
    case PTerminate(_) => Stalled(s) || (PipeWasClosed(s) && s.shutdownFailed)
    case PDone(ok) =>
      && (ok ==> UpClosed(s) && s.up == [] && s.seen && !s.gotError)
      && (!ok ==> s.chi.CDead? && (PipeWasClosed(s) ==> s.shutdownFailed))
    case PDead => true
  }

  /** The child gets no further without the parent. */
  predicate Stalled(s: State) {
    s.chi.CDead? || ((s.chi.CConfig? || s.chi.CResume? || s.chi.CRun? || s.chi.CFail?) && s.up == [] && s.down == [])
  }

  /** At most one unread message each way, and what it says about the rest. */
  predicate Messages(s: State) {
    var b, n := Lead(s), |s.trace|;
    && (s.up == [] || s.up == [ProcHooks] || s.up == [ProcReady] || s.up == [ProcError])
    && (s.down == [] || s.down == [Config] || s.down == [ProcResume] || s.down == [ProcRun])
    && (s.up == [ProcHooks] ==> n == 0 && s.down == [] && (s.chi.CResume? || s.chi.CDead? || ParentClosed(s.par)))
    && (s.up == [ProcReady] ==> n == b + 3 && s.down == [] && (s.chi.CRun? || s.chi.CDead? || ParentClosed(s.par)))
    && (s.up == [ProcError] ==> s.chi.CDead? && n < b + 6)
    && (s.down == [Config] ==> n == 0 && (s.chi.CConfig? || s.chi.CDead?))
    && (s.down == [ProcResume] ==> n == b + 1 && (s.chi.CResume? || s.chi.CDead?))
    && (s.down == [ProcRun] ==> n == b + 5 && (s.chi.CRun? || s.chi.CDead?) && s.seen)
    && (s.up != [] && !s.chi.CDead? && !ParentClosed(s.par) ==>
          (s.chi.CResume? && s.up == [ProcHooks]) || (s.chi.CRun? && s.up == [ProcReady]))
    && (s.chi.CFail? ==> s.down == [])
    && (s.down != [] && !s.chi.CDead? ==> s.par.PRead? || s.par.PDead?)
  }

  /** How the child ended and what the parent knows of it. */
  predicate Ending(s: State) {
    && (s.gotError ==>
          s.chi.CDead? && !PipeWasClosed(s) && (s.par.PShutdown? || s.par.PTerminate? || ParentClosed(s.par)))
    && (s.silent ==> s.chi.CDead? && !PipeWasClosed(s))
    && (s.chi.CDead? && !PipeWasClosed(s) && !s.silent ==>
          s.up == [ProcError] || s.gotError || s.par == PDone(false))
    && (s.chi.CFinal? || s.chi.CClose? ==> s.seen && (s.par.PRead? || s.par.PDead?) && s.up == [])
    && (PipeWasClosed(s) ==>
          && s.seen && s.up == [] && s.down == [] && !s.gotError
          && (s.par.PRead? || s.par.PDead? || s.par == PShutdown(true) || s.par == PDone(true) || s.shutdownFailed))
    && (s.shutdownFailed ==> s.par.PTerminate? || ParentClosed(s.par))
    && (s.seen ==> |s.trace| >= Lead(s) + 3)
  }

  ghost predicate Inv(s: State) {
    && s.trace <= Order(s.hooks)
    && ChildPlace(s)
    && ParentPlace(s)
    && Messages(s)
    && Ending(s)
  }

  lemma InitInv(hooks: bool)
    ensures Inv(Init(hooks))
  {
  }

  lemma OrderIs(hooks: bool)
    ensures hooks ==> Order(hooks) == [Prestart, CreateRuntime, Resume, CreateContainer, Ready, StateSaved, Run,
                                       PipeClosed, FifoWrite, StartContainer, ExecUser]
    ensures !hooks ==> Order(hooks) == [Resume, CreateContainer, Ready, StateSaved, Run, PipeClosed, FifoWrite,
                                        StartContainer, ExecUser]
  {
  }

  ghost predicate Kept(s: State, r: State) { Inv(r) && r.hooks == s.hooks }

  lemma EndKeeps(s: State)
    requires Inv(s) && s.par.PRead? && s.up == [] && UpClosed(s)
    ensures Kept(s, s.(par := PShutdown(true)))
  {
  }

  lemma HandleKeeps(s: State, m: Msg)
    requires Inv(s) && s.par.PRead? && s.up == [m]
    ensures Kept(s, Handle(s.(up := []), m))
  {
  }

  lemma ReadKeeps(s: State)
    requires Inv(s) && ParentEnabled(s) && s.par.PRead?
    ensures Kept(s, ParentStep(s))
  {
    if s.up == [] {
      EndKeeps(s);
    } else {
      HandleKeeps(s, s.up[0]);
    }
  }

  lemma ResumeKeeps(s: State)
    requires Inv(s) && s.par.PResume?
    ensures Kept(s, ParentStep(s))
  {
    OrderIs(s.hooks);
  }

  lemma RunKeeps(s: State)
    requires Inv(s) && s.par.PRun?
    ensures Kept(s, ParentStep(s))
  {
    OrderIs(s.hooks);
  }

  lemma SendKeeps(s: State)
    requires Inv(s) && s.par.PSend?
    ensures Kept(s, ParentStep(s))
  {
  }

  lemma ReturnKeeps(s: State)
    requires Inv(s) && s.par == PShutdown(true) && s.seen
    ensures Kept(s, s.(par := PDone(true)))
  {
  }

  lemma GiveUpKeeps(s: State)
    requires Inv(s) && s.par.PShutdown? && !(s.par.ok && s.seen)
    ensures Kept(s, s.(par := PTerminate(true)))
  {
  }

  lemma ShutdownKeeps(s: State)
    requires Inv(s) && s.par.PShutdown?
    ensures Kept(s, ParentStep(s))
  {
    if s.par.ok && s.seen {
      ReturnKeeps(s);
    } else {
      GiveUpKeeps(s);
    }
  }

  lemma KillKeeps(s: State)
    requires Inv(s)
    ensures Kept(s, KillChild(s))
  {
  }

  lemma TerminateKeeps(s: State)
    requires Inv(s) && s.par.PTerminate?
    ensures Kept(s, ParentStep(s))
  {
  }

  lemma ParentEventKeeps(s: State)
    requires Inv(s) && (s.par.PPrestart? || s.par.PCreateRuntime? || s.par.PSave?)
    ensures Kept(s, ParentStep(s))
  {
    OrderIs(s.hooks);
  }

  lemma ParentMovesKeeps(s: State)
    requires Inv(s) && ParentEnabled(s)
    ensures Kept(s, ParentStep(s))
  {
    match s.par
    case PSend => SendKeeps(s);
    case PRead => ReadKeeps(s);
    case PResume => ResumeKeeps(s);
    case PRun => RunKeeps(s);
    case PShutdown(_) => ShutdownKeeps(s);
    case PTerminate(_) => TerminateKeeps(s);
    case _ => ParentEventKeeps(s);
  }

  lemma AwaitKeeps(s: State, reader: bool)
    requires Inv(s) && ChildEnabled(s, reader) && (s.chi.CConfig? || s.chi.CResume? || s.chi.CRun?)
    ensures Kept(s, ChildStep(s, reader))
  {
  }

  lemma TellKeeps(s: State, reader: bool)
    requires Inv(s) && (s.chi.CHooks? || s.chi.CReady?)
    ensures Kept(s, ChildStep(s, reader))
  {
    OrderIs(s.hooks);
  }

  lemma ChildEventKeeps(s: State, reader: bool)
    requires Inv(s) && (s.chi.CCreateContainer? || s.chi.CClose?)
    ensures Kept(s, ChildStep(s, reader))
  {
    OrderIs(s.hooks);
  }

  lemma AfterCloseKeeps(s: State, reader: bool)
    requires Inv(s) && (s.chi.CWrite? || s.chi.CStartContainer? || s.chi.CExec?)
    ensures Kept(s, ChildStep(s, reader))
  {
    OrderIs(s.hooks);
  }

  lemma ReportKeeps(s: State, reader: bool)
    requires Inv(s) && s.chi.CFail?
    ensures Kept(s, ChildStep(s, reader))
  {
    var r := ChildStep(s, reader);
    assert r.up == s.up || r.up == [ProcError];
  }

  lemma ChildMovesKeeps(s: State, reader: bool)
    requires Inv(s) && ChildEnabled(s, reader)
    ensures Kept(s, ChildStep(s, reader))
  {
    match s.chi
    case CConfig => AwaitKeeps(s, reader);
    case CResume => AwaitKeeps(s, reader);
    case CRun => AwaitKeeps(s, reader);
    case CHooks => TellKeeps(s, reader);
    case CReady => TellKeeps(s, reader);
    case CCreateContainer => ChildEventKeeps(s, reader);
    case CClose => ChildEventKeeps(s, reader);
    case CWrite => AfterCloseKeeps(s, reader);
    case CStartContainer => AfterCloseKeeps(s, reader);
    case CExec => AfterCloseKeeps(s, reader);
    case CFail => ReportKeeps(s, reader);
    case _ =>
  }

  lemma ParentFailureKeeps(s: State)
    requires Inv(s) && ParentMayFail(s)
    ensures Kept(s, ParentFails(s))
  {
  }

  lemma ChildFailureKeeps(s: State)
    requires Inv(s) && ChildMayFail(s)
    ensures Kept(s, s.(chi := CFail))
  {
  }

  lemma ParentKilledKeeps(s: State)
    requires Inv(s) && !ParentClosed(s.par)
    ensures Kept(s, s.(par := PDead))
  {
  }

  /** Every step keeps the invariant. */
  lemma StepInv(s: State, st: Step)
    requires Inv(s) && Enabled(s, st)
    ensures Kept(s, Apply(s, st))
  {
    match st
    case ParentMoves => ParentMovesKeeps(s);
    case ParentFailure => ParentFailureKeeps(s);
    case ShutdownFailure =>
    case ParentKilled => ParentKilledKeeps(s);
    case ChildMoves(reader) => ChildMovesKeeps(s, reader);
    case ChildFailure => ChildFailureKeeps(s);
    case ChildKilled => KillKeeps(s);
  }

  /** The states of a run. */
  predicate Runs(states: seq<State>, steps: seq<Step>) {
    && |states| == |steps| + 1
    && forall k | 0 <= k < |steps| :: Enabled(states[k], steps[k]) && states[k + 1] == Apply(states[k], steps[k])
  }

  lemma {:induction false} RunInv(states: seq<State>, steps: seq<Step>, hooks: bool, k: nat)
    requires Runs(states, steps) && states[0] == Init(hooks) && k < |states|
    ensures Inv(states[k]) && states[k].hooks == hooks
    decreases k
  {
    if k == 0 {
      InitInv(hooks);
    } else {
      RunInv(states, steps, hooks, k - 1);
      StepInv(states[k - 1], steps[k - 1]);
    }
  }

  // What follows.

  /** Over every run the events happen only in the one order. */
  lemma EventsInOrder(states: seq<State>, steps: seq<Step>, hooks: bool, k: nat)
    requires Runs(states, steps) && states[0] == Init(hooks) && k < |states|
    ensures states[k].trace <= Order(hooks)
    ensures |states[k].up| <= 1 && |states[k].down| <= 1
  {
    RunInv(states, steps, hooks, k);
  }

  function Place(e: Event): nat {
    match e
    case Prestart => 0
    case CreateRuntime => 1
    case Resume => 2
    case CreateContainer => 3
    case Ready => 4
    case StateSaved => 5
    case Run => 6
    case PipeClosed => 7
    case FifoWrite => 8
    case StartContainer => 9
    case ExecUser => 10
  }

  lemma PlaceIs(hooks: bool, i: nat)
    requires i < |Order(hooks)|
    ensures Place(Order(hooks)[i]) == if hooks then i else i + 2
  {
    OrderIs(hooks);
  }

  /** An event that has happened has all events before it in the order behind it. */
  lemma EarlierHappened(hooks: bool, trace: seq<Event>, i: nat, j: nat)
    requires trace <= Order(hooks) && i <= j < |Order(hooks)| && Order(hooks)[j] in trace
    ensures Order(hooks)[i] in trace
  {
    var k :| 0 <= k < |trace| && trace[k] == Order(hooks)[j];
    PlaceIs(hooks, k);
    PlaceIs(hooks, j);
    assert trace[i] == Order(hooks)[i];
  }

  /** `start` returns nil only after procReady and without a procError. It does so exactly
      when the child got to close the pipe, as long as the shutdown of the pipe succeeds
      and the child does not end without reporting: the former matters only to the
      one direction and the latter only to the other. */
  lemma StartReturnsNil(states: seq<State>, steps: seq<Step>, hooks: bool, s: State)
    requires Runs(states, steps) && states[0] == Init(hooks) && s == states[|steps|] && s.par.PDone?
    ensures s.par.ok ==> s.seen && !s.gotError && Ready in s.trace
    ensures !s.shutdownFailed && PipeClosed in s.trace ==> s.par.ok
    ensures !s.silent && s.par.ok ==> PipeClosed in s.trace
  {
    RunInv(states, steps, hooks, |steps|);
    EventAt(s.hooks, s.trace);
  }

  lemma EventAt(hooks: bool, trace: seq<Event>)
    requires trace <= Order(hooks)
    ensures var b := if hooks then 2 else 0;
            (Ready in trace <==> |trace| >= b + 3) && (PipeClosed in trace <==> |trace| >= b + 6)
  {
    var b := if hooks then 2 else 0;
    OrderIs(hooks);
    if |trace| >= b + 3 { assert trace[b + 2] == Ready; }
    if |trace| >= b + 6 { assert trace[b + 5] == PipeClosed; }
  }

  /** A start that fails leaves no child behind. */
  lemma FailedStartLeavesNoChild(states: seq<State>, steps: seq<Step>, hooks: bool, k: nat)
    requires Runs(states, steps) && states[0] == Init(hooks) && k < |states| && states[k].par == PDone(false)
    ensures states[k].chi.CDead?
  {
    RunInv(states, steps, hooks, k);
  }

  /** While the parent acts on procHooks or procReady, the child waits for the very answer
      or is dead, and nothing is on the way. */
  lemma ActsWhileChildWaits(states: seq<State>, steps: seq<Step>, hooks: bool, k: nat)
    requires Runs(states, steps) && states[0] == Init(hooks) && k < |states|
    ensures var s := states[k];
            && (s.par.PPrestart? || s.par.PCreateRuntime? || s.par.PResume? ==>
                  (s.chi.CResume? || s.chi.CDead?) && s.up == [] && s.down == [])
            && (s.par.PSave? || s.par.PRun? ==> (s.chi.CRun? || s.chi.CDead?) && s.up == [] && s.down == [])
  {
    RunInv(states, steps, hooks, k);
  }

  /** A child that ended before it closed the pipe, neither silently nor by the parent's
      hand, has told the parent, or the message is on its way. */
  lemma FailureIsReported(states: seq<State>, steps: seq<Step>, hooks: bool, k: nat)
    requires Runs(states, steps) && states[0] == Init(hooks) && k < |states|
    requires var s := states[k]; s.chi.CDead? && !(PipeClosed in s.trace) && !s.silent && s.par != PDone(false)
    ensures states[k].gotError || states[k].up == [ProcError]
  {
    RunInv(states, steps, hooks, k);
    EventAt(hooks, states[k].trace);
  }

  /** Until the parent is through and the child is gone or waits for an Exec, one of
      them can go on. */
  lemma SomebodyMoves(s: State)
    requires Inv(s) && !(ParentClosed(s.par) && (s.chi.CDead? || s.chi.CFifo? || s.chi.CUser?))
    ensures ParentEnabled(s) || ChildEnabled(s, false)
  {
  }
}
