/** What an answer about a container's status was worth at the time it was found
    (libmocktainer/container_linux.go): the look at the process and the look at the FIFO
    are two, and anything may happen before, between and after them. */
module ContainerAnswers {
  import opened Options
  import opened ContainerStatus

  /** The process that the object has recorded is there, and no zombie. */
  predicate Live(os: Os, o: Obj) {
    o.init.Some? && o.init.value in os.procs && os.procs[o.init.value] == Proc(o.start, false)
  }

  lemma ObjStep(s: Sys, st: Step, i: nat)
    requires Enabled(s, st) && i < |s.objs|
    ensures i < |Apply(s, st).objs|
    ensures || s.objs[i].act.Free?
            || Apply(s, st).objs[i] == s.objs[i]
            || (st == Works(i) && Apply(s, st).objs[i] == Work(s.os, s.objs[i]).1)
  {
  }

  /** An object that is new, or was free before, has looked at nothing yet. */
  lemma NewAct(s: Sys, st: Step, i: nat)
    requires Enabled(s, st) && i < |Apply(s, st).objs|
    requires i < |s.objs| ==> s.objs[i].act.Free?
    ensures !Apply(s, st).objs[i].act.Check? && !Apply(s, st).objs[i].act.Got?
  {
  }

  /** The looks of one micro-step, against the system as it is then. */
  lemma LookTells(os: Os, o: Obj)
    requires !o.act.Free?
    ensures var o' := Work(os, o).1;
            && (o.act.Look? ==> o'.act == (if Live(os, o) then Check(o.act.why) else Got(o.act.why, Stopped)))
            && (o.act.Check? ==> o'.act == Got(o.act.why, if os.fifo then Created else Running))
            && (o'.act.Check? ==> o.act.Look?)
            && (o'.act.Got? ==> (o.act.Look? && o'.act.t.Stopped?) || o.act.Check?)
            && (o.act.Look? || o.act.Check? ==> o'.init == o.init && o'.start == o.start)
  {
  }

  ghost predicate LiveAt(states: seq<Sys>, k: nat, o: Obj) { k < |states| && Live(states[k].os, o) }

  /** Where an object looks at the FIFO, it has seen its process. */
  lemma {:induction false} SawProcess(states: seq<Sys>, steps: seq<Step>, m: nat, i: nat) returns (k: nat)
    requires Runs(states, steps) && m < |states| && i < |states[m].objs| && states[m].objs[i].act.Check?
    ensures k <= m && LiveAt(states, k, states[m].objs[i])
    decreases m
  {
    var s, st := states[m - 1], steps[m - 1];
    if i < |s.objs| && !s.objs[i].act.Free? {
      ObjStep(s, st, i);
      if s.objs[i] == states[m].objs[i] {
        k := SawProcess(states, steps, m - 1, i);
      } else {
        LookTells(s.os, s.objs[i]);
        k := m - 1;
      }
    } else {
      NewAct(s, st, i);
    }
  }

  /** What an answer is worth: `stopped` and `created` were true at one moment; `running` means
      that the process was there and that the FIFO was gone, at that moment or later. */
  ghost predicate WasTrue(states: seq<Sys>, m: nat, o: Obj, t: Status, k: nat, j: nat)
    requires m < |states|
  {
    k <= j <= m &&
    match t
    case Stopped => !Live(states[k].os, o)
    case Created => Live(states[k].os, o) && states[k].os.fifo
    case Running => Live(states[k].os, o) && !states[j].os.fifo
  }

  lemma {:induction false} FifoStaysAway(states: seq<Sys>, steps: seq<Step>, k: nat, m: nat)
    requires Runs(states, steps) && k <= m < |states| && FifoOver(states[k].os)
    ensures FifoOver(states[m].os)
    decreases m
  {
    if k < m {
      FifoStaysAway(states, steps, k, m - 1);
      RunInv(states, steps, m - 1);
      StepIsLater(states[m - 1], steps[m - 1]);
    }
  }

  /** A record is one of the child, so the FIFO had been made when its process was there. */
  lemma RecordedMeansMade(states: seq<Sys>, steps: seq<Step>, k: nat, m: nat, i: nat)
    requires Runs(states, steps) && k <= m < |states| && i < |states[m].objs|
    requires states[m].objs[i].init.Some? && states[m].objs[i].start != 0 && LiveAt(states, k, states[m].objs[i])
    ensures states[k].os.made
  {
    RunInv(states, steps, m);
    RunInv(states, steps, k);
    assert ObjOk(states[m].os, states[m].objs[i]);
    ChildIsNew(states, steps, k, m, states[m].os.child.value);
  }

  lemma ChildStays(s: Sys, st: Step, c: Rec)
    requires Enabled(s, st) && Apply(s, st).os.child == Some(c) && c in s.os.used
    ensures s.os.child == Some(c)
  {
  }

  /** A process that is the child at m and was there at k was the child at k. */
  lemma {:induction false} ChildIsNew(states: seq<Sys>, steps: seq<Step>, k: nat, m: nat, c: Rec)
    requires Runs(states, steps) && k <= m < |states| && states[m].os.child == Some(c) && c in states[k].os.used
    ensures states[k].os.child == Some(c)
    decreases m
  {
    if k < m {
      UsedStays(states, steps, k, m - 1);
      ChildStays(states[m - 1], steps[m - 1], c);
      ChildIsNew(states, steps, k, m - 1, c);
    }
  }

  lemma {:induction false} UsedStays(states: seq<Sys>, steps: seq<Step>, k: nat, m: nat)
    requires Runs(states, steps) && k <= m < |states|
    ensures states[k].os.used <= states[m].os.used
    decreases m
  {
    if k < m {
      UsedStays(states, steps, k, m - 1);
    }
  }

  /** Every answer was true of some moment since the look began. */
  lemma {:induction false} AnswerWasTrue(states: seq<Sys>, steps: seq<Step>, m: nat, i: nat) returns (k: nat, j: nat)
    requires Runs(states, steps) && m < |states| && i < |states[m].objs| && states[m].objs[i].act.Got?
    ensures WasTrue(states, m, states[m].objs[i], states[m].objs[i].act.t, k, j)
    decreases m
  {
    var s, st := states[m - 1], steps[m - 1];
    if i < |s.objs| && !s.objs[i].act.Free? {
      ObjStep(s, st, i);
      if s.objs[i] == states[m].objs[i] {
        k, j := AnswerWasTrue(states, steps, m - 1, i);
      } else {
        LookTells(s.os, s.objs[i]);
        j := m - 1;
        if s.objs[i].act.Look? {
          k := m - 1;
        } else {
          k := CheckWasTrue(states, steps, m - 1, i);
        }
      }
    } else {
      NewAct(s, st, i);
    }
  }

  lemma CheckWasTrue(states: seq<Sys>, steps: seq<Step>, m: nat, i: nat) returns (k: nat)
    requires Runs(states, steps) && m < |states| && i < |states[m].objs| && states[m].objs[i].act.Check?
    ensures k <= m && LiveAt(states, k, states[m].objs[i]) && (states[m].os.fifo ==> states[k].os.fifo)
  {
    k := SawProcess(states, steps, m, i);
    RunInv(states, steps, m);
    assert ObjOk(states[m].os, states[m].objs[i]);
    RecordedMeansMade(states, steps, k, m, i);
    if !states[k].os.fifo {
      FifoStaysAway(states, steps, k, m);
    }
  }
}
