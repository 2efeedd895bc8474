/** Health-check sweeps over all nodes: one at a time, and triggers that arrive
    during one are coalesced into a single follow-up. Any number of threads
    trigger; every critical section and every start and end of a sweep is a step. */
module Sweeps {

  /** Where a triggering thread is. `Entering` passed the context check; `Ready`
      holds the gate and is about to sweep; `Draining` has finished a sweep. */
  datatype Phase = Entering | Ready | Sweeping | Draining

  /** `entered` and `started` record when triggers were accepted and sweeps began. */
  datatype State = State(
    threads: map<nat, Phase>, sweepRunning: bool, rerunRequested: bool, cancelled: bool,
    tick: nat, entered: seq<nat>, started: seq<nat>)

  datatype Action = Trigger(t: nat) | Enter(t: nat) | BeginSweep(t: nat) | EndSweep(t: nat) | Drain(t: nat) | Cancel

  const INITIAL := State(map[], false, false, false, 0, [], [])

  predicate At(s: State, t: nat, p: Phase) { t in s.threads && s.threads[t] == p }

  predicate Enabled(s: State, a: Action) {
    match a
    case Trigger(t) => t !in s.threads && !s.cancelled
    case Enter(t) => At(s, t, Entering)
    case BeginSweep(t) => At(s, t, Ready)
    case EndSweep(t) => At(s, t, Sweeping)
    case Drain(t) => At(s, t, Draining)
    case Cancel => true
  }

  function Move(s: State, t: nat, p: Phase): State { s.(threads := s.threads[t := p]) }

  function Leave(s: State, t: nat): State { s.(threads := s.threads - {t}) }

  function Apply(s: State, a: Action): State {
    if !Enabled(s, a) then s
    else
      var s := s.(tick := s.tick + 1);
      match a
      case Trigger(t) => Move(s, t, Entering)
      case Enter(t) =>
        var e := s.(entered := s.entered + [s.tick]);
        if s.sweepRunning then Leave(e, t).(rerunRequested := true)
        else Move(e, t, Ready).(sweepRunning := true)
      case BeginSweep(t) =>
        if s.cancelled then Move(s, t, Draining) else Move(s, t, Sweeping).(started := s.started + [s.tick])
      case EndSweep(t) => Move(s, t, Draining)
      case Drain(t) =>
        if s.rerunRequested && !s.cancelled then Move(s, t, Ready).(rerunRequested := false)
        else Leave(s, t).(rerunRequested := false, sweepRunning := false)
      case Cancel => s.(cancelled := true)
  }

  function Exec(run: seq<Action>): State
    decreases |run|
  {
    if run == [] then INITIAL else Apply(Exec(run[..|run| - 1]), run[|run| - 1])
  }

  // ------------------------------------------------------------- invariant

  predicate Owns(p: Phase) { !p.Entering? }

  ghost predicate OneOwner(threads: map<nat, Phase>, sweepRunning: bool) {
    && (forall t, u :: t in threads && u in threads && Owns(threads[t]) && Owns(threads[u]) ==> t == u)
    && (sweepRunning <==> exists t :: t in threads && Owns(threads[t]))
  }

  ghost predicate AboutToSweep(threads: map<nat, Phase>) { exists t :: t in threads && threads[t].Ready? }

  ghost predicate Increasing(s: seq<nat>, top: nat) {
    && (forall i, j :: 0 <= i < j < |s| ==> s[i] < s[j])
    && (forall i :: 0 <= i < |s| ==> s[i] <= top)
  }

  /** Every accepted trigger is followed by a sweep, or will be. */
  ghost predicate Served(entered: seq<nat>, started: seq<nat>, coming: bool) {
    entered != [] && !coming ==> started != [] && entered[|entered| - 1] < started[|started| - 1]
  }

  ghost predicate Inv(s: State) {
    && OneOwner(s.threads, s.sweepRunning)
    && Increasing(s.entered, s.tick) && Increasing(s.started, s.tick)
    && (s.rerunRequested ==> s.sweepRunning)
    && (!s.cancelled ==> Served(s.entered, s.started, s.rerunRequested || AboutToSweep(s.threads)))
    && |s.started| + (if s.rerunRequested then 1 else 0) + (if AboutToSweep(s.threads) then 1 else 0) <= |s.entered|
  }

  lemma OwnerMoves(threads: map<nat, Phase>, t: nat, p: Phase)
    requires OneOwner(threads, true) && t in threads && Owns(threads[t]) && Owns(p)
    ensures OneOwner(threads[t := p], true)
    ensures AboutToSweep(threads[t := p]) <==> p.Ready?
    ensures AboutToSweep(threads) <==> threads[t].Ready?
  {
    var m := threads[t := p];
    assert t in m && m[t] == p;
    forall u | u in m && u != t ensures !Owns(m[u]) {
      assert u in threads;
    }
  }

  lemma OwnerLeaves(threads: map<nat, Phase>, t: nat)
    requires OneOwner(threads, true) && t in threads && threads[t].Draining?
    ensures OneOwner(threads - {t}, false) && !AboutToSweep(threads - {t}) && !AboutToSweep(threads)
  {
    var m := threads - {t};
    forall u | u in m ensures !Owns(m[u]) {
      assert u in threads && u != t;
    }
  }

  lemma OutsiderArrives(threads: map<nat, Phase>, running: bool, t: nat)
    requires OneOwner(threads, running) && t !in threads
    ensures OneOwner(threads[t := Entering], running)
    ensures AboutToSweep(threads[t := Entering]) <==> AboutToSweep(threads)
  {
    var m := threads[t := Entering];
    assert forall u :: u in m && Owns(m[u]) ==> u in threads && m[u] == threads[u];
    if running {
      var o :| o in threads && Owns(threads[o]);
      assert o in m;
    }
    if AboutToSweep(threads) {
      var o :| o in threads && threads[o].Ready?;
      assert o in m;
    }
  }

  lemma OutsiderEnters(threads: map<nat, Phase>, running: bool, t: nat)
    requires OneOwner(threads, running) && t in threads && threads[t].Entering?
    ensures running ==> OneOwner(threads - {t}, true) && (AboutToSweep(threads - {t}) <==> AboutToSweep(threads))
    ensures !running ==> OneOwner(threads[t := Ready], true) && AboutToSweep(threads[t := Ready])
  {
    if running {
      var o :| o in threads && Owns(threads[o]);
      assert o in threads - {t};
      if AboutToSweep(threads) {
        var u :| u in threads && threads[u].Ready?;
        assert u in threads - {t};
      }
    } else {
      var m := threads[t := Ready];
      assert t in m && m[t].Ready?;
    }
  }

  lemma ArrivalKeepsInv(s: State, a: Action)
    requires Inv(s) && Enabled(s, a) && (a.Trigger? || a.Enter?)
    ensures Inv(Apply(s, a))
  {
    if a.Trigger? {
      OutsiderArrives(s.threads, s.sweepRunning, a.t);
    } else {
      OutsiderEnters(s.threads, s.sweepRunning, a.t);
    }
    hide OneOwner, AboutToSweep;
  }

  lemma SweepKeepsInv(s: State, a: Action)
    requires Inv(s) && Enabled(s, a) && (a.BeginSweep? || a.EndSweep?)
    ensures Inv(Apply(s, a))
  {
    OwnerMoves(s.threads, a.t, if a.BeginSweep? && !s.cancelled then Sweeping else Draining);
    hide OneOwner, AboutToSweep;
  }

  lemma DrainKeepsInv(s: State, t: nat)
    requires Inv(s) && Enabled(s, Action.Drain(t))
    ensures Inv(Apply(s, Action.Drain(t)))
  {
    OwnerLeaves(s.threads, t);
    OwnerMoves(s.threads, t, Ready);
    hide OneOwner, AboutToSweep;
  }

  lemma StepKeepsInv(s: State, a: Action)
    requires Inv(s)
    ensures Inv(Apply(s, a))
  {
    if Enabled(s, a) {
      if a.Trigger? || a.Enter? {
        ArrivalKeepsInv(s, a);
      } else if a.BeginSweep? || a.EndSweep? {
        SweepKeepsInv(s, a);
      } else if a.Drain? {
        DrainKeepsInv(s, a.t);
      }
    }
    hide OneOwner, AboutToSweep, Increasing, Served, Enabled;
  }

  lemma {:induction false} ExecKeepsInv(run: seq<Action>)
    ensures Inv(Exec(run))
    decreases |run|
  {
    if run != [] {
      ExecKeepsInv(run[..|run| - 1]);
      StepKeepsInv(Exec(run[..|run| - 1]), run[|run| - 1]);
    }
  }

  // -------------------------------------------------------------- theorems

  /** Two sweeps never overlap. */
  lemma SweepsNeverOverlap(run: seq<Action>, t: nat, u: nat)
    requires var s := Exec(run); At(s, t, Sweeping) && At(s, u, Sweeping)
    ensures t == u
  {
    ExecKeepsInv(run);
  }

  /** Unless the manager was stopped: once no sweep runs or is owed, every trigger
      accepted so far was followed by a sweep that began after it. */
  lemma TriggersAreServed(run: seq<Action>, i: nat)
    requires var s := Exec(run); !s.cancelled && !s.sweepRunning && i < |s.entered|
    ensures var s := Exec(run); exists j :: 0 <= j < |s.started| && s.entered[i] < s.started[j]
  {
    ExecKeepsInv(run);
    var s := Exec(run);
    assert s.entered[i] <= s.entered[|s.entered| - 1] < s.started[|s.started| - 1];
  }

  /** In every state before the manager is stopped, an accepted trigger was followed
      by a sweep that began after it, or another sweep is requested, or the owner
      of the gate is just about to begin one. */
  lemma FollowUpIsRequested(run: seq<Action>, i: nat)
    requires var s := Exec(run); !s.cancelled && i < |s.entered|
    ensures var s := Exec(run);
      || s.rerunRequested || AboutToSweep(s.threads)
      || exists j :: 0 <= j < |s.started| && s.entered[i] < s.started[j]
  {
    ExecKeepsInv(run);
    var s := Exec(run);
    if !s.rerunRequested && !AboutToSweep(s.threads) {
      assert s.entered[i] <= s.entered[|s.entered| - 1] < s.started[|s.started| - 1];
    }
  }

  /** However triggers fall, no more sweeps run than triggers were accepted. */
  lemma NoMoreSweepsThanTriggers(run: seq<Action>)
    ensures |Exec(run).started| <= |Exec(run).entered|
  {
    ExecKeepsInv(run);
  }

  // ------------------------------------------------- records and progress

  lemma RunsExtend(run: seq<Action>, a: Action)
    ensures Exec([]) == INITIAL && Exec(run + [a]) == Apply(Exec(run), a)
  {
    assert (run + [a])[..|run|] == run;
  }

  /** Once the manager is stopped, no trigger is accepted and no sweep begins. */
  lemma {:induction false} StoppedSweepsNoMore(run: seq<Action>, more: seq<Action>)
    ensures var s, e := Exec(run + [Cancel]), Exec(run + [Cancel] + more);
      s.cancelled && e.cancelled && e.started == s.started && (forall t :: t in e.threads ==> t in s.threads)
    decreases |more|
  {
    hide Exec, Apply;
    if more == [] {
      CancelStops(run);
      assert run + [Cancel] + more == run + [Cancel];
    } else {
      var before, a := more[..|more| - 1], more[|more| - 1];
      StoppedSweepsNoMore(run, before);
      RunsExtend(run + [Cancel] + before, a);
      assert run + [Cancel] + more == run + [Cancel] + before + [a];
      StoppedStep(Exec(run + [Cancel] + before), a);
    }
  }

  lemma CancelStops(run: seq<Action>)
    ensures Exec(run + [Cancel]).cancelled
  {
    RunsExtend(run, Cancel);
    hide Exec;
  }

  lemma StoppedStep(s: State, a: Action)
    requires s.cancelled
    ensures var e := Apply(s, a); e.cancelled && e.started == s.started && forall t :: t in e.threads ==> t in s.threads
  {}

  function Accepted(run: seq<Action>): nat
    decreases |run|
  {
    if run == [] then 0
    else
      var before, a := run[..|run| - 1], run[|run| - 1];
      Accepted(before) + if a.Enter? && Enabled(Exec(before), a) then 1 else 0
  }

  function Swept(run: seq<Action>): nat
    decreases |run|
  {
    if run == [] then 0
    else
      var before, a := run[..|run| - 1], run[|run| - 1];
      Swept(before) + if a.BeginSweep? && Enabled(Exec(before), a) && !Exec(before).cancelled then 1 else 0
  }

  /** The records are of all that happened: each trigger that reached the gate, and each
      sweep that began before the manager was stopped. */
  lemma {:induction false} RecordsAreExact(run: seq<Action>)
    ensures |Exec(run).entered| == Accepted(run) && |Exec(run).started| == Swept(run)
    decreases |run|
  {
    if run != [] {
      RecordsAreExact(run[..|run| - 1]);
      StepRecords(Exec(run[..|run| - 1]), run[|run| - 1]);
      hide Apply, Enabled;
    }
  }

  lemma StepRecords(s: State, a: Action)
    ensures |Apply(s, a).entered| == |s.entered| + if a.Enter? && Enabled(s, a) then 1 else 0
    ensures |Apply(s, a).started| == |s.started| + if a.BeginSweep? && Enabled(s, a) && !s.cancelled then 1 else 0
  {}

  /** In every state a run can reach, each thread's next step is enabled, and a closed gate
      has an owner, so that the gate opens again. */
  lemma GateIsNeverStuck(run: seq<Action>, t: nat)
    requires t in Exec(run).threads
    ensures var s := Exec(run);
      match s.threads[t]
      case Entering => Enabled(s, Action.Enter(t))
      case Ready => Enabled(s, BeginSweep(t))
      case Sweeping => Enabled(s, EndSweep(t))
      case Draining => Enabled(s, Action.Drain(t))
    ensures var s := Exec(run); s.sweepRunning <==> exists u :: u in s.threads && Owns(s.threads[u])
  {
    ExecKeepsInv(run);
    hide Exec;
  }

  /** From every state a run can reach with the gate open, a trigger sweeps once and opens
      the gate again. */
  lemma TriggerSweeps(run: seq<Action>, t: nat)
    requires var s := Exec(run); t !in s.threads && !s.sweepRunning && !s.cancelled
    ensures var s := Exec(run);
      var swept := Apply(Apply(Apply(Apply(s, Trigger(t)), Action.Enter(t)), BeginSweep(t)), EndSweep(t));
      var e := Apply(swept, Action.Drain(t));
      && e.threads == s.threads && !e.sweepRunning && !e.rerunRequested
      && e.entered == s.entered + [s.tick + 2] && e.started == s.started + [s.tick + 3]
  {
    ExecKeepsInv(run);
    var s := Exec(run);
    assert !s.rerunRequested;
    hide Exec, Inv;
    var a := Apply(s, Trigger(t));
    assert a == s.(threads := s.threads[t := Entering], tick := s.tick + 1);
    var b := Apply(a, Action.Enter(t));
    assert b.threads == s.threads[t := Ready];
    var c := Apply(b, BeginSweep(t));
    assert c.threads == s.threads[t := Sweeping];
    var d := Apply(c, EndSweep(t));
    assert d.threads == s.threads[t := Draining] && d.threads - {t} == s.threads;
  }

  /** A trigger that arrives during a sweep leaves at once; the owner sweeps once more. */
  lemma FollowUpSweeps(run: seq<Action>, t: nat, u: nat)
    requires var s := Exec(run); At(s, t, Sweeping) && u !in s.threads && !s.cancelled
    ensures var s := Exec(run);
      var asked := Apply(Apply(s, Trigger(u)), Action.Enter(u));
      var again := Apply(Apply(Apply(asked, EndSweep(t)), Action.Drain(t)), BeginSweep(t));
      && asked.threads == s.threads && asked.rerunRequested && asked.entered == s.entered + [s.tick + 2]
      && again.threads == s.threads && again.sweepRunning && !again.rerunRequested
      && again.started == s.started + [s.tick + 5]
  {
    ExecKeepsInv(run);
    var s := Exec(run);
    assert s.sweepRunning by { assert Owns(s.threads[t]); }
    hide Exec, Inv;
    var a := Apply(s, Trigger(u));
    assert a == s.(threads := s.threads[u := Entering], tick := s.tick + 1);
    var b := Apply(a, Action.Enter(u));
    assert a.threads - {u} == s.threads;
    assert b == s.(rerunRequested := true, tick := s.tick + 2, entered := s.entered + [s.tick + 2]);
    var c := Apply(b, EndSweep(t));
    assert c == b.(threads := s.threads[t := Draining], tick := s.tick + 3);
    var d := Apply(c, Action.Drain(t));
    assert d == c.(threads := s.threads[t := Ready], rerunRequested := false, tick := s.tick + 4);
    assert s.threads[t := Sweeping] == s.threads;
  }

  // ------------------------------------------------------------ as an object

  /** The gate in front of the sweep loop; the threads are ghost. */
  class Gate {
    var sweepRunning: bool
    var rerunRequested: bool
    var cancelled: bool
    ghost var threads: map<nat, Phase>
    ghost var tick: nat
    ghost var entered: seq<nat>
    ghost var started: seq<nat>

    ghost function View(): State
      reads this
    {
      State(threads, sweepRunning, rerunRequested, cancelled, tick, entered, started)
    }

    constructor ()
      ensures View() == INITIAL
    {
      sweepRunning, rerunRequested, cancelled := false, false, false;
      threads, tick, entered, started := map[], 0, [], [];
    }

    /** A trigger that finds a sweep running asks for another and goes. */
    method Enter(ghost t: nat) returns (mine: bool)
      requires At(View(), t, Entering)
      modifies this
      ensures View() == Apply(old(View()), Action.Enter(t)) && (mine <==> !old(sweepRunning))
    {
      tick := tick + 1;
      entered := entered + [tick];
      if sweepRunning {
        rerunRequested := true;
        threads := threads - {t};
        return false;
      }
      sweepRunning := true;
      threads := threads[t := Ready];
      mine := true;
    }

    /** Between sweeps: go again if asked to, or open the gate. */
    method Drain(ghost t: nat) returns (again: bool)
      requires At(View(), t, Draining)
      modifies this
      ensures View() == Apply(old(View()), Action.Drain(t)) && (again <==> old(rerunRequested) && !cancelled)
    {
      tick := tick + 1;
      if rerunRequested && !cancelled {
        rerunRequested := false;
        threads := threads[t := Ready];
        return true;
      }
      rerunRequested, sweepRunning := false, false;
      threads := threads - {t};
      again := false;
    }
  }
}

/** Probes of one node: callers share the run in flight, each run has its own
    generation, and a result counts only for the current generation. */
module Probes {

  datatype Option<+T> = None | Some(value: T)

  /** `Returned` has its result, but has not closed `done` yet. */
  datatype RunPhase = InFlight | Returned | Done

  /** A caller waits for a run, or holds a result it may apply. */
  datatype Caller = Waiting(run: nat, started: bool) | Holding(generation: nat)

  /** `applied` lists the generations whose results were recorded. */
  datatype State = State(probeRun: Option<nat>, generation: nat, runs: seq<RunPhase>, callers: map<nat, Caller>,
                         applied: seq<nat>)

  datatype Action =
    | Wait(c: nat)
    | Return(run: nat)
    | Close(run: nat)
    | Joined(c: nat)
    | TimedOut(c: nat, cancelled: bool)
    | ApplyResult(c: nat)

  const INITIAL := State(None, 0, [], map[], [])

  predicate IsWaiting(s: State, c: nat) { c in s.callers && s.callers[c].Waiting? && s.callers[c].run < |s.runs| }

  predicate Enabled(s: State, a: Action) {
    match a
    case Wait(c) => c !in s.callers
    case Return(r) => r < |s.runs| && s.runs[r].InFlight?
    case Close(r) => r < |s.runs| && s.runs[r].Returned?
    case Joined(c) => IsWaiting(s, c) && s.runs[s.callers[c].run].Done?
    case TimedOut(c, _) => IsWaiting(s, c)
    case ApplyResult(c) => c in s.callers && s.callers[c].Holding?
  }

  /** Run `r` was started as generation `r + 1`. */
  function Apply(s: State, a: Action): State {
    if !Enabled(s, a) then s
    else
      match a
      case Wait(c) =>
        if s.probeRun.Some? then s.(callers := s.callers[c := Waiting(s.probeRun.value, false)])
        else s.(generation := s.generation + 1, runs := s.runs + [InFlight], probeRun := Some(|s.runs|),
                callers := s.callers[c := Waiting(|s.runs|, true)])
      case Return(r) => s.(runs := s.runs[r := Returned])
      case Close(r) => s.(runs := s.runs[r := Done], probeRun := if s.probeRun == Some(r) then None else s.probeRun)
      case Joined(c) => s.(callers := s.callers[c := Holding(s.callers[c].run + 1)])
      case TimedOut(c, cancelled) =>
        if s.callers[c].started && !cancelled then s.(callers := s.callers[c := Holding(s.callers[c].run + 1)])
        else s.(callers := s.callers - {c})
      case ApplyResult(c) =>
        s.(callers := s.callers - {c},
           applied := if s.callers[c].generation == s.generation then s.applied + [s.generation] else s.applied)
  }

  function Exec(run: seq<Action>): State
    decreases |run|
  {
    if run == [] then INITIAL else Apply(Exec(run[..|run| - 1]), run[|run| - 1])
  }

  ghost predicate Inv(s: State) {
    && s.generation == |s.runs|
    && (forall r :: 0 <= r < |s.runs| ==> (s.probeRun == Some(r) <==> !s.runs[r].Done?))
    && (s.probeRun.Some? ==> s.probeRun.value == |s.runs| - 1)
    && (forall i :: 0 <= i < |s.applied| ==> 1 <= s.applied[i] <= s.generation)
    && (forall i, j :: 0 <= i < j < |s.applied| ==> s.applied[i] <= s.applied[j])
    && (forall c :: c in s.callers && s.callers[c].Holding? ==> 1 <= s.callers[c].generation <= s.generation)
  }

  lemma RunStepKeepsInv(s: State, a: Action)
    requires Inv(s) && (a.Wait? || a.Return? || a.Close?)
    ensures Inv(Apply(s, a))
  {}

  lemma CallerStepKeepsInv(s: State, a: Action)
    requires Inv(s) && (a.Joined? || a.TimedOut? || a.ApplyResult?)
    ensures Inv(Apply(s, a))
  {}

  lemma {:induction false} ExecKeepsInv(run: seq<Action>)
    ensures Inv(Exec(run))
    decreases |run|
  {
    if run != [] {
      var before, a := run[..|run| - 1], run[|run| - 1];
      ExecKeepsInv(before);
      hide Inv;
      if a.Wait? || a.Return? || a.Close? {
        RunStepKeepsInv(Exec(before), a);
      } else {
        CallerStepKeepsInv(Exec(before), a);
      }
    }
  }

  /** At most one probe callback is in flight, and it is the newest. */
  lemma OneCallbackInFlight(run: seq<Action>, r: nat, q: nat)
    requires var s := Exec(run); r < |s.runs| && q < |s.runs| && !s.runs[r].Done? && !s.runs[q].Done?
    ensures r == q == |Exec(run).runs| - 1 && Exec(run).generation == r + 1
  {
    ExecKeepsInv(run);
  }

  /** A late result of an older run never overwrites that of a newer one: the
      generations of recorded results never decrease. */
  lemma AppliedNeverDecreases(run: seq<Action>, i: nat, j: nat)
    requires i < j < |Exec(run).applied|
    ensures Exec(run).applied[i] <= Exec(run).applied[j] <= |Exec(run).runs|
  {
    ExecKeepsInv(run);
  }

  lemma RunsExtend(run: seq<Action>, a: Action)
    ensures Exec([]) == INITIAL && Exec(run + [a]) == Apply(Exec(run), a)
  {
    assert (run + [a])[..|run|] == run;
  }

  /** From every state a run can reach, a caller without a probe in flight starts one of a
      new generation, gets its result and records it. */
  lemma ProbeIsRecorded(run: seq<Action>, c: nat)
    requires var s := Exec(run); c !in s.callers && s.probeRun.None?
    ensures var s := Exec(run); var r := |s.runs|;
      var asked := Apply(s, Wait(c));
      var joined := Apply(Apply(Apply(asked, Return(r)), Close(r)), Joined(c));
      var e := Apply(joined, ApplyResult(c));
      && asked.generation == s.generation + 1 && asked.probeRun == Some(r) && |asked.runs| == r + 1
      && asked.callers == s.callers[c := Waiting(r, true)]
      && joined.callers == s.callers[c := Holding(s.generation + 1)] && joined.probeRun.None?
      && e.callers == s.callers && e.applied == s.applied + [s.generation + 1]
  {
    ExecKeepsInv(run);
    var s := Exec(run);
    assert s.generation == |s.runs|;
    hide Exec, Inv;
    ProbeSteps(s, c);
  }

  lemma ProbeSteps(s: State, c: nat)
    requires c !in s.callers && s.probeRun.None? && s.generation == |s.runs|
    ensures var r := |s.runs|;
      var asked := Apply(s, Wait(c));
      var joined := Apply(Apply(Apply(asked, Return(r)), Close(r)), Joined(c));
      var e := Apply(joined, ApplyResult(c));
      && asked.generation == s.generation + 1 && asked.probeRun == Some(r) && |asked.runs| == r + 1
      && asked.callers == s.callers[c := Waiting(r, true)]
      && joined.callers == s.callers[c := Holding(s.generation + 1)] && joined.probeRun.None?
      && e.callers == s.callers && e.applied == s.applied + [s.generation + 1]
  {
    var r := |s.runs|;
    var asked := s.(generation := r + 1, runs := s.runs + [InFlight], probeRun := Some(r),
                    callers := s.callers[c := Waiting(r, true)]);
    assert Apply(s, Wait(c)) == asked;
    var closed := asked.(runs := s.runs + [Done], probeRun := None);
    assert Apply(Apply(asked, Return(r)), Close(r)) == closed;
    var joined := closed.(callers := s.callers[c := Holding(r + 1)]);
    assert Apply(closed, Joined(c)) == joined;
    assert joined.callers - {c} == s.callers;
  }

  /** A caller that finds a probe in flight joins it, and starts none. */
  lemma CallersShareTheProbe(run: seq<Action>, c: nat)
    requires var s := Exec(run); c !in s.callers && s.probeRun.Some?
    ensures var s := Exec(run); var e := Apply(s, Wait(c)); var r := |s.runs| - 1;
      && e.runs == s.runs && e.generation == s.generation && r >= 0 && e.callers == s.callers[c := Waiting(r, false)]
      && !s.runs[r].Done?
  {
    ExecKeepsInv(run);
  }

  /** A caller that gives up applies nothing if its context was cancelled or the run was not
      its own; one whose own run timed out holds the failure of that run's generation. */
  lemma TimeoutsAreOwn(s: State, c: nat, cancelled: bool)
    requires IsWaiting(s, c)
    ensures var e := Apply(s, TimedOut(c, cancelled)); var w := s.callers[c];
      && e.runs == s.runs && e.applied == s.applied && e.generation == s.generation
      && (c in e.callers <==> w.started && !cancelled)
      && (c in e.callers ==> e.callers[c] == Holding(w.run + 1))
  {}

  /** In every run, a result that a caller holds is recorded exactly if no newer probe has
      been started. */
  lemma RecordedExactlyIfNewest(run: seq<Action>, c: nat)
    requires var s := Exec(run); c in s.callers && s.callers[c].Holding?
    ensures var s := Exec(run); var g := s.callers[c].generation; var e := Apply(s, ApplyResult(c));
      && 1 <= g <= |s.runs|
      && e.applied == (if g == |s.runs| then s.applied + [g] else s.applied) && c !in e.callers
  {
    ExecKeepsInv(run);
  }

  // ------------------------------------------------------------ as an object

  /** One node's entry; its callers and the record of results are ghost. */
  class Entry {
    var probeRun: Option<nat>
    var probeGeneration: nat
    var runs: seq<RunPhase>
    ghost var callers: map<nat, Caller>
    ghost var applied: seq<nat>

    ghost function View(): State
      reads this
    {
      State(probeRun, probeGeneration, runs, callers, applied)
    }

    constructor ()
      ensures View() == INITIAL
    {
      probeRun, probeGeneration, runs, callers, applied := None, 0, [], map[], [];
    }

    /** Joins the run in flight, or starts one of a new generation. */
    method WaitProbe(ghost c: nat) returns (run: nat, started: bool)
      requires Inv(View()) && c !in callers
      modifies this
      ensures View() == Apply(old(View()), Wait(c)) && Inv(View())
      ensures callers[c] == Waiting(run, started) && run < |runs| && (started <==> old(probeRun).None?)
    {
      RunStepKeepsInv(View(), Wait(c));
      started := probeRun.None?;
      if started {
        probeGeneration := probeGeneration + 1;
        run := |runs|;
        runs := runs + [InFlight];
        probeRun := Some(run);
      } else {
        run := probeRun.value;
      }
      callers := callers[c := Waiting(run, started)];
    }

    /** The callback's goroutine, when the callback has returned. */
    method CloseRun(run: nat)
      requires Inv(View()) && run < |runs| && runs[run].Returned?
      modifies this
      ensures View() == Apply(old(View()), Close(run)) && Inv(View())
    {
      RunStepKeepsInv(View(), Close(run));
      if probeRun == Some(run) {
        probeRun := None;
      }
      runs := runs[run := RunPhase.Done];
    }

    /** Only a result of the current generation is recorded. */
    method ApplyProbeResult(ghost c: nat, generation: nat) returns (ok: bool)
      requires Inv(View()) && c in callers && callers[c] == Holding(generation)
      modifies this
      ensures View() == Apply(old(View()), ApplyResult(c)) && Inv(View())
      ensures ok <==> generation == probeGeneration
    {
      CallerStepKeepsInv(View(), ApplyResult(c));
      callers := callers - {c};
      if generation != probeGeneration {
        return false;
      }
      applied := applied + [generation];
      ok := true;
    }
  }
}
