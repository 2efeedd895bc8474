/** How subscription refreshes coalesce: callers and the worker share a settings
    version, one active and one pending call, and a request channel with one slot.
    Every critical section and channel operation is a step; any number of callers
    interleave with the worker, with reloads that publish other settings, and with
    `Stop`. */
module Refresh {

  datatype Option<+T> = None | Some(value: T)

  /** The settings a subscription owns; `rest` stands for all but the URLs. */
  datatype Settings = Settings(urls: seq<string>, rest: nat)

  /** `closings` counts how often `done` was closed. `ran` is what the worker
      refreshed with; no step reads it. */
  datatype Call = Call(version: nat, closings: nat, ran: Option<Settings>)

  /** What a caller got: a call, and the version when it asked. */
  datatype Ticket = Ticket(call: nat, asked: nat)

  datatype Worker = NotStarted | Idle | Received(call: nat) | Running(call: nat) | Exiting | Exited

  /** `history[v]` is what the settings were at version `v`. */
  datatype State = State(
    base: Settings, version: nat, runtime: Option<Settings>, awaited: bool, baseline: Option<Settings>,
    calls: seq<Call>, pending: Option<nat>, active: Option<nat>, requests: seq<nat>,
    worker: Worker, stopped: bool, history: seq<Settings>, tickets: seq<Ticket>)

  datatype Action =
    | Start
    | Update(settings: Settings, saved: bool)
    | Publish(runtime: Option<Settings>)
    | Sync
    | Request
    | Receive
    | Begin
    | Finish
    | Leave
    | Drain
    | Stop

  const REQUEST_SLOTS := 1

  function Initial(base: Settings, runtime: Option<Settings>): State {
    State(base, 0, runtime, false, None, [], None, None, [], NotStarted, false, [base], [])
  }

  // ----------------------------------------------------------------- steps

  function Adopt(s: State, settings: Settings): State {
    s.(base := settings, version := s.version + 1, history := s.history + [settings])
  }

  function DoUpdate(s: State, settings: Settings, saved: bool): State {
    if s.stopped || !saved then s
    else Adopt(s.(awaited := s.runtime.Some? && s.runtime.value != settings, baseline := s.runtime), settings)
  }

  function DoSync(s: State): State {
    if s.stopped || s.runtime.None? then s
    else if s.runtime.value == s.base then s.(awaited := false, baseline := None)
    else if s.awaited && s.runtime == s.baseline then s
    else Adopt(s.(awaited := false, baseline := None), s.runtime.value)
  }

  /** Whether a request opens a call of its own, and so sends on the channel. */
  predicate Opens(s: State) {
    && !s.stopped && s.base.urls != [] && s.pending.None?
    && !(s.active.Some? && s.active.value < |s.calls| && s.calls[s.active.value].version == s.version)
  }

  function Hand(s: State, c: nat): State { s.(tickets := s.tickets + [Ticket(c, s.version)]) }

  function Versioned(calls: seq<Call>, c: nat, version: nat): seq<Call> {
    if c < |calls| then calls[c := calls[c].(version := version)] else calls
  }

  function Closed(calls: seq<Call>, c: nat): seq<Call> {
    if c < |calls| then calls[c := calls[c].(closings := calls[c].closings + 1)] else calls
  }

  function Ran(calls: seq<Call>, c: nat, version: nat, base: Settings): seq<Call> {
    if c < |calls| then calls[c := calls[c].(version := version, ran := Some(base))] else calls
  }

  function DoRequest(s: State): State {
    if s.stopped || s.base.urls == [] then s
    else if s.pending.Some? then Hand(s.(calls := Versioned(s.calls, s.pending.value, s.version)), s.pending.value)
    else if !Opens(s) then Hand(s, s.active.value)
    else Hand(s.(calls := s.calls + [Call(s.version, 0, None)], pending := Some(|s.calls|),
                 requests := s.requests + [|s.calls|]), |s.calls|)
  }

  /** A send with no free slot would block, so it is not a step. */
  predicate Enabled(s: State, a: Action) {
    match a
    case Start => s.worker.NotStarted?
    case Request => Opens(s) ==> |s.requests| < REQUEST_SLOTS
    case Receive => s.worker.Idle? && s.requests != []
    case Begin => s.worker.Received?
    case Finish => s.worker.Running?
    case Leave => s.worker.Idle? && s.stopped
    case Drain => s.worker.Exiting?
    case _ => true
  }

  function Apply(s: State, a: Action): State {
    if !Enabled(s, a) then s
    else
      match a
      case Start => s.(worker := Idle)
      case Update(settings, saved) => DoUpdate(s, settings, saved)
      case Publish(r) => s.(runtime := r)
      case Sync => DoSync(s)
      case Request => DoRequest(s)
      case Receive => s.(worker := Received(s.requests[0]), requests := s.requests[1..])
      case Begin =>
        var c := s.worker.call;
        s.(worker := Running(c), pending := None, active := Some(c), calls := Ran(s.calls, c, s.version, s.base))
      case Finish =>
        s.(worker := Idle, active := None, calls := Closed(s.calls, s.worker.call))
      case Leave => s.(worker := Exiting)
      case Drain =>
        s.(worker := Exited, pending := None,
           calls := if s.pending.Some? then Closed(s.calls, s.pending.value) else s.calls)
      case Stop => s.(stopped := true)
  }

  function Exec(s: State, run: seq<Action>): State
    decreases |run|
  {
    if run == [] then s else Apply(Exec(s, run[..|run| - 1]), run[|run| - 1])
  }

  ghost predicate Reachable(s: State) {
    exists base, runtime, run :: s == Exec(Initial(base, runtime), run)
  }

  // ------------------------------------------------------------- invariant

  function Slot(pending: Option<nat>): seq<nat> { if pending.Some? then [pending.value] else [] }

  /** Where the worker stands fixes what is pending, active and in the channel. */
  ghost predicate Placed(worker: Worker, pending: Option<nat>, active: Option<nat>, requests: seq<nat>, stopped: bool) {
    && (active.Some? <==> worker.Running?)
    && (worker.Running? ==> active == Some(worker.call) && pending != active)
    && (worker.Received? ==> pending == Some(worker.call) && requests == [])
    && (!worker.Received? && !worker.Exited? ==> requests == Slot(pending))
    && (worker.Exited? ==> pending.None? && |requests| <= REQUEST_SLOTS)
    && (worker.Exiting? || worker.Exited? ==> stopped)
  }

  predicate IsOpen(pending: Option<nat>, active: Option<nat>, c: nat) { pending == Some(c) || active == Some(c) }

  /** A call that never ran is pending, or was left in the channel by the worker. */
  ghost predicate UnrunOk(calls: seq<Call>, pending: Option<nat>, requests: seq<nat>, exited: bool) {
    && (forall c :: 0 <= c < |calls| && calls[c].ran.None? ==> pending == Some(c) || (exited && requests == [c]))
    && (exited && requests != [] ==> requests[0] < |calls| && calls[requests[0]].ran.None?)
  }

  ghost predicate CallsOk(calls: seq<Call>, pending: Option<nat>, active: Option<nat>, version: nat,
                          history: seq<Settings>, exited: bool) {
    && |history| == version + 1
    && (pending.Some? ==> pending.value < |calls| && calls[pending.value].ran.None?)
    && (active.Some? ==> active.value < |calls| && calls[active.value].ran.Some?)
    && (forall c :: 0 <= c < |calls| ==> CallOk(calls[c], IsOpen(pending, active, c), version, history, exited))
  }

  ghost predicate CallOk(call: Call, open: bool, version: nat, history: seq<Settings>, exited: bool)
    requires |history| == version + 1
  {
    && call.closings == (if open then 0 else 1)
    && call.version <= version
    && (call.ran.Some? ==> call.ran.value == history[call.version])
    && (!open && call.ran.None? ==> exited)
  }

  ghost predicate TicketsOk(tickets: seq<Ticket>, calls: seq<Call>) {
    forall t :: 0 <= t < |tickets| ==> tickets[t].call < |calls| && tickets[t].asked <= calls[tickets[t].call].version
  }

  ghost predicate Inv(s: State) {
    && Placed(s.worker, s.pending, s.active, s.requests, s.stopped)
    && CallsOk(s.calls, s.pending, s.active, s.version, s.history, s.worker.Exited?)
    && UnrunOk(s.calls, s.pending, s.requests, s.worker.Exited?)
    && s.history[s.version] == s.base
    && TicketsOk(s.tickets, s.calls)
  }

  lemma AdoptKeepsInv(s: State, settings: Settings)
    requires Inv(s)
    ensures Inv(Adopt(s, settings))
  {}

  lemma PendingJoins(s: State)
    requires Inv(s) && s.pending.Some?
    ensures Inv(Hand(s.(calls := Versioned(s.calls, s.pending.value, s.version)), s.pending.value))
  {}

  lemma ActiveJoins(s: State)
    requires Inv(s) && s.active.Some? && s.calls[s.active.value].version == s.version
    ensures Inv(Hand(s, s.active.value))
  {}

  lemma NewCall(s: State)
    requires Inv(s) && s.pending.None? && !s.stopped
    ensures Inv(s.(calls := s.calls + [Call(s.version, 0, None)], pending := Some(|s.calls|),
                   requests := s.requests + [|s.calls|]))
  {
    var calls := s.calls + [Call(s.version, 0, None)];
    assert forall c :: 0 <= c < |s.calls| ==> calls[c] == s.calls[c];
    assert s.requests + [|s.calls|] == [|s.calls|];
  }

  lemma HandKeepsInv(s: State, c: nat)
    requires Inv(s) && c < |s.calls| && s.version <= s.calls[c].version
    ensures Inv(Hand(s, c))
  {
    hide Placed, CallsOk, UnrunOk;
  }

  lemma RequestKeepsInv(s: State)
    requires Inv(s) && Enabled(s, Request)
    ensures Inv(DoRequest(s))
  {
    CallsInBounds(s);
    if s.stopped || s.base.urls == [] {
    } else if s.pending.Some? {
      PendingJoins(s);
    } else if !Opens(s) {
      ActiveJoins(s);
    } else {
      NewCall(s);
      hide Inv;
      HandKeepsInv(s.(calls := s.calls + [Call(s.version, 0, None)], pending := Some(|s.calls|),
                      requests := s.requests + [|s.calls|]), |s.calls|);
    }
    hide Inv;
  }

  lemma CallsInBounds(s: State)
    requires Inv(s)
    ensures s.pending.Some? ==> s.pending.value < |s.calls|
    ensures s.active.Some? ==> s.active.value < |s.calls|
    ensures Enabled(s, Request)
  {}

  lemma WorkerKeepsInv(s: State, a: Action)
    requires Inv(s) && Enabled(s, a) && (a.Receive? || a.Begin? || a.Finish? || a.Leave? || a.Drain?)
    ensures Inv(Apply(s, a))
  {
    if a.Receive? || a.Leave? {
      HandoverKeepsInv(s, a);
    } else if a.Begin? {
      BeginKeepsInv(s);
    } else {
      CloseKeepsInv(s, a);
    }
    hide *;
  }

  lemma HandoverKeepsInv(s: State, a: Action)
    requires Inv(s) && Enabled(s, a) && (a.Receive? || a.Leave?)
    ensures Inv(Apply(s, a))
  {
    hide CallsOk, TicketsOk;
  }

  lemma BeginKeepsInv(s: State)
    requires Inv(s) && Enabled(s, Begin)
    ensures Inv(Apply(s, Begin))
  {}

  lemma CloseKeepsInv(s: State, a: Action)
    requires Inv(s) && Enabled(s, a) && (a.Finish? || a.Drain?)
    ensures Inv(Apply(s, a))
  {}

  lemma StepKeepsInv(s: State, a: Action)
    requires Inv(s)
    ensures Inv(Apply(s, a))
  {
    if Enabled(s, a) {
      match a
      case Update(settings, saved) =>
        AdoptKeepsInv(s.(awaited := s.runtime.Some? && s.runtime.value != settings, baseline := s.runtime), settings);
      case Sync =>
        if s.runtime.Some? {
          AdoptKeepsInv(s.(awaited := false, baseline := None), s.runtime.value);
        }
      case Request => RequestKeepsInv(s);
      case Receive => WorkerKeepsInv(s, a);
      case Begin => WorkerKeepsInv(s, a);
      case Finish => WorkerKeepsInv(s, a);
      case Leave => WorkerKeepsInv(s, a);
      case Drain => WorkerKeepsInv(s, a);
      case _ =>
    }
  }

  lemma {:induction false} ExecKeepsInv(s: State, run: seq<Action>)
    requires Inv(s)
    ensures Inv(Exec(s, run))
    decreases |run|
  {
    if run != [] {
      ExecKeepsInv(s, run[..|run| - 1]);
      StepKeepsInv(Exec(s, run[..|run| - 1]), run[|run| - 1]);
    }
  }

  lemma ReachableIsInv(s: State)
    requires Reachable(s)
    ensures Inv(s)
  {
    var base, runtime, run :| s == Exec(Initial(base, runtime), run);
    ExecKeepsInv(Initial(base, runtime), run);
  }

  // -------------------------------------------------------------- theorems

  /** The send under the lock never blocks, whoever requests (the worker's own
      timer included). */
  lemma SendNeverBlocks(s: State)
    requires Reachable(s)
    ensures Enabled(s, Request) && (Opens(s) ==> s.requests == [])
  {
    ReachableIsInv(s);
  }

  /** `pending == nil` implies an empty channel, except exactly when the worker is
      gone and some call never ran: it exits on the stop signal without draining
      the channel. Nothing is sent after that. */
  lemma EmptyChannelExactly(s: State)
    requires Reachable(s)
    ensures (s.pending.None? ==> s.requests == []) <==>
      !(s.worker.Exited? && exists c :: 0 <= c < |s.calls| && s.calls[c].ran.None?)
    ensures |s.requests| <= 1 && (s.worker.Exited? ==> !Opens(s))
  {
    ReachableIsInv(s);
  }

  /** Such a state exists: stop before the worker took the request. */
  lemma RequestLeftBehind(base: Settings)
    requires base.urls != []
    ensures var s := Exec(Initial(base, None), [Start, Request, Stop, Leave, Drain]);
      s.pending.None? && s.requests != [] && |s.calls| == 1 && s.calls[0].closings == 1
  {
    LeavingSteps(base);
    ExecFive(Initial(base, None), Start, Request, Stop, Leave, Drain);
    hide Exec;
  }

  lemma ExecThree(s: State, a: Action, b: Action, c: Action)
    ensures Exec(s, [a, b, c]) == Apply(Apply(Apply(s, a), b), c)
  {
    hide Apply;
    ExecEmpty(s);
    ExecAppend(s, [], a);
    ExecAppend(s, [a], b);
    ExecAppend(s, [a, b], c);
    assert [] + [a] == [a] && [a] + [b] == [a, b] && [a, b] + [c] == [a, b, c];
  }

  lemma ExecFive(s: State, a: Action, b: Action, c: Action, d: Action, e: Action)
    ensures Exec(s, [a, b, c, d, e]) == Apply(Apply(Apply(Apply(Apply(s, a), b), c), d), e)
  {
    hide Apply;
    ExecThree(s, a, b, c);
    ExecAppend(s, [a, b, c], d);
    ExecAppend(s, [a, b, c, d], e);
    assert [a, b, c] + [d] == [a, b, c, d] && [a, b, c, d] + [e] == [a, b, c, d, e];
    hide Exec;
  }

  lemma ExecEmpty(s: State)
    ensures Exec(s, []) == s
  {}

  lemma ExecAppend(s: State, run: seq<Action>, a: Action)
    ensures Exec(s, run + [a]) == Apply(Exec(s, run), a)
  {
    assert (run + [a])[..|run|] == run;
  }

  /** One request made, not yet taken by the worker. */
  function Left(base: Settings, worker: Worker, stopped: bool): State {
    Initial(base, None).(calls := [Call(0, 0, None)], pending := Some(0), requests := [0], worker := worker,
                         stopped := stopped, tickets := [Ticket(0, 0)])
  }

  lemma LeavingSteps(base: Settings)
    requires base.urls != []
    ensures var s0 := Initial(base, None);
      && Apply(s0, Start) == s0.(worker := Idle)
      && Apply(s0.(worker := Idle), Request) == Left(base, Idle, false)
      && Apply(Left(base, Idle, false), Stop) == Left(base, Idle, true)
      && Apply(Left(base, Idle, true), Leave) == Left(base, Exiting, true)
    ensures var e := Apply(Left(base, Exiting, true), Drain);
      e.pending.None? && e.requests == [0] && e.calls == [Call(0, 1, None)]
  {
    var s0 := Initial(base, None);
    RequestUnfolds(s0.(worker := Idle));
    assert s0.calls + [Call(0, 0, None)] == [Call(0, 0, None)] && s0.tickets + [Ticket(0, 0)] == [Ticket(0, 0)];
    hide DoRequest, Opens, DoSync, DoUpdate;
  }

  /** A call given to a caller that runs, runs with the settings of one version, no
      older than when the caller asked. */
  lemma CallsRunFresh(s: State, t: nat)
    requires Reachable(s) && t < |s.tickets|
    ensures var k := s.tickets[t];
      && k.call < |s.calls| && |s.history| == s.version + 1
      && (s.calls[k.call].ran.Some? ==>
            && k.asked <= s.calls[k.call].version <= s.version
            && s.calls[k.call].ran.value == s.history[s.calls[k.call].version])
  {
    ReachableIsInv(s);
  }

  /** `done` is never closed twice; the calls not yet closed are the active and the
      pending one; and once the worker is gone every call was closed exactly once. */
  lemma DoneClosedOnce(s: State, c: nat)
    requires Reachable(s) && c < |s.calls|
    ensures s.calls[c].closings <= 1
    ensures s.calls[c].closings == 0 <==> s.pending == Some(c) || s.active == Some(c)
    ensures s.worker.Exited? ==> s.calls[c].closings == 1
    ensures s.calls[c].closings == 1 && s.calls[c].ran.None? ==> s.stopped
  {
    ReachableIsInv(s);
  }

  /** Once stopped, nothing the callers do opens a call or changes the settings. */
  lemma {:induction false} StoppedStays(s: State, run: seq<Action>)
    requires s.stopped
    ensures var e := Exec(s, run);
      e.stopped && |e.calls| == |s.calls| && e.tickets == s.tickets && e.base == s.base && e.version == s.version
    decreases |run|
  {
    if run != [] {
      StoppedStays(s, run[..|run| - 1]);
    }
  }

  lemma EditStep(s: State, settings: Settings, before: Option<Settings>, a: Action)
    requires s.base == settings && s.runtime == before && !a.Update? && (a.Publish? ==> a.runtime == before)
    requires before.Some? && before.value != settings ==> s.awaited && s.baseline == before
    ensures var e := Apply(s, a);
      && e.base == settings && e.runtime == before && e.version == s.version
      && (before.Some? && before.value != settings ==> e.awaited && e.baseline == before)
  {}

  /** A deliberate edit is not overwritten by the settings it replaces, however
      often those are published again: it stays until something else is published
      or another edit comes. */
  lemma {:induction false} EditSurvives(s: State, settings: Settings, run: seq<Action>)
    requires !s.stopped
    requires forall i :: 0 <= i < |run| ==> !run[i].Update? && (run[i].Publish? ==> run[i].runtime == s.runtime)
    ensures var e := Exec(DoUpdate(s, settings, true), run);
      && e.base == settings && e.version == s.version + 1 && e.runtime == s.runtime
      && (s.runtime.Some? && s.runtime.value != settings ==> e.awaited && e.baseline == s.runtime)
    decreases |run|
  {
    if run != [] {
      var before, a := run[..|run| - 1], run[|run| - 1];
      EditSurvives(s, settings, before);
      EditStep(Exec(DoUpdate(s, settings, true), before), settings, s.runtime, a);
    }
  }

  /** Settings published by the runtime are adopted as a new version, unless they are
      the ones that an edit, still waiting for the runtime, is about to replace. */
  lemma SyncAdopts(s: State, published: Settings)
    requires !s.stopped && !(s.awaited && s.baseline == Some(published))
    ensures var p := Apply(s, Publish(Some(published))); var e := Apply(p, Sync);
      && p.runtime == Some(published) && p.base == s.base && p.version == s.version && p.tickets == s.tickets
      && e.base == published && e.runtime == Some(published) && !e.awaited && e.baseline.None?
      && e.tickets == s.tickets && e.calls == s.calls
      && (if published == s.base then e.version == s.version else e.version == s.version + 1)
  {}

  /** An edit waits for the runtime exactly if the runtime has other settings, which
      are then the ones it is about to replace. */
  lemma EditWaits(s: State, settings: Settings)
    requires !s.stopped
    ensures var e := Apply(s, Update(settings, true));
      && e.base == settings && e.version == s.version + 1 && e.runtime == s.runtime
      && (e.awaited && e.baseline == e.runtime <==> s.runtime.Some? && s.runtime.value != settings)
    ensures Apply(s, Update(settings, false)) == s
  {}

  ghost predicate Undisturbed(run: seq<Action>) {
    forall i :: 0 <= i < |run| ==> !run[i].Update? && !run[i].Publish?
  }

  lemma {:induction false} AdoptedStays(s: State, run: seq<Action>)
    requires s.runtime == Some(s.base) && Undisturbed(run)
    ensures var e := Exec(s, run);
      && e.base == s.base && e.version == s.version && e.runtime == s.runtime && s.tickets <= e.tickets
      && (forall t :: |s.tickets| <= t < |e.tickets| ==> e.tickets[t].asked == s.version)
    decreases |run|
  {
    if run != [] {
      AdoptedStays(s, run[..|run| - 1]);
      TicketsStep(Exec(s, run[..|run| - 1]), run[|run| - 1]);
    }
  }

  lemma TicketsStep(s: State, a: Action)
    requires !a.Update? && !a.Publish? && s.runtime == Some(s.base)
    ensures var e := Apply(s, a);
      && e.base == s.base && e.version == s.version && e.runtime == s.runtime
      && (e.tickets == s.tickets || exists c :: e.tickets == s.tickets + [Ticket(c, s.version)])
  {
    if a.Request? && Enabled(s, a) && !s.stopped && s.base.urls != [] {
      var e := Apply(s, a);
      var c := e.tickets[|e.tickets| - 1].call;
      assert e.tickets == s.tickets + [Ticket(c, s.version)];
    }
  }

  /** A call requested after the runtime's settings were adopted, and run before
      anything else is published or edited, runs with those settings. */
  lemma PublishedIsFetched(s: State, published: Settings, run: seq<Action>, t: nat)
    requires Reachable(s) && !s.stopped && !(s.awaited && s.baseline == Some(published)) && Undisturbed(run)
    requires var e := Exec(Apply(Apply(s, Publish(Some(published))), Sync), run); |s.tickets| <= t < |e.tickets|
    ensures var e := Exec(Apply(Apply(s, Publish(Some(published))), Sync), run); var c := e.tickets[t].call;
      c < |e.calls| && (e.calls[c].ran.Some? ==> e.calls[c].ran.value == published)
  {
    var p := Apply(s, Publish(Some(published)));
    var synced := Apply(p, Sync);
    SyncAdopts(s, published);
    ReachableIsInv(s);
    StepKeepsInv(s, Publish(Some(published)));
    StepKeepsInv(p, Sync);
    ExecKeepsInv(synced, run);
    AdoptedStays(synced, run);
    hide Exec, Apply, Reachable;
    TicketRan(Exec(synced, run), t);
  }

  lemma TicketRan(s: State, t: nat)
    requires Inv(s) && t < |s.tickets| && s.tickets[t].asked == s.version
    ensures var c := s.tickets[t].call; c < |s.calls| && (s.calls[c].ran.Some? ==> s.calls[c].ran.value == s.base)
  {}

  /** Requests coalesce: one made while a call is pending joins it, one made while a call
      runs with the current settings joins that, and no other call is opened. */
  lemma RequestsCoalesce(s: State)
    requires Reachable(s) && !s.stopped && s.base.urls != []
    ensures var e := Apply(s, Request);
      && |e.tickets| == |s.tickets| + 1
      && (var c := e.tickets[|s.tickets|].call;
          if s.pending.Some? then Some(c) == s.pending && |e.calls| == |s.calls|
          else if s.active.Some? && s.active.value < |s.calls| && s.calls[s.active.value].version == s.version then
            Some(c) == s.active && |e.calls| == |s.calls|
          else c == |s.calls| && |e.calls| == |s.calls| + 1 && e.pending == Some(c))
  {
    ReachableIsInv(s);
    CallsInBounds(s);
    hide Inv;
  }

  /** In every state a run can reach, the worker can take its next step, and an idle
      one takes up what is pending. */
  lemma WorkerIsNeverStuck(s: State)
    requires Reachable(s)
    ensures match s.worker
            case NotStarted => Enabled(s, Start)
            case Idle => (s.pending.Some? ==> Enabled(s, Receive)) && (s.stopped ==> Enabled(s, Leave))
            case Received(c) => s.pending == Some(c) && Enabled(s, Begin)
            case Running(c) => s.active == Some(c) && Enabled(s, Finish)
            case Exiting => Enabled(s, Drain)
            case Exited => true
  {
    ReachableIsInv(s);
    hide CallsOk, UnrunOk, TicketsOk;
  }

  /** An idle worker runs a request with the settings of now. */
  lemma RequestIsRun(s: State)
    requires Reachable(s) && !s.stopped && s.base.urls != [] && s.worker.Idle? && s.pending.None?
    ensures var a := Apply(Apply(Apply(s, Request), Receive), Begin); var e := Apply(a, Finish); var c := |s.calls|;
      && a.worker == Running(c) && a.active == Some(c) && a.pending.None?
      && e.worker.Idle? && e.active.None? && e.requests == [] && |e.calls| == c + 1
      && e.calls[c] == Call(s.version, 1, Some(s.base)) && e.calls[..c] == s.calls
      && e.tickets == s.tickets + [Ticket(c, s.version)]
  {
    ReachableIsInv(s);
    IdleParts(s);
    hide *;
    var c := Call(s.version, 0, None);
    var q := s.(calls := s.calls + [c], pending := Some(|s.calls|), requests := [|s.calls|],
                tickets := s.tickets + [Ticket(|s.calls|, s.version)]);
    RequestUnfolds(s);
    ReceiveUnfolds(q, |s.calls|);
    BeginUnfolds(q.(worker := Received(|s.calls|), requests := []), s.calls);
    FinishUnfolds(Apply(q.(worker := Received(|s.calls|), requests := []), Begin), s.calls);
  }

  lemma RequestUnfolds(s: State)
    requires !s.stopped && s.base.urls != [] && s.pending.None? && s.active.None? && s.requests == []
    ensures Apply(s, Request) ==
      s.(calls := s.calls + [Call(s.version, 0, None)], pending := Some(|s.calls|), requests := [|s.calls|],
         tickets := s.tickets + [Ticket(|s.calls|, s.version)])
  {}

  lemma ReceiveUnfolds(s: State, c: nat)
    requires s.worker.Idle? && s.requests == [c]
    ensures Apply(s, Receive) == s.(worker := Received(c), requests := [])
  {}

  lemma BeginUnfolds(s: State, before: seq<Call>)
    requires s.worker == Received(|before|) && |s.calls| == |before| + 1 && s.calls[..|before|] == before
    ensures var e := Apply(s, Begin);
      && e == s.(worker := Running(|before|), pending := None, active := Some(|before|), calls := e.calls)
      && |e.calls| == |before| + 1 && e.calls[..|before|] == before
      && e.calls[|before|] == Call(s.version, s.calls[|before|].closings, Some(s.base))
  {}

  lemma FinishUnfolds(s: State, before: seq<Call>)
    requires s.worker == Running(|before|) && |s.calls| == |before| + 1 && s.calls[..|before|] == before
    ensures var e := Apply(s, Finish); var c := s.calls[|before|];
      && e == s.(worker := Idle, active := None, calls := e.calls)
      && |e.calls| == |before| + 1 && e.calls[..|before|] == before
      && e.calls[|before|] == c.(closings := c.closings + 1)
  {}

  lemma IdleParts(s: State)
    requires Inv(s) && s.worker.Idle? && s.pending.None?
    ensures s.active.None? && s.requests == []
  {
    hide CallsOk, UnrunOk, TicketsOk;
  }

  // ------------------------------------------------------------ as an object

  /** The manager whose critical sections the steps are. A call is named by its
      position; what only records history is ghost. */
  class Manager {
    var base: Settings
    var version: nat
    var runtime: Option<Settings>
    var pendingSettings: bool
    var pendingBaseline: Option<Settings>
    var calls: seq<Call>
    var pending: Option<nat>
    var active: Option<nat>
    var requests: seq<nat>
    var stopped: bool
    var worker: Worker
    ghost var history: seq<Settings>
    ghost var tickets: seq<Ticket>

    ghost function View(): State
      reads this
    {
      State(base, version, runtime, pendingSettings, pendingBaseline, calls, pending, active, requests, worker, stopped,
        history, tickets)
    }

    constructor (base: Settings, runtime: Option<Settings>)
      ensures View() == Initial(base, runtime)
    {
      this.base, this.version, this.runtime, this.pendingSettings, this.pendingBaseline :=
        base, 0, runtime, false, None;
      calls, pending, active, requests, stopped, worker := [], None, None, [], false, NotStarted;
      history, tickets := [base], [];
    }

    method UpdateConfig(settings: Settings, saved: bool) returns (ok: bool)
      modifies this
      ensures View() == DoUpdate(old(View()), settings, saved)
      ensures ok <==> !old(stopped) && saved
    {
      if stopped || !saved {
        return false;
      }
      var current := runtime;
      pendingSettings := current.Some? && current.value != settings;
      pendingBaseline := current;
      base := settings;
      version := version + 1;
      history := history + [settings];
      ok := true;
    }

    method SyncRuntimeConfig()
      modifies this
      ensures View() == DoSync(old(View()))
    {
      if stopped || runtime.None? {
        return;
      }
      if runtime.value == base {
        pendingSettings, pendingBaseline := false, None;
        return;
      }
      if pendingSettings && runtime == pendingBaseline {
        return;
      }
      base := runtime.value;
      pendingSettings, pendingBaseline := false, None;
      version := version + 1;
      history := history + [base];
    }

    /** The call the caller may wait for. */
    method RequestRefresh() returns (call: Option<nat>)
      requires Inv(View())
      modifies this
      ensures View() == DoRequest(old(View())) && Inv(View())
      ensures call.None? <==> old(stopped) || old(base).urls == []
      ensures call.Some? ==> call.value < |calls| && tickets == old(tickets) + [Ticket(call.value, old(version))]
    {
      CallsInBounds(View());
      RequestKeepsInv(View());
      hide Inv;
      call := None;
      if !stopped && base.urls != [] {
        if pending.Some? {
          JoinPending();
          call := pending;
        } else if active.Some? && calls[active.value].version == version {
          tickets := tickets + [Ticket(active.value, version)];
          call := active;
        } else {
          OpenCall();
          call := pending;
        }
      }
    }

    /** A pending call takes on the latest settings. */
    method JoinPending()
      requires pending.Some? && pending.value < |calls|
      modifies this`calls, this`tickets
      ensures View() == Hand(old(View()).(calls := Versioned(old(calls), pending.value, version)), pending.value)
      ensures tickets == old(tickets) + [Ticket(pending.value, version)] && |calls| == |old(calls)|
    {
      calls := calls[pending.value := calls[pending.value].(version := version)];
      tickets := tickets + [Ticket(pending.value, version)];
    }

    method OpenCall()
      modifies this`calls, this`pending, this`requests, this`tickets
      ensures pending == Some(|old(calls)|) && |calls| == |old(calls)| + 1
      ensures tickets == old(tickets) + [Ticket(|old(calls)|, version)]
      ensures View() == Hand(old(View()).(calls := old(calls) + [Call(version, 0, None)], pending := Some(|old(calls)|),
                                          requests := old(requests) + [|old(calls)|]), |old(calls)|)
    {
      var c := |calls|;
      calls := calls + [Call(version, 0, None)];
      pending := Some(c);
      requests := requests + [c];
      tickets := tickets + [Ticket(c, version)];
    }

    /** The worker takes the request and starts it with the settings of now. */
    method BeginRefresh() returns (settings: Settings)
      requires Inv(View()) && worker.Received?
      modifies this
      ensures View() == Apply(old(View()), Begin) && Inv(View()) && settings == base
    {
      WorkerKeepsInv(View(), Begin);
      var c := worker.call;
      pending, active := None, Some(c);
      calls := calls[c := calls[c].(version := version, ran := Some(base))];
      worker := Running(c);
      settings := base;
    }

    method FinishRefresh()
      requires Inv(View()) && worker.Running?
      modifies this
      ensures View() == Apply(old(View()), Finish) && Inv(View())
    {
      WorkerKeepsInv(View(), Finish);
      calls := calls[worker.call := calls[worker.call].(closings := calls[worker.call].closings + 1)];
      active, worker := None, Idle;
    }

    /** What the worker does on its way out. */
    method DrainPending()
      requires Inv(View()) && worker.Exiting?
      modifies this
      ensures View() == Apply(old(View()), Drain) && Inv(View())
    {
      WorkerKeepsInv(View(), Drain);
      if pending.Some? {
        calls := calls[pending.value := calls[pending.value].(closings := calls[pending.value].closings + 1)];
        pending := None;
      }
      worker := Exited;
    }
  }
}
