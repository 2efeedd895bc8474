/** The runtime lifecycle: start, reload, rollback, node edits and close as
    transactions under the lifecycle lock, over instances that must not leak.
    Everything the outside decides is an input: when the context is found
    cancelled, how each launch ends, whether a file is saved, and whether a `Close`
    that has not got the lock yet marks the manager meanwhile. */
module Lifecycle {

  datatype Phase = New | Running | Closed

  /** `settings` stands for what an operator decides, nodes included; `ports` for
      the assignment that a bind conflict may still change. */
  class Config {
    var settings: nat
    var ports: nat

    constructor (settings: nat, ports: nat)
      ensures this.settings == settings && this.ports == ports
    {
      this.settings, this.ports := settings, ports;
    }

    /** Moves the node that holds the port to another one, if it can. */
    method ReassignConflictingPort(move: Option<nat>) returns (moved: bool)
      modifies this`ports
      ensures moved <==> move.Some?
      ensures ports == if moved then move.value else old(ports)
    {
      moved := move.Some?;
      if moved {
        ports := move.value;
      }
    }
  }

  class Context {
    var done: bool

    constructor ()
      ensures !done
    {
      done := false;
    }

    /** Reads the context's error; it may have been cancelled meanwhile. */
    method Err(cancelled: bool) returns (e: bool)
      modifies this
      ensures e == done == (old(done) || cancelled)
    {
      done := done || cancelled;
      e := done;
    }
  }

  datatype Option<+T> = None | Some(value: T)

  /** How one launch ends. `move` is where the node with the port can go. */
  datatype Try = NotCreated | Broken | Conflict(move: Option<nat>) | Up

  /** One instance, with what its configuration said when it was built. */
  class Box {
    const cfg: Config
    const settings: nat
    const ports: nat
    var phase: Phase
    ghost var closings: nat

    constructor (cfg: Config)
      ensures this.cfg == cfg && settings == cfg.settings && ports == cfg.ports && phase == New && closings == 0
    {
      this.cfg, this.settings, this.ports := cfg, cfg.settings, cfg.ports;
      phase, closings := New, 0;
    }

    method Start(up: bool) returns (ok: bool)
      requires phase.New?
      modifies this`phase
      ensures ok == up && phase == if up then Running else New
    {
      ok := up;
      if ok {
        phase := Running;
      }
    }

    method Close()
      modifies this
      ensures phase.Closed? && closings == old(closings) + 1
    {
      phase, closings := Closed, closings + 1;
    }
  }

  const MAX_RETRIES := 10
  const ROLLBACK_ATTEMPTS := 5

  // ------------------------------------------------------------------ inputs

  /** What one reload meets: `cancel(i)` if the context has been cancelled by its
      `i`-th reading, the outcomes of the launches of the new and of the old
      configuration, and whether the manager is marked closed meanwhile. */
  datatype Readings = Readings(cancel: nat -> bool, tries: nat -> Try, backs: nat -> Try, marked: bool)

  /** What a start meets. */
  datatype Starting = Starting(parentDone: bool, monitor: bool, cancel: nat -> bool, tries: nat -> Try, marked: bool)

  /** What an edit with reload meets: whether the edit is accepted, what it says,
      the reload, whether it is persisted, and the restoring reload. */
  datatype Editing = Editing(accepted: bool, settings: nat, ports: nat, first: Readings, persisted: bool,
                             second: Readings)

  /** The context is live at the first `n` readings. */
  ghost predicate Alive(done: bool, cancel: nat -> bool, n: nat) {
    !done && forall i: nat :: i < n ==> !cancel(i)
  }

  lemma AliveNext(done: bool, cancel: nat -> bool, n: nat)
    ensures Alive(done, cancel, n + 1) <==> Alive(done, cancel, n) && !cancel(n)
  {}

  ghost predicate Conflicts(tries: nat -> Try, k: nat) {
    forall i: nat :: i < k ==> tries(i).Conflict?
  }

  /** Launch `k` of the new configuration comes up, all before it met conflicts,
      and the context is live at every reading up to the commit. */
  ghost predicate NewUpAt(done: bool, w: Readings, k: nat) {
    k < 10 && Conflicts(w.tries, k) && w.tries(k).Up? && Alive(done, w.cancel, 4 + 2 * k)
  }

  ghost predicate NewComesUp(done: bool, w: Readings) { exists k: nat :: NewUpAt(done, w, k) }

  predicate Moves(t: Try) { t.Conflict? && t.move.Some? }

  /** Of the conflicts from number `from` (zero-based) up to `n`, the last that could move
      a port decides; without one, the ports stay. */
  ghost predicate LastMove(tries: nat -> Try, from: nat, n: nat, before: nat, after: nat) {
    && ((forall i: nat :: from <= i < n ==> !Moves(tries(i))) ==> after == before)
    && (forall i: nat :: from <= i < n && Moves(tries(i)) && (forall j: nat :: i < j < n ==> !Moves(tries(j))) ==>
          after == tries(i).move.value)
  }

  lemma NoMoveYet(tries: nat -> Try, from: nat, ports: nat)
    ensures LastMove(tries, from, 0, ports, ports)
  {}

  lemma NextMove(tries: nat -> Try, from: nat, n: nat, before: nat, after: nat)
    requires LastMove(tries, from, n, before, after) && tries(n).Conflict?
    ensures LastMove(tries, from, n + 1, before,
                     if from <= n && tries(n).move.Some? then tries(n).move.value else after)
  {
    if from <= n && !Moves(tries(n)) {
      forall i: nat | from <= i < n + 1 && Moves(tries(i)) && forall j: nat :: i < j < n + 1 ==> !Moves(tries(j))
        ensures after == tries(i).move.value
      {
        assert forall j: nat :: i < j < n ==> !Moves(tries(j));
      }
    }
  }

  /** A reload keeps its ports through the first five conflicts; from the sixth on, a
      conflict moves one. */
  ghost predicate PortsKept(done: bool, w: Readings, before: nat, after: nat) {
    forall k: nat :: NewUpAt(done, w, k) ==> LastMove(w.tries, 5, k, before, after)
  }

  /** The new configuration is given up after `k` conflicts. */
  ghost predicate GivesUpAt(w: Readings, k: nat) {
    k <= MAX_RETRIES && Conflicts(w.tries, k) && (k < MAX_RETRIES ==> w.tries(k).NotCreated? || w.tries(k).Broken?)
  }

  /** Readings made by then. */
  function ReadsAtGivingUp(k: nat): nat { if k == MAX_RETRIES then 2 + 2 * k else 3 + 2 * k }

  ghost predicate Fails(backs: nat -> Try, j: nat) {
    forall i: nat :: i < j ==> backs(i).Broken? || backs(i).Conflict?
  }

  /** Launch `j` of the old configuration comes up after `before` readings. */
  ghost predicate BackUpAt(done: bool, w: Readings, before: nat, j: nat) {
    j < 5 && Fails(w.backs, j) && w.backs(j).Up? && Alive(done, w.cancel, before + 3 + 2 * j)
  }

  ghost predicate BackComesUp(done: bool, w: Readings, before: nat) { exists j: nat :: BackUpAt(done, w, before, j) }

  ghost predicate OldUpAt(done: bool, w: Readings, k: nat) {
    GivesUpAt(w, k) && BackComesUp(done, w, ReadsAtGivingUp(k))
  }

  ghost predicate OldComesUp(done: bool, w: Readings) { exists k: nat :: OldUpAt(done, w, k) }

  ghost predicate StartUpAt(w: Starting, k: nat) {
    && k < 10 && w.tries(k).Up? && Alive(false, w.cancel, k + 3)
    && (forall i: nat :: i < k ==> w.tries(i).Conflict? && w.tries(i).move.Some?)
  }

  ghost predicate StartsUp(w: Starting) { w.monitor && exists k: nat :: StartUpAt(w, k) }

  /** The edit's own reload goes through. */
  ghost predicate Applies(done: bool, e: Editing) {
    Alive(done, e.first.cancel, 1) && NewComesUp(done, e.first)
  }

  /** The restoring reload is turned away: the manager was marked closed, or the
      context ended, since the edit was applied. */
  ghost predicate RestoreRefused(e: Editing) {
    e.first.marked || !Alive(false, e.second.cancel, 1)
  }

  ghost predicate OldRunsAgain(e: Editing) {
    !RestoreRefused(e) && NewComesUp(false, e.second)
  }

  /** The unpersisted edit stays up or is brought up again by the rollback of the
      restoring reload. */
  ghost predicate EditKeepsRunning(e: Editing) {
    RestoreRefused(e) || OldComesUp(false, e.second)
  }

  /** Nothing comes up once the context is found cancelled among the retries. */
  lemma CancelledReload(done: bool, w: Readings, n: nat)
    requires n <= MAX_RETRIES && Conflicts(w.tries, n) && !Alive(done, w.cancel, 3 + 2 * n)
    ensures !NewComesUp(done, w) && !OldComesUp(done, w)
  {
    forall k: nat ensures !NewUpAt(done, w, k) && !OldUpAt(done, w, k) {
      if k < n {
        assert w.tries(k).Conflict?;
      }
    }
  }

  /** Launch `n` came up: what is left is the last reading. */
  lemma LaunchedReload(done: bool, w: Readings, n: nat)
    requires n < MAX_RETRIES && Conflicts(w.tries, n) && w.tries(n).Up?
    ensures NewComesUp(done, w) <==> Alive(done, w.cancel, 4 + 2 * n)
    ensures !OldComesUp(done, w)
  {
    forall k: nat ensures (NewUpAt(done, w, k) ==> k == n) && !OldUpAt(done, w, k) {
      if k < n {
        assert w.tries(k).Conflict?;
      }
    }
    assert NewUpAt(done, w, n) <==> Alive(done, w.cancel, 4 + 2 * n);
  }

  lemma KeptPorts(done: bool, w: Readings, n: nat, before: nat, after: nat)
    requires Conflicts(w.tries, n) && w.tries(n).Up? && LastMove(w.tries, 5, n, before, after)
    ensures PortsKept(done, w, before, after)
  {
    forall k: nat ensures NewUpAt(done, w, k) ==> k == n {
      if k < n {
        assert w.tries(k).Conflict?;
      }
    }
  }

  /** Given up after `n` conflicts: the rest is up to the rollback. */
  lemma AbandonedReload(done: bool, w: Readings, n: nat)
    requires GivesUpAt(w, n)
    ensures !NewComesUp(done, w)
    ensures OldComesUp(done, w) <==> BackComesUp(done, w, ReadsAtGivingUp(n))
  {
    forall k: nat ensures !NewUpAt(done, w, k) && (OldUpAt(done, w, k) ==> k == n) {
      if k < n {
        assert w.tries(k).Conflict?;
      }
    }
    assert OldUpAt(done, w, n) <==> BackComesUp(done, w, ReadsAtGivingUp(n));
  }

  /** The rollback stops short: no launch of the old configuration comes up. */
  lemma StoppedRollback(done: bool, w: Readings, before: nat, j: nat)
    requires Fails(w.backs, j)
    requires j == ROLLBACK_ATTEMPTS || w.backs(j).NotCreated? || !Alive(done, w.cancel, before + 2 + 2 * j)
    ensures !BackComesUp(done, w, before)
  {
    forall i: nat ensures !BackUpAt(done, w, before, i) {
      if i < j {
        assert w.backs(i).Broken? || w.backs(i).Conflict?;
      }
    }
  }

  lemma NothingFailedYet(backs: nat -> Try)
    ensures Fails(backs, 0)
  {}

  /** Cancelled before attempt `j`. */
  lemma RolledBackLate(done: bool, w: Readings, before: nat, j: nat)
    requires Fails(w.backs, j) && j <= ROLLBACK_ATTEMPTS && !Alive(done, w.cancel, before + 1 + 2 * j)
    ensures !BackComesUp(done, w, before)
  {
    StoppedRollback(done, w, before, j);
  }

  lemma LaunchedRollback(done: bool, w: Readings, before: nat, j: nat)
    requires j < ROLLBACK_ATTEMPTS && Fails(w.backs, j) && w.backs(j).Up?
    ensures BackComesUp(done, w, before) <==> Alive(done, w.cancel, before + 3 + 2 * j)
  {
    forall i: nat ensures BackUpAt(done, w, before, i) ==> i == j {
      if i < j {
        assert w.backs(i).Broken? || w.backs(i).Conflict?;
      }
    }
    assert BackUpAt(done, w, before, j) <==> Alive(done, w.cancel, before + 3 + 2 * j);
  }

  lemma StoppedStart(w: Starting, n: nat)
    requires forall i: nat :: i < n ==> w.tries(i).Conflict? && w.tries(i).move.Some?
    requires || n == MAX_RETRIES || !Alive(false, w.cancel, n + 1)
             || (!w.tries(n).Up? && !(w.tries(n).Conflict? && w.tries(n).move.Some?))
    ensures !StartsUp(w)
  {
    forall k: nat ensures !StartUpAt(w, k) {
      if k < n {
        assert w.tries(k).Conflict?;
      }
    }
  }

  lemma LaunchedStart(w: Starting, n: nat)
    requires w.monitor && n < MAX_RETRIES && w.tries(n).Up?
    requires forall i: nat :: i < n ==> w.tries(i).Conflict? && w.tries(i).move.Some?
    ensures StartsUp(w) <==> Alive(false, w.cancel, n + 3)
  {
    forall k: nat ensures StartUpAt(w, k) ==> k == n {
      if k < n {
        assert w.tries(k).Conflict?;
      }
    }
    assert StartUpAt(w, n) <==> Alive(false, w.cancel, n + 3);
  }

  // ----------------------------------------------------------------- manager

  datatype Outcome = Rejected | Failed | Done

  datatype Applied = Refused | NotApplied | Persisted | Unpersisted(restored: bool)

  class Manager {
    var currentBox: Box?
    var cfg: Config?
    var baseCtx: Context?
    var closed: bool
    /** Every instance ever created. */
    ghost var created: seq<Box>

    constructor (cfg: Config?)
      ensures Quiet() && currentBox == null && this.cfg == cfg && baseCtx == null && !closed && created == []
    {
      currentBox, baseCtx, closed, created := null, null, false, [];
      this.cfg := cfg;
    }

    /** All instances but `live` were closed, once. */
    ghost predicate AllClosedBut(live: Box?)
      reads this`created, created
    {
      forall i :: 0 <= i < |created| ==> created[i] == live || (created[i].phase.Closed? && created[i].closings == 1)
    }

    ghost predicate Live(b: Box)
      reads this`created, b
    {
      b in created && b.phase.Running? && b.closings == 0
    }

    /** What holds whenever the lifecycle lock is free: there is no current instance
        or it runs, and every other instance ever created was closed. */
    ghost predicate Quiet()
      reads this, created, if currentBox == null then {} else {currentBox}
    {
      && AllClosedBut(currentBox)
      && (currentBox != null ==> Live(currentBox) && cfg == currentBox.cfg && baseCtx != null)
    }

    /** Closed for good: nothing runs and nothing can be started. */
    ghost predicate Dead()
      reads this, created
    {
      closed && currentBox == null && AllClosedBut(null)
    }

    /** Instances are only ever added, at most `n` of them. */
    twostate predicate Grew(n: nat)
      reads this`created
    {
      && old(created) <= created && |created| <= |old(created)| + n
      && (forall i :: |old(created)| <= i < |created| ==> fresh(created[i]))
    }

    /** A concurrent `Close` may have marked the manager. */
    method Interfere(marked: bool)
      modifies this`closed
      ensures closed == (old(closed) || marked)
    {
      closed := closed || marked;
    }

    /** Builds an instance and starts it; one that does not start is closed. */
    method Launch(config: Config, t: Try) returns (box: Box?)
      requires AllClosedBut(null)
      modifies this`created
      ensures Grew(1) && AllClosedBut(box) && (box != null <==> t.Up?)
      ensures |created| == |old(created)| + if t.NotCreated? then 0 else 1
      ensures box != null ==> Live(box) && fresh(box) && Built(box, config)
    {
      if t.NotCreated? {
        return null;
      }
      box := new Box(config);
      created := created + [box];
      var ok := box.Start(t.Up?);
      if !ok {
        box.Close();
        box := null;
      }
    }

    /** The instance was built from what the configuration says now. */
    ghost predicate Built(b: Box, config: Config)
      reads config
    {
      b.cfg == config && b.settings == config.settings && b.ports == config.ports
    }

    /** Closes the current instance and forgets the base context. */
    method CloseComponents()
      requires AllClosedBut(currentBox) && (currentBox != null ==> Live(currentBox))
      modifies this`currentBox, this`baseCtx, created, if baseCtx == null then {} else {baseCtx}
      ensures currentBox == null && baseCtx == null && AllClosedBut(null)
      ensures old(baseCtx) != null ==> old(baseCtx).done
    {
      var instance := currentBox;
      if baseCtx != null {
        baseCtx.done := true;
      }
      currentBox, baseCtx := null, null;
      if instance != null {
        instance.Close();
      }
    }

    // ---------------------------------------------------------------- start

    /** The retry loop of `Start`: a bind conflict is retried, at most ten
        instances in all, only after the port was moved. */
    method StartInstance(ctx: Context, config: Config, w: Starting) returns (box: Box?, n: nat)
      requires AllClosedBut(null) && !ctx.done && w.monitor
      modifies this`created, ctx, config`ports
      ensures Grew(MAX_RETRIES)
      ensures AllClosedBut(box) && (box != null ==> Live(box) && fresh(box) && Built(box, config))
      ensures box == null ==> !StartsUp(w)
      ensures box != null ==>
        !ctx.done && Alive(false, w.cancel, n + 1) && (StartsUp(w) <==> Alive(false, w.cancel, n + 3))
      ensures box != null ==>
        n < 10 && LastMove(w.tries, 0, n, old(config.ports), config.ports)
    {
      n := 0;
      NoMoveYet(w.tries, 0, config.ports);
      hide LastMove, Moves;
      for retry := 0 to MAX_RETRIES
        invariant Grew(retry) && AllClosedBut(null) && n == retry
        invariant !ctx.done && Alive(false, w.cancel, n)
        invariant forall i: nat :: i < n ==> w.tries(i).Conflict? && w.tries(i).move.Some?
        invariant LastMove(w.tries, 0, n, old(config.ports), config.ports)
      {
        var cancelled := ctx.Err(w.cancel(retry));
        if cancelled {
          StoppedStart(w, n);
          return null, n;
        }
        box := Launch(config, w.tries(retry));
        if box != null {
          LaunchedStart(w, n);
          return;
        }
        if !w.tries(retry).Conflict? {
          StoppedStart(w, n);
          return;
        }
        var moved := MoveAway(config, w.tries, retry, old(config.ports));
        if !moved {
          StoppedStart(w, n);
          return;
        }
        n := n + 1;
      }
      StoppedStart(w, n);
      box := null;
    }

    method MoveAway(config: Config, tries: nat -> Try, n: nat, ghost ports: nat) returns (moved: bool)
      requires tries(n).Conflict? && LastMove(tries, 0, n, ports, config.ports)
      modifies config`ports
      ensures moved <==> tries(n).move.Some?
      ensures LastMove(tries, 0, n + 1, ports, config.ports)
    {
      NextMove(tries, 0, n, ports, config.ports);
      hide LastMove;
      moved := config.ReassignConflictingPort(tries(n).move);
    }

    /** Starts the first instance; succeeds exactly when one comes up and the
        context stays live. A failed start leaves nothing behind. */
    method Start(w: Starting) returns (r: Outcome)
      requires Quiet()
      modifies this, created, if cfg == null then {} else {cfg}, if baseCtx == null then {} else {baseCtx}
      ensures Quiet() && Grew(MAX_RETRIES) && cfg == old(cfg) && (old(closed) ==> closed)
      ensures cfg != null ==> cfg.settings == old(cfg.settings)
      ensures r.Rejected? <==> w.parentDone || old(closed) || old(cfg) == null || old(currentBox) != null
      ensures r.Rejected? ==> currentBox == old(currentBox) && created == old(created) && baseCtx == old(baseCtx)
      ensures !r.Rejected? ==> (r.Done? <==> StartsUp(w)) && closed == w.marked
      ensures r.Failed? ==> currentBox == null && baseCtx == null
      ensures r.Done? ==>
        currentBox != null && fresh(currentBox) && Built(currentBox, cfg) && fresh(baseCtx) && !baseCtx.done
    {
      if w.parentDone || closed || cfg == null || currentBox != null {
        return Rejected;
      }
      var ctx := new Context();
      baseCtx := ctx;
      Interfere(w.marked);
      if !w.monitor {
        CloseComponents();
        return Failed;
      }
      var box, n := StartInstance(ctx, cfg, w);
      hide Alive, StartsUp;
      r := Failed;
      if box != null {
        r := CommitStart(ctx, box, w, n);
      }
      if r.Failed? {
        CloseComponents();
      }
    }

    /** The last readings of a start; an instance that comes too late is closed, by
        itself or with the other components. */
    method CommitStart(ctx: Context, box: Box, w: Starting, n: nat) returns (r: Outcome)
      requires AllClosedBut(box) && Live(box) && currentBox == null && baseCtx == ctx && cfg == box.cfg
      requires !ctx.done && Alive(false, w.cancel, n + 1)
      modifies this`currentBox, box, ctx
      ensures AllClosedBut(currentBox) && !r.Rejected?
      ensures r.Done? <==> Alive(false, w.cancel, n + 3)
      ensures r.Done? ==> currentBox == box && Live(box) && !ctx.done
      ensures r.Failed? ==> currentBox == null || (currentBox == box && Live(box))
    {
      AliveNext(false, w.cancel, n + 1);
      AliveNext(false, w.cancel, n + 2);
      hide Alive;
      var cancelled := ctx.Err(w.cancel(n + 1));
      if cancelled {
        box.Close();
        return Failed;
      }
      currentBox := box;
      cancelled := ctx.Err(w.cancel(n + 2));
      r := if cancelled then Failed else Done;
    }

    // --------------------------------------------------------------- reload

    /** Restarts the previous configuration, at most five times; gives up when
        the context is done. `before` readings were made before. */
    method RollbackToOldConfig(ctx: Context, oldCfg: Config, w: Readings, before: nat, ghost done: bool)
      requires AllClosedBut(null) && currentBox == null && baseCtx == ctx
      requires !ctx.done && Alive(done, w.cancel, before)
      modifies this`created, this`currentBox, this`cfg, created, ctx
      ensures Grew(ROLLBACK_ATTEMPTS) && Quiet() && baseCtx == ctx
      ensures currentBox != null <==> BackComesUp(done, w, before)
      ensures currentBox == null ==> cfg == old(cfg)
      ensures currentBox != null ==> cfg == oldCfg && fresh(currentBox) && Built(currentBox, oldCfg)
    {
      AliveNext(done, w.cancel, before);
      var cancelled := ctx.Err(w.cancel(before));
      if cancelled {
        RolledBackLate(done, w, before, 0);
        return;
      }
      var attempt := 0;
      hide Alive, Fails, BackComesUp;
      NothingFailedYet(w.backs);
      while attempt < ROLLBACK_ATTEMPTS
        invariant 0 <= attempt <= ROLLBACK_ATTEMPTS
        invariant Grew(attempt) && AllClosedBut(null) && currentBox == null && cfg == old(cfg)
        invariant Fails(w.backs, attempt) && !ctx.done && Alive(done, w.cancel, before + 1 + 2 * attempt)
      {
        var over := AttemptRollback(ctx, oldCfg, w, before, attempt, done);
        if over {
          return;
        }
        attempt := attempt + 1;
      }
      StoppedRollback(done, w, before, ROLLBACK_ATTEMPTS);
    }

    /** One attempt: whether it was the last, and then what it decided. */
    method AttemptRollback(ctx: Context, oldCfg: Config, w: Readings, before: nat, attempt: nat, ghost done: bool)
      returns (over: bool)
      requires AllClosedBut(null) && currentBox == null && baseCtx == ctx && attempt < ROLLBACK_ATTEMPTS
      requires Fails(w.backs, attempt) && !ctx.done && Alive(done, w.cancel, before + 1 + 2 * attempt)
      modifies this`created, this`currentBox, this`cfg, created, ctx
      ensures Grew(1) && AllClosedBut(currentBox) && (over ==> (currentBox != null <==> BackComesUp(done, w, before)))
      ensures !Alive(done, w.cancel, before + 2 + 2 * attempt) ==> created == old(created)
      ensures currentBox == null ==> cfg == old(cfg)
      ensures currentBox != null ==> Live(currentBox) && cfg == oldCfg && fresh(currentBox) && Built(currentBox, oldCfg)
      ensures !over ==> currentBox == null && Fails(w.backs, attempt + 1) && !ctx.done
      ensures !over ==> Alive(done, w.cancel, before + 3 + 2 * attempt)
    {
      AliveNext(done, w.cancel, before + 1 + 2 * attempt);
      AliveNext(done, w.cancel, before + 2 + 2 * attempt);
      hide Alive, BackComesUp, BackUpAt;
      over := true;
      var cancelled := ctx.Err(w.cancel(before + 1 + 2 * attempt));
      if cancelled {
        StoppedRollback(done, w, before, attempt);
        return;
      }
      var box := Launch(oldCfg, w.backs(attempt));
      if box == null && w.backs(attempt).NotCreated? {
        StoppedRollback(done, w, before, attempt);
        return;
      }
      cancelled := ctx.Err(w.cancel(before + 2 + 2 * attempt));
      if box != null {
        LaunchedRollback(done, w, before, attempt);
        if cancelled {
          box.Close();
        } else {
          currentBox, cfg := box, oldCfg;
        }
      } else if cancelled {
        RolledBackLate(done, w, before, attempt + 1);
      } else {
        over := false;
      }
    }

    /** The retry loop of a reload. A bind conflict is waited out on the same
        ports; from the sixth attempt on, the port is moved. `n` conflicts were
        met; `rollBack` tells whether the previous configuration should be tried. */
    method ReloadInstance(ctx: Context, config: Config, w: Readings, ghost done: bool)
      returns (box: Box?, rollBack: bool, n: nat)
      requires AllClosedBut(null) && !ctx.done && Alive(done, w.cancel, 2)
      modifies this`created, ctx, config`ports
      ensures Grew(MAX_RETRIES)
      ensures AllClosedBut(box) && (box != null ==> Live(box) && fresh(box) && Built(box, config))
      ensures box != null ==> !rollBack && !ctx.done && n < MAX_RETRIES && Conflicts(w.tries, n) && w.tries(n).Up?
      ensures box != null ==> Alive(done, w.cancel, 3 + 2 * n)
      ensures rollBack ==> !ctx.done && GivesUpAt(w, n) && Alive(done, w.cancel, ReadsAtGivingUp(n))
      ensures box != null || rollBack ==> LastMove(w.tries, 5, n, old(config.ports), config.ports)
      ensures box == null && !rollBack ==> ctx.done && !NewComesUp(done, w) && !OldComesUp(done, w)
    {
      box, rollBack, n := null, false, 0;
      NoMoveYet(w.tries, 5, config.ports);
      hide LastMove, Moves, Alive;
      for retry := 0 to MAX_RETRIES
        invariant Grew(retry) && AllClosedBut(null) && box == null && !rollBack && n == retry
        invariant Conflicts(w.tries, retry) && !ctx.done && Alive(done, w.cancel, 2 + 2 * retry)
        invariant LastMove(w.tries, 5, retry, old(config.ports), config.ports)
      {
        AliveNext(done, w.cancel, 2 + 2 * retry);
        var cancelled := ctx.Err(w.cancel(2 + 2 * retry));
        if cancelled {
          CancelledReload(done, w, retry);
          return;
        }
        box := Launch(config, w.tries(retry));
        if box != null {
          return;
        }
        if !w.tries(retry).Conflict? {
          rollBack := true;
          return;
        }
        n := n + 1;
        cancelled := WaitOut(ctx, config, w, retry, done, old(config.ports));
        if cancelled {
          return;
        }
      }
      rollBack := true;
    }

    /** Waits for the port to be released; from the sixth conflict on, moves it. */
    method WaitOut(ctx: Context, config: Config, w: Readings, retry: nat, ghost done: bool, ghost ports: nat)
      returns (cancelled: bool)
      requires retry < MAX_RETRIES && !ctx.done && Alive(done, w.cancel, 3 + 2 * retry)
      requires Conflicts(w.tries, retry) && w.tries(retry).Conflict? && LastMove(w.tries, 5, retry, ports, config.ports)
      modifies ctx, config`ports
      ensures cancelled ==> ctx.done && !NewComesUp(done, w) && !OldComesUp(done, w)
      ensures !cancelled ==> !ctx.done && Alive(done, w.cancel, 4 + 2 * retry) && Conflicts(w.tries, retry + 1)
      ensures !cancelled ==> LastMove(w.tries, 5, retry + 1, ports, config.ports)
    {
      AliveNext(done, w.cancel, 3 + 2 * retry);
      NextMove(w.tries, 5, retry, ports, config.ports);
      hide Alive, LastMove, NewComesUp, OldComesUp;
      cancelled := ctx.Err(w.cancel(3 + 2 * retry));
      if cancelled {
        CancelledReload(done, w, retry + 1);
        return;
      }
      if retry >= MAX_RETRIES / 2 {
        var _ := config.ReassignConflictingPort(w.tries(retry).move);
      }
    }

    /** A reload once the old instance is closed. */
    method Replace(ctx: Context, newCfg: Config, w: Readings, ghost done: bool) returns (r: Outcome)
      requires AllClosedBut(null) && currentBox == null && cfg != null && baseCtx == ctx && !ctx.done
        && Alive(done, w.cancel, 1)
      modifies this`created, this`currentBox, this`cfg, created, ctx, newCfg`ports
      ensures Quiet() && Grew(MAX_RETRIES + ROLLBACK_ATTEMPTS) && !r.Rejected?
      ensures r.Done? <==> NewComesUp(done, w)
      ensures currentBox != null && !r.Done? <==> OldComesUp(done, w)
      ensures r.Done? ==>
        currentBox != null && fresh(currentBox) && cfg == newCfg && Built(currentBox, newCfg) && !ctx.done
      ensures r.Done? ==> PortsKept(done, w, old(newCfg.ports), newCfg.ports)
      ensures r.Failed? ==> cfg == old(cfg) && (currentBox != null ==> fresh(currentBox) && Built(currentBox, old(cfg)))
    {
      var cancelled := ctx.Err(w.cancel(1));
      if cancelled {
        CancelledReload(done, w, 0);
        return Failed;
      }
      var box, rollBack, n := ReloadInstance(ctx, newCfg, w, done);
      hide NewComesUp, OldComesUp, BackComesUp, Conflicts, PortsKept, LastMove, GivesUpAt;
      r := Failed;
      if rollBack {
        AbandonedReload(done, w, n);
        RollbackToOldConfig(ctx, cfg, w, ReadsAtGivingUp(n), done);
      } else if box != null {
        LaunchedReload(done, w, n);
        KeptPorts(done, w, n, old(newCfg.ports), newCfg.ports);
        r := CommitReload(ctx, box, w, n, done);
      }
    }

    /** The last reading of a reload; an instance that comes too late is closed. */
    method CommitReload(ctx: Context, box: Box, w: Readings, n: nat, ghost done: bool) returns (r: Outcome)
      requires AllClosedBut(box) && Live(box) && currentBox == null && baseCtx == ctx
      requires !ctx.done && Alive(done, w.cancel, 3 + 2 * n)
      modifies this`currentBox, this`cfg, box, ctx
      ensures Quiet() && !r.Rejected? && (r.Done? <==> Alive(done, w.cancel, 4 + 2 * n))
      ensures r.Done? ==> currentBox == box && cfg == box.cfg && !ctx.done
      ensures r.Failed? ==> currentBox == null && cfg == old(cfg)
    {
      AliveNext(done, w.cancel, 3 + 2 * n);
      hide Alive;
      var cancelled := ctx.Err(w.cancel(3 + 2 * n));
      if cancelled {
        box.Close();
        return Failed;
      }
      currentBox, cfg := box, box.cfg;
      r := Done;
    }

    /** Replaces the running instance. The new configuration runs exactly when one
        of its launches comes up in time, the previous one again exactly when one
        of the rollback's does; otherwise nothing runs. */
    method ReloadLocked(newCfg: Config?, w: Readings) returns (r: Outcome)
      requires Quiet()
      modifies this, created, if newCfg == null then {} else {newCfg}, if baseCtx == null then {} else {baseCtx}
      ensures Quiet() && Grew(MAX_RETRIES + ROLLBACK_ATTEMPTS) && baseCtx == old(baseCtx)
      ensures newCfg != null ==> newCfg.settings == old(newCfg.settings)
      ensures r.Rejected? <==>
        newCfg == null || old(closed) || old(currentBox) == null || !Alive(old(baseCtx.done), w.cancel, 1)
      ensures r.Rejected? ==>
        currentBox == old(currentBox) && cfg == old(cfg) && created == old(created) && closed == old(closed)
      ensures !r.Rejected? ==> closed == w.marked
      ensures !r.Rejected? ==> (r.Done? <==> NewComesUp(old(baseCtx.done), w))
      ensures !r.Rejected? ==> (currentBox != null && !r.Done? <==> OldComesUp(old(baseCtx.done), w))
      ensures r.Done? ==>
        currentBox != null && fresh(currentBox) && cfg == newCfg && Built(currentBox, newCfg) && !baseCtx.done
      ensures r.Done? ==> PortsKept(old(baseCtx.done), w, old(newCfg.ports), newCfg.ports)
      ensures r.Failed? ==> cfg == old(cfg) && (currentBox != null ==> fresh(currentBox) && Built(currentBox, old(cfg)))
    {
      if newCfg == null || closed || currentBox == null {
        return Rejected;
      }
      var ctx := baseCtx;
      ghost var done := ctx.done;
      var cancelled := ctx.Err(w.cancel(0));
      if cancelled {
        return Rejected;
      }
      var oldBox := currentBox;
      currentBox := null;
      oldBox.Close();
      assert AllClosedBut(null);
      Interfere(w.marked);
      hide NewComesUp, OldComesUp, Alive, PortsKept;
      r := Replace(ctx, newCfg, w, done);
    }

    // ---------------------------------------------------------------- close

    /** The part of `Close` that does not wait for the lifecycle lock. */
    method MarkClosed()
      requires Quiet()
      modifies this`closed, if baseCtx == null then {} else {baseCtx}
      ensures Quiet() && closed && (baseCtx != null ==> baseCtx.done)
    {
      closed := true;
      if baseCtx != null {
        baseCtx.done := true;
      }
    }

    method Close()
      requires Quiet()
      modifies this, created, if baseCtx == null then {} else {baseCtx}
      ensures Quiet() && Dead() && cfg == old(cfg) && baseCtx == null && created == old(created)
    {
      MarkClosed();
      CloseComponents();
    }

    // ---------------------------------------------------------------- edits

    /** A node is created, updated or deleted in place, and what runs goes on as it
        was built; a failed save undoes the edit. */
    method EditNodes(saved: bool, settings: nat, ports: nat) returns (ok: bool)
      requires Quiet()
      modifies cfg
      ensures Quiet() && (ok <==> cfg != null && saved)
      ensures ok ==> cfg.settings == settings && cfg.ports == ports
      ensures !ok && cfg != null ==> cfg.settings == old(cfg.settings) && cfg.ports == old(cfg.ports)
    {
      if cfg == null {
        return false;
      }
      var settings0, ports0 := cfg.settings, cfg.ports;
      cfg.settings, cfg.ports := settings, ports;
      if !saved {
        cfg.settings, cfg.ports := settings0, ports0;
      }
      ok := saved;
    }

    method CopyConfig() returns (c: Config)
      requires cfg != null
      ensures fresh(c) && c.settings == cfg.settings && c.ports == cfg.ports
    {
      c := new Config(cfg.settings, cfg.ports);
    }

    /** Applies an edit of the current configuration and persists it, or tries to
        restore what was configured before. After a failed persist, the old
        settings run, the edit runs or nothing runs, each exactly when the readings
        say so. A restored runtime is the previous one exactly when no node edit
        was waiting to be applied. */
    method ReloadWithCurrentConfig(e: Editing) returns (r: Applied, candidate: Config?)
      requires Quiet()
      modifies this, created, if baseCtx == null then {} else {baseCtx}
      ensures Quiet() && (old(closed) ==> closed) && baseCtx == old(baseCtx)
      ensures |created| <= |old(created)| + 30 && old(created) <= created
      ensures forall i :: |old(created)| <= i < |created| ==> fresh(created[i])
      ensures cfg == old(cfg) || fresh(cfg)
      ensures r.Refused? <==> old(closed) || old(cfg) == null || old(currentBox) == null || !e.accepted
      ensures r.Refused? ==>
        currentBox == old(currentBox) && cfg == old(cfg) && created == old(created) && closed == old(closed)
      ensures !r.Refused? ==> (r.NotApplied? <==> !Applies(old(baseCtx.done), e))
      ensures r.NotApplied? ==> cfg == old(cfg)
      ensures r.NotApplied? && !Alive(old(baseCtx.done), e.first.cancel, 1) ==> currentBox == old(currentBox)
      ensures r.NotApplied? && Alive(old(baseCtx.done), e.first.cancel, 1) ==>
        (currentBox != null <==> OldComesUp(old(baseCtx.done), e.first))
      ensures r.Persisted? ==> e.persisted && Runs(candidate) && currentBox.settings == e.settings
      ensures r.Unpersisted? ==> !e.persisted && (r.restored <==> OldRunsAgain(e))
      ensures r.Unpersisted? && OldRunsAgain(e) ==>
        currentBox != null && fresh(currentBox) && cfg != candidate && currentBox.settings == old(cfg.settings)
      ensures r.Unpersisted? && OldRunsAgain(e) ==>
        (currentBox.settings == old(currentBox.settings) <==> old(currentBox.settings == cfg.settings))
      ensures r.Unpersisted? ==> (Runs(candidate) <==> EditKeepsRunning(e))
      ensures r.Unpersisted? && EditKeepsRunning(e) ==> currentBox != null && currentBox.settings == e.settings
      ensures r.Unpersisted? ==> (currentBox == null <==> !OldRunsAgain(e) && !EditKeepsRunning(e))
    {
      candidate := null;
      if closed || cfg == null || currentBox == null {
        return Refused, candidate;
      }
      var oldCfg := CopyConfig();
      candidate := CopyConfig();
      if !e.accepted {
        return Refused, candidate;
      }
      candidate.settings, candidate.ports := e.settings, e.ports;
      hide NewComesUp, OldComesUp, PortsKept;
      var reloaded := ReloadLocked(candidate, e.first);
      if !reloaded.Done? {
        return NotApplied, candidate;
      }
      if e.persisted {
        return Persisted, candidate;
      }
      var restored := ReloadLocked(oldCfg, e.second);
      r := Unpersisted(restored.Done?);
    }

    ghost predicate Runs(config: Config?)
      reads this
    {
      currentBox != null && config != null && cfg == config
    }

    // ----------------------------------------------------------------- runs

    method Execute(t: Transaction)
      requires Quiet()
      modifies this, created, if cfg == null then {} else {cfg}, if baseCtx == null then {} else {baseCtx}
      ensures Quiet() && (old(closed) ==> closed) && old(created) <= created
      ensures forall i :: |old(created)| <= i < |created| ==> fresh(created[i])
      ensures cfg == old(cfg) || fresh(cfg)
      ensures baseCtx == null || baseCtx == old(baseCtx) || fresh(baseCtx)
      ensures t.Closing? ==> Dead()
      ensures t.Marking? ==> closed
      ensures t.StartUp? && !t.start.parentDone && !old(closed) && old(cfg) != null && old(currentBox) == null ==>
        (currentBox != null <==> StartsUp(t.start))
      ensures t.Reloading? && !old(closed) && old(currentBox) != null ==>
        Alive(old(baseCtx.done), t.reload.cancel, 1) ==>
        (currentBox != null <==> NewComesUp(old(baseCtx.done), t.reload) || OldComesUp(old(baseCtx.done), t.reload))
      ensures t.NodeEdit? && t.saved && cfg != null ==> cfg.settings == t.settings && cfg.ports == t.ports
      ensures old(Dead()) ==> Dead() && created == old(created)
    {
      match t
      case StartUp(w) => var _ := Start(w);
      case Reloading(settings, ports, w) =>
        var newCfg := new Config(settings, ports);
        var _ := ReloadLocked(newCfg, w);
      case Applying(e) => var _, _ := ReloadWithCurrentConfig(e);
      case NodeEdit(saved, settings, ports) => var _ := EditNodes(saved, settings, ports);
      case Marking => MarkClosed();
      case Closing => Close();
    }

    /** After any transactions in any order, with anything happening during them,
        the manager is quiet; and from the first `Close` that returned on, nothing
        runs, nothing is created, and every instance ever created is closed. */
    method Run(run: seq<Transaction>)
      requires Quiet()
      modifies this, created, if cfg == null then {} else {cfg}, if baseCtx == null then {} else {baseCtx}
      ensures Quiet() && old(created) <= created
      ensures (exists i :: 0 <= i < |run| && run[i].Closing?) ==> Dead()
      ensures old(Dead()) ==> Dead() && created == old(created)
    {
      for k := 0 to |run|
        invariant Quiet() && old(created) <= created
        invariant forall i :: |old(created)| <= i < |created| ==> fresh(created[i])
        invariant cfg == old(cfg) || fresh(cfg)
        invariant baseCtx == null || baseCtx == old(baseCtx) || fresh(baseCtx)
        invariant (exists i :: 0 <= i < k && run[i].Closing?) ==> Dead()
        invariant old(Dead()) ==> Dead() && created == old(created)
      {
        Execute(run[k]);
      }
    }
  }

  /** One holding of the lifecycle lock, or the mark of a `Close` that waits. */
  datatype Transaction =
    | StartUp(start: Starting)
    | Reloading(settings: nat, ports: nat, reload: Readings)
    | Applying(edit: Editing)
    | NodeEdit(saved: bool, settings: nat, ports: nat)
    | Marking
    | Closing

  // ------------------------------------------------------------- witnesses

  const NEVER: nat -> bool := i => false
  const ALWAYS_UP: nat -> Try := i => Up
  const ALWAYS_BROKEN: nat -> Try := i => Broken

  const SMOOTH := Readings(NEVER, ALWAYS_UP, ALWAYS_UP, false)

  /** The restoring reload is turned away because `Close` has marked the manager. */
  const MARKED := Editing(true, 2, 0, SMOOTH.(marked := true), false, SMOOTH)

  /** The restoring reload is turned away because the context has ended. */
  const CANCELLED := Editing(true, 2, 0, SMOOTH, false, SMOOTH.(cancel := i => true))

  /** The old settings do not start again, and the rollback relaunches the edit. */
  const RELAUNCHED := Editing(true, 2, 0, SMOOTH, false, SMOOTH.(tries := ALWAYS_BROKEN))

  lemma EachWayKeepsTheEdit()
    ensures Applies(false, MARKED) && Applies(false, CANCELLED) && Applies(false, RELAUNCHED)
    ensures MARKED.first.marked && Alive(false, MARKED.second.cancel, 1)
    ensures !CANCELLED.first.marked && !Alive(false, CANCELLED.second.cancel, 1)
    ensures !RestoreRefused(RELAUNCHED) && OldComesUp(false, RELAUNCHED.second)
  {
    assert NewUpAt(false, MARKED.first, 0) && NewUpAt(false, SMOOTH, 0);
    var w := RELAUNCHED.second;
    assert BackUpAt(false, w, ReadsAtGivingUp(0), 0);
    assert OldUpAt(false, w, 0);
    assert CANCELLED.second.cancel(0);
  }

  /** In each of the three ways, an edit that was not persisted is what runs. */
  method UnpersistedEditRuns(e: Editing) returns (m: Manager, r: Applied)
    requires e == MARKED || e == CANCELLED || e == RELAUNCHED
    ensures r == Unpersisted(false) && m.currentBox != null && m.currentBox.phase.Running? && m.currentBox.settings == 2
  {
    var cfg := new Config(1, 0);
    m := new Manager(cfg);
    var w := Starting(false, true, NEVER, ALWAYS_UP, false);
    assert StartUpAt(w, 0);
    var started := m.Start(w);
    EachWayKeepsTheEdit();
    var candidate: Config?;
    r, candidate := m.ReloadWithCurrentConfig(e);
  }

  /** After a node edit, a restore that succeeds does not bring back what ran. */
  method RestoredIsNotPrevious() returns (m: Manager, r: Applied)
    ensures r == Unpersisted(true) && m.currentBox != null && m.currentBox.settings == 7
  {
    var cfg := new Config(1, 0);
    m := new Manager(cfg);
    var w := Starting(false, true, NEVER, ALWAYS_UP, false);
    assert StartUpAt(w, 0);
    var started := m.Start(w);
    var edited := m.EditNodes(true, 7, 0);
    assert m.currentBox.settings == 1;
    var e := Editing(true, 2, 0, SMOOTH, false, SMOOTH);
    assert NewUpAt(false, SMOOTH, 0);
    var candidate: Config?;
    r, candidate := m.ReloadWithCurrentConfig(e);
  }
}
