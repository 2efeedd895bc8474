/** What the lease protocol gives, next to what it forbids: when exactly a lease reads
    and commits, and that a caller gets a lease, and gives it back, in any state a
    run can reach. */
module LeaseService {
  import opened BindingCache
  import opened LeaseProtocol

  /** Every lease was created in the past, and a lease younger than every unbind of its
      key and every clear still carries the version and epoch of now. */
  ghost predicate Timely(heap: seq<Gate>, leases: seq<Lease>, epoch: nat, unboundAt: map<Key, nat>, clearedAt: nat,
                         tick: nat) {
    forall l :: 0 <= l < |leases| && leases[l].gate < |heap| ==>
      && leases[l].born <= tick
      && (Younger(leases[l], unboundAt, clearedAt) ==>
            leases[l].epoch == epoch && leases[l].version == heap[leases[l].gate].version)
  }

  ghost predicate AllTimely(s: State) {
    LeasesOk(s.heap, s.leases, s.epoch) && Timely(s.heap, s.leases, s.epoch, s.unboundAt, s.clearedAt, s.tick)
  }

  /** A step that leaves versions, epoch and leases alone. */
  lemma SameTimely(s: State, heap: seq<Gate>)
    requires AllTimely(s) && SameVersions(s.heap, heap)
    ensures Timely(heap, s.leases, s.epoch, s.unboundAt, s.clearedAt, s.tick)
  {}

  lemma MoveTimely(s: State, a: Action)
    requires Enabled(s, a) && (Moves(a) || a.Enter?)
    ensures var r := Step(s, a);
      && SameVersions(s.heap, r.heap) && r.leases == s.leases && r.epoch == s.epoch
      && r.unboundAt == s.unboundAt && r.clearedAt == s.clearedAt && r.tick == s.tick
  {
    if Moves(a) {
      MoveUnfolds(s, a);
      hide *;
    } else {
      JoinShape(s, a.t, a.k);
    }
  }

  lemma GrantTimely(s: State, lease: Lease)
    requires AllTimely(s) && lease.gate < |s.heap|
    requires lease.version == s.heap[lease.gate].version && lease.epoch == s.epoch && lease.born == s.tick
    ensures Timely(s.heap, s.leases + [lease], s.epoch, s.unboundAt, s.clearedAt, s.tick)
  {}

  lemma ReleaseTimely(s: State, l: nat)
    requires AllTimely(s) && l < |s.leases|
    ensures Timely(s.heap, s.leases[l := s.leases[l].(released := true)], s.epoch, s.unboundAt, s.clearedAt, s.tick)
  {}

  lemma UnbindTimely(s: State, k: Key, now: int)
    requires GatesOk(s.gates, s.heap) && AllTimely(s) && Linked(s.cache) && (k in s.gates ==> s.gates[k] < |s.heap|)
    ensures var r := UnbindKey(s, k, now); Timely(r.heap, r.leases, r.epoch, r.unboundAt, r.clearedAt, r.tick)
  {
    var r := UnbindKey(s, k, now);
    forall l | 0 <= l < |s.leases| && Younger(s.leases[l], r.unboundAt, r.clearedAt)
      ensures r.heap[s.leases[l].gate].version == s.leases[l].version && s.leases[l].epoch == s.epoch
    {
      assert s.leases[l].key != k;
      assert UnboundAt(r.unboundAt, s.leases[l].key) == UnboundAt(s.unboundAt, s.leases[l].key);
    }
  }

  lemma ClearTimely(s: State)
    requires AllTimely(s)
    ensures Timely(s.heap, s.leases, s.epoch + 1, s.unboundAt, s.tick, s.tick)
  {}

  lemma StepKeepsTimely(s: State, a: Action)
    requires Inv(s) && Enabled(s, a) && AllTimely(s) && LeasesOk(Step(s, a).heap, Step(s, a).leases, Step(s, a).epoch)
    ensures AllTimely(Step(s, a))
  {
    if Moves(a) || a.Enter? {
      MoveTimely(s, a);
      hide Step, Inv, Timely, LeasesOk;
      SameTimely(s, Step(s, a).heap);
    } else if a.Grant? {
      GrantTimely(s, Lease(s.heap[s.threads[a.t].gate].key, s.threads[a.t].gate, s.heap[s.threads[a.t].gate].version,
                           s.epoch, false, a.t, s.tick));
      hide Inv, Timely, LeasesOk;
    } else if a.BeginRelease? {
      ReleaseTimely(s, s.threads[a.t].lease);
      hide Inv, Timely, LeasesOk;
    } else if a.Unbind? {
      UnbindTimely(s, a.k, a.now);
      hide Inv, Timely, LeasesOk;
    } else if a.ClearAll? {
      ClearTimely(s);
      hide Inv, Timely, LeasesOk;
    } else {
      hide Inv, Timely, LeasesOk;
    }
  }

  lemma LaterTimely(s: State)
    requires AllTimely(s)
    ensures AllTimely(s.(tick := s.tick + 1))
  {}

  lemma InvLeases(s: State)
    requires Inv(s)
    ensures LeasesOk(s.heap, s.leases, s.epoch)
  {}

  lemma {:induction false} ExecIsTimely(max: int, ttl: int, clock: int, run: seq<Action>)
    ensures AllTimely(Exec(Init(max, ttl, clock), run)) && Inv(Exec(Init(max, ttl, clock), run))
    decreases |run|
  {
    hide Inv, AllTimely, Apply;
    ExecKeepsInv(max, ttl, clock, run);
    if run == [] {
      InitTimely(max, ttl, clock);
    } else {
      ExecIsTimely(max, ttl, clock, run[..|run| - 1]);
      ApplyIsTimely(Exec(Init(max, ttl, clock), run[..|run| - 1]), run[|run| - 1]);
    }
  }

  lemma InitTimely(max: int, ttl: int, clock: int)
    ensures AllTimely(Init(max, ttl, clock))
  {}

  lemma ApplyIsTimely(s: State, a: Action)
    requires Inv(s) && AllTimely(s)
    ensures AllTimely(Apply(s, a))
  {
    hide *;
    var r := TickKeepsInv(s);
    LaterTimely(s);
    ApplyUnfolds(s, a);
    if Enabled(r, a) {
      StepKeepsInv(r, a);
      InvLeases(Step(r, a));
      StepKeepsTimely(r, a);
    }
  }

  // ---------------------------------------------------------------- theorems

  /** In every run, a lease reads and commits exactly while it is unreleased and
      younger than every unbind of its key and every clear. */
  lemma LiveExactly(max: int, ttl: int, clock: int, run: seq<Action>, l: nat)
    requires l < |Exec(Init(max, ttl, clock), run).leases|
    ensures var s := Exec(Init(max, ttl, clock), run);
      && Known(s, l)
      && (Live(s, l) <==> !s.leases[l].released && UnboundAt(s.unboundAt, s.leases[l].key) < s.leases[l].born
                          && s.clearedAt < s.leases[l].born)
  {
    ExecIsTimely(max, ttl, clock, run);
    hide CountsOk, GatesOk, OwnersOk, Wf, TicksOk, EntriesYoung, Exec;
  }

  /** In every run, such a lease reads its session's binding until that expires, its
      commit binds the session to the node, and what it committed is read back. */
  lemma YoungLeaseServes(max: int, ttl: int, clock: int, run: seq<Action>, l: nat, now: int, pin: Pin, later: int)
    requires var s := Exec(Init(max, ttl, clock), run);
      && l < |s.leases| && !s.leases[l].released && s.clock <= now <= later
      && UnboundAt(s.unboundAt, s.leases[l].key) < s.leases[l].born && s.clearedAt < s.leases[l].born
    ensures var s := Exec(Init(max, ttl, clock), run); var k := s.leases[l].key;
      && Known(s, l)
      && (k in s.cache.entries && now < s.cache.entries[k].expiresAt ==>
            ReadOf(s, l, now) == (s.cache, Some(s.cache.entries[k])))
    ensures var s := Exec(Init(max, ttl, clock), run); var k := s.leases[l].key;
      var r := Apply(s, Bind(l, now, pin));
      && k in r.cache.entries && r.cache.entries[k].nodeID == pin.nodeID
      && r.cache.entries[k].expiresAt == now + s.cache.ttl
      && Known(r, l) && (later < now + s.cache.ttl ==> ReadOf(r, l, later) == (r.cache, Some(r.cache.entries[k])))
  {
    LiveExactly(max, ttl, clock, run, l);
    ExecKeepsInv(max, ttl, clock, run);
    var s := Exec(Init(max, ttl, clock), run);
    InvCache(s);
    hide Inv, Exec, Younger, Commit, Linked;
    Committing(s, l, now, pin);
  }

  /** A live lease's commit, as a step. */
  lemma Committing(s: State, l: nat, now: int, pin: Pin)
    requires Known(s, l) && Live(s, l) && Wf(s.cache, s.clock) && s.clock <= now
    ensures var r := Apply(s, Bind(l, now, pin)); var k := s.leases[l].key;
      && r.heap == s.heap && r.leases == s.leases && r.epoch == s.epoch
      && k in r.cache.entries && r.cache.entries[k].nodeID == pin.nodeID
      && r.cache.entries[k].expiresAt == now + s.cache.ttl
  {
    CommitKeepsKey(s.cache, now, s.leases[l].key, pin);
    BindUnfolds(s, l, now, pin);
    hide *;
  }

  lemma BindUnfolds(s: State, l: nat, now: int, pin: Pin)
    requires Known(s, l) && Live(s, l) && Linked(s.cache) && s.clock <= now
    ensures var r := Apply(s, Bind(l, now, pin));
      && r.heap == s.heap && r.leases == s.leases && r.epoch == s.epoch
      && r.cache == Commit(s.cache, now, s.leases[l].key, pin)
  {
    hide Commit, Linked;
  }

  /** In every run nobody is stuck: a waiting caller can take the token of its gate
      unless another caller has it, and everybody else can take the next step. */
  lemma NobodyIsStuck(max: int, ttl: int, clock: int, run: seq<Action>, t: nat)
    requires t in Exec(Init(max, ttl, clock), run).threads
    ensures var s := Exec(Init(max, ttl, clock), run);
      match s.threads[t]
      case Waiting(g) => Enabled(s, CancelWait(t))
        && (Enabled(s, Take(t)) || exists u :: u in s.threads && s.threads[u].gate == g && HasToken(s.threads[u]))
      case Holding(_) => Enabled(s, Grant(t)) && Enabled(s, Abandon(t))
      case Returning(_) => Enabled(s, ReturnToken(t))
      case Leased(_, _) => Enabled(s, BeginRelease(t))
      case Releasing(_, _) => Enabled(s, DropReference(t))
      case Unreferenced(_, _) => Enabled(s, SendToken(t))
  {
    ExecKeepsInv(max, ttl, clock, run);
    SendNeverBlocks(max, ttl, clock, run, t);
    hide *;
    NextStep(Exec(Init(max, ttl, clock), run), t);
  }

  lemma NextStep(s: State, t: nat)
    requires Inv(s) && t in s.threads && s.threads[t].gate < |s.heap|
    requires HasToken(s.threads[t]) ==> s.heap[s.threads[t].gate].token < TOKEN_CAPACITY
    requires Holders(s.threads, s.threads[t].gate) == {} ==> s.heap[s.threads[t].gate].token == 1
    ensures match s.threads[t]
            case Waiting(g) => Enabled(s, CancelWait(t))
              && (Enabled(s, Take(t)) || exists u :: u in s.threads && s.threads[u].gate == g && HasToken(s.threads[u]))
            case Holding(_) => Enabled(s, Grant(t)) && Enabled(s, Abandon(t))
            case Returning(_) => Enabled(s, ReturnToken(t))
            case Leased(_, _) => Enabled(s, BeginRelease(t))
            case Releasing(_, _) => Enabled(s, DropReference(t))
            case Unreferenced(_, _) => Enabled(s, SendToken(t))
  {
    InvCache(s);
    OwnedLease(s, t);
    hide Inv, Linked, Holders, Enabled;
    if s.threads[t].Waiting? {
      WaitsForToken(s, t);
    } else {
      GoesOn(s, t);
    }
  }

  lemma GoesOn(s: State, t: nat)
    requires Linked(s.cache) && t in s.threads && s.threads[t].gate < |s.heap| && !s.threads[t].Waiting?
    requires s.heap[s.threads[t].gate].token < TOKEN_CAPACITY
    requires s.threads[t].Leased? ==> s.threads[t].lease < |s.leases|
    ensures match s.threads[t]
            case Waiting(_) => true
            case Holding(_) => Enabled(s, Grant(t)) && Enabled(s, Abandon(t))
            case Returning(_) => Enabled(s, ReturnToken(t))
            case Leased(_, _) => Enabled(s, BeginRelease(t))
            case Releasing(_, _) => Enabled(s, DropReference(t))
            case Unreferenced(_, _) => Enabled(s, SendToken(t))
  {
    hide Linked;
  }

  lemma WaitsForToken(s: State, t: nat)
    requires Linked(s.cache) && t in s.threads && s.threads[t].Waiting? && s.threads[t].gate < |s.heap|
    requires Holders(s.threads, s.threads[t].gate) == {} ==> s.heap[s.threads[t].gate].token == 1
    ensures Enabled(s, CancelWait(t))
    ensures Enabled(s, Take(t))
      || exists u :: u in s.threads && s.threads[u].gate == s.threads[t].gate && HasToken(s.threads[u])
  {
    hide Linked;
    var h := Holders(s.threads, s.threads[t].gate);
    if h != {} {
      var u :| u in h;
      assert u in s.threads && s.threads[u].gate == s.threads[t].gate && HasToken(s.threads[u]);
    }
  }

  lemma OwnedLease(s: State, t: nat)
    requires Inv(s) && t in s.threads
    ensures s.threads[t].Leased? ==> s.threads[t].lease < |s.leases|
  {}

  // ------------------------------------------------- acquiring and releasing

  /** From every state a run can reach, a new caller of an idle session gets its
      lease in three steps: of that session, unreleased and live. */
  lemma AcquireSucceeds(max: int, ttl: int, clock: int, run: seq<Action>, t: nat, k: Key)
    requires var s := Exec(Init(max, ttl, clock), run);
      t !in s.threads && (k in s.gates ==> Holders(s.threads, s.gates[k]) == {})
    ensures var s := Exec(Init(max, ttl, clock), run);
      var r := Apply(Apply(Apply(s, Enter(t, k)), Take(t)), Grant(t)); var l := |s.leases|;
      && |r.leases| == l + 1 && r.leases[l].key == k && !r.leases[l].released
      && t in r.threads && r.threads[t] == Leased(r.leases[l].gate, l) && Known(r, l) && Live(r, l)
      && r.cache == s.cache && r.leases[..l] == s.leases
  {
    ExecKeepsInv(max, ttl, clock, run);
    var s := Exec(Init(max, ttl, clock), run);
    hide Exec;
    AcquireSteps(s, t, k);
  }

  lemma IdleToken(s: State, k: Key)
    requires Inv(s) && (k in s.gates ==> Holders(s.threads, s.gates[k]) == {})
    ensures k in s.gates ==> s.gates[k] < |s.heap| && s.heap[s.gates[k]].token == 1 && s.heap[s.gates[k]].key == k
    ensures Linked(s.cache)
  {}

  lemma EnterUnfolds(s: State, t: nat, k: Key)
    requires Linked(s.cache) && t !in s.threads
    requires k in s.gates ==> s.gates[k] < |s.heap| && s.heap[s.gates[k]].token == 1 && s.heap[s.gates[k]].key == k
    ensures var r := Apply(s, Enter(t, k));
      && t in r.threads && r.threads[t].Waiting? && r.threads[t].gate < |r.heap|
      && r.heap[r.threads[t].gate].token == 1 && r.heap[r.threads[t].gate].key == k
      && r.leases == s.leases && r.cache == s.cache
  {
    hide Linked;
  }

  lemma TakeUnfolds(s: State, t: nat)
    requires Linked(s.cache) && t in s.threads && s.threads[t].Waiting? && s.threads[t].gate < |s.heap|
    requires s.heap[s.threads[t].gate].token == 1
    ensures var g, r := s.threads[t].gate, Apply(s, Take(t));
      && t in r.threads && r.threads[t] == Holding(g) && g < |r.heap| && r.heap[g].key == s.heap[g].key
      && r.leases == s.leases && r.cache == s.cache
  {
    hide Linked;
  }

  lemma GrantUnfolds(s: State, t: nat)
    requires Linked(s.cache) && t in s.threads && s.threads[t].Holding? && s.threads[t].gate < |s.heap|
    ensures var g, l, r := s.threads[t].gate, |s.leases|, Apply(s, Grant(t));
      && |r.leases| == l + 1 && r.leases[..l] == s.leases && r.cache == s.cache
      && r.leases[l].key == s.heap[g].key && r.leases[l].gate == g && !r.leases[l].released
      && t in r.threads && r.threads[t] == Leased(g, l) && Known(r, l) && Live(r, l)
  {
    hide Linked;
  }

  lemma AcquireSteps(s: State, t: nat, k: Key)
    requires Inv(s) && t !in s.threads && (k in s.gates ==> Holders(s.threads, s.gates[k]) == {})
    ensures var r := Apply(Apply(Apply(s, Enter(t, k)), Take(t)), Grant(t)); var l := |s.leases|;
      && |r.leases| == l + 1 && r.leases[l].key == k && !r.leases[l].released
      && t in r.threads && r.threads[t] == Leased(r.leases[l].gate, l) && Known(r, l) && Live(r, l)
      && r.cache == s.cache && r.leases[..l] == s.leases
  {
    IdleToken(s, k);
    hide *;
    EnterUnfolds(s, t, k);
    var a := Apply(s, Enter(t, k));
    TakeUnfolds(a, t);
    GrantUnfolds(Apply(a, Take(t)), t);
  }

  /** And from every state, its owner gives it back in three more: the caller is gone,
      the lease is dead, the token is free, and the gate stays only for others. */
  lemma ReleaseSucceeds(max: int, ttl: int, clock: int, run: seq<Action>, t: nat)
    requires var s := Exec(Init(max, ttl, clock), run); t in s.threads && s.threads[t].Leased?
    ensures var s := Exec(Init(max, ttl, clock), run); var g, l := s.threads[t].gate, s.threads[t].lease;
      var r := Apply(Apply(Apply(s, BeginRelease(t)), DropReference(t)), SendToken(t));
      && r.threads == s.threads - {t} && l < |s.leases| == |r.leases| && r.leases[l].released
      && g < |s.heap| == |r.heap| && r.heap[g].token == 1 && r.cache == s.cache
      && (r.heap[g].key !in r.gates <==>
            forall u :: u in r.threads ==> !(r.threads[u].gate == g && Counted(r.threads[u])))
  {
    ExecKeepsInv(max, ttl, clock, run);
    SendNeverBlocks(max, ttl, clock, run, t);
    var s := Exec(Init(max, ttl, clock), run);
    hide Exec;
    ReleaseSteps(s, t);
  }

  lemma LeasedParts(s: State, t: nat)
    requires Inv(s) && t in s.threads && s.threads[t].Leased?
    ensures s.threads[t].gate < |s.heap| && s.threads[t].lease < |s.leases| && Linked(s.cache)
    ensures var g := s.threads[t].gate;
      && s.heap[g].refs > 0 && s.heap[g].key in s.gates && s.gates[s.heap[g].key] == g
      && s.heap[g].token + |Holders(s.threads, g)| == 1 && s.heap[g].token >= 0
      && s.heap[g].refs == |Referers(s.threads, g)|
  {
    hide OwnersOk, LeasesOk, History;
    Present(s.heap, s.threads, t);
    OwnedLease(s, t);
    hide CountsOk;
    InvCache(s);
  }

  lemma BeginReleaseUnfolds(s: State, t: nat)
    requires Linked(s.cache) && t in s.threads && s.threads[t].Leased?
    requires s.threads[t].gate < |s.heap| && s.threads[t].lease < |s.leases|
    ensures var g, l, r := s.threads[t].gate, s.threads[t].lease, Apply(s, BeginRelease(t));
      && r.threads == s.threads[t := Releasing(g, l)] && r.heap == s.heap && r.gates == s.gates && r.cache == s.cache
      && |r.leases| == |s.leases| && r.leases[l].released
  {
    hide Linked;
  }

  lemma DropUnfolds(s: State, t: nat)
    requires Linked(s.cache) && t in s.threads && s.threads[t].Releasing? && s.threads[t].gate < |s.heap|
    ensures var g, l, r := s.threads[t].gate, s.threads[t].lease, Apply(s, DropReference(t));
      && r.threads == s.threads[t := Unreferenced(g, l)] && r.cache == s.cache && r.leases == s.leases
      && r.heap == Unref(s, g).heap && r.gates == Unref(s, g).gates
  {
    hide Linked;
  }

  lemma SendUnfolds(s: State, t: nat)
    requires Linked(s.cache) && t in s.threads && s.threads[t].Unreferenced? && s.threads[t].gate < |s.heap|
    requires s.heap[s.threads[t].gate].token < TOKEN_CAPACITY
    ensures var g, r := s.threads[t].gate, Apply(s, SendToken(t));
      && r.threads == s.threads - {t} && r.cache == s.cache && r.leases == s.leases && r.gates == s.gates
      && r.heap == s.heap[g := s.heap[g].(token := s.heap[g].token + 1)]
  {
    hide Linked;
  }

  lemma OthersLeft(threads: map<nat, Phase>, t: nat, g: nat)
    requires t in threads && threads[t].Leased? && threads[t].gate == g
    ensures |Referers(threads, g)| == |Referers(threads - {t}, g)| + 1 && |Holders(threads, g)| >= 1
    ensures |Referers(threads - {t}, g)| == 0 <==>
      forall u :: u in threads - {t} ==> !(threads[u].gate == g && Counted(threads[u]))
  {
    var others := Referers(threads - {t}, g);
    assert Referers(threads, g) == others + {t};
    assert t in Holders(threads, g);
    if others != {} {
      var u :| u in others;
      assert u in threads - {t} && threads[u].gate == g && Counted(threads[u]);
    }
  }

  lemma ReleaseSteps(s: State, t: nat)
    requires Inv(s) && t in s.threads && s.threads[t].Leased?
    ensures var g, l := s.threads[t].gate, s.threads[t].lease;
      var r := Apply(Apply(Apply(s, BeginRelease(t)), DropReference(t)), SendToken(t));
      && r.threads == s.threads - {t} && l < |s.leases| == |r.leases| && r.leases[l].released
      && g < |s.heap| == |r.heap| && r.heap[g].token == 1 && r.cache == s.cache
      && (r.heap[g].key !in r.gates <==>
            forall u :: u in r.threads ==> !(r.threads[u].gate == g && Counted(r.threads[u])))
  {
    LeasedParts(s, t);
    OthersLeft(s.threads, t, s.threads[t].gate);
    hide Inv, Linked, Holders, Referers, Apply;
    var a := Apply(s, BeginRelease(t));
    BeginReleaseUnfolds(s, t);
    DropUnfolds(a, t);
    SendUnfolds(Apply(a, DropReference(t)), t);
  }

  /** A caller that is cancelled while it waits, or right after it got the token, is
      gone without a lease and leaves the token to others. */
  lemma CancelSucceeds(max: int, ttl: int, clock: int, run: seq<Action>, t: nat)
    requires var s := Exec(Init(max, ttl, clock), run);
      t in s.threads && (s.threads[t].Waiting? || s.threads[t].Holding?)
    ensures var s := Exec(Init(max, ttl, clock), run); var g := s.threads[t].gate;
      var r := if s.threads[t].Waiting? then Apply(s, CancelWait(t))
               else Apply(Apply(s, Abandon(t)), ReturnToken(t));
      && r.threads == s.threads - {t} && r.leases == s.leases && r.cache == s.cache
      && g < |s.heap| == |r.heap|
      && r.heap[g].token == (if s.threads[t].Waiting? then s.heap[g].token else 1)
      && r.heap[g].refs == s.heap[g].refs - 1
  {
    ExecKeepsInv(max, ttl, clock, run);
    SendNeverBlocks(max, ttl, clock, run, t);
    var s := Exec(Init(max, ttl, clock), run);
    hide Exec;
    InvCache(s);
    CancelToken(s, t);
    hide Inv, Linked, Holders, Apply;
    if s.threads[t].Waiting? {
      CancelWaitUnfolds(s, t);
    } else {
      AbandonUnfolds(s, t);
      ReturnUnfolds(Apply(s, Abandon(t)), t);
    }
  }

  lemma CancelToken(s: State, t: nat)
    requires Inv(s) && t in s.threads
    ensures s.threads[t].gate < |s.heap| && 0 <= s.heap[s.threads[t].gate].token
  {}

  lemma CancelWaitUnfolds(s: State, t: nat)
    requires Linked(s.cache) && t in s.threads && s.threads[t].Waiting? && s.threads[t].gate < |s.heap|
    ensures var g, r := s.threads[t].gate, Apply(s, CancelWait(t));
      && r.threads == s.threads - {t} && r.cache == s.cache && r.leases == s.leases
      && r.heap == Unref(s, g).heap
  {
    hide Linked;
  }

  lemma AbandonUnfolds(s: State, t: nat)
    requires Linked(s.cache) && t in s.threads && s.threads[t].Holding? && s.threads[t].gate < |s.heap|
    ensures var g, r := s.threads[t].gate, Apply(s, Abandon(t));
      && r.threads == s.threads[t := Returning(g)] && r.cache == s.cache && r.leases == s.leases
      && r.heap == Unref(s, g).heap
  {
    hide Linked;
  }

  lemma ReturnUnfolds(s: State, t: nat)
    requires Linked(s.cache) && t in s.threads && s.threads[t].Returning? && s.threads[t].gate < |s.heap|
    requires s.heap[s.threads[t].gate].token < TOKEN_CAPACITY
    ensures var g, r := s.threads[t].gate, Apply(s, ReturnToken(t));
      && r.threads == s.threads - {t} && r.cache == s.cache && r.leases == s.leases
      && r.heap == s.heap[g := s.heap[g].(token := s.heap[g].token + 1)]
  {
    hide Linked;
  }

  // ---------------------------------------------------- unbinding and clearing

  /** From every state a run can reach, an unbind takes the session's binding away and
      ends its leases, and no other live lease. */
  lemma UnbindEnds(max: int, ttl: int, clock: int, run: seq<Action>, k: Key, now: int, l: nat)
    requires var s := Exec(Init(max, ttl, clock), run); l < |s.leases| && s.clock <= now
    ensures var s := Exec(Init(max, ttl, clock), run); var r := Apply(s, Unbind(k, now));
      && k !in r.cache.entries && r.leases == s.leases && Known(s, l) && Known(r, l)
      && (Live(r, l) <==> Live(s, l) && s.leases[l].key != k)
  {
    ExecIsTimely(max, ttl, clock, run);
    LiveExactly(max, ttl, clock, run, l);
    var s := Exec(Init(max, ttl, clock), run);
    hide Exec;
    UnbindUnfolds(s, k, now);
    ExtendedLive(max, ttl, clock, run, Unbind(k, now), l);
    BornBefore(s, l);
  }

  lemma UnbindUnfolds(s: State, k: Key, now: int)
    requires Inv(s) && s.clock <= now
    ensures var r := Apply(s, Unbind(k, now));
      && k !in r.cache.entries && r.leases == s.leases && r.unboundAt == s.unboundAt[k := s.tick + 1]
      && r.clearedAt == s.clearedAt
  {
    InvParts(s, k);
    InvCache(s);
    hide Inv, Linked;
    var t := s.(tick := s.tick + 1);
    assert Enabled(t, Unbind(k, now));
    assert k !in Delete(s.cache, now, k).entries;
  }

  lemma BornBefore(s: State, l: nat)
    requires AllTimely(s) && l < |s.leases|
    ensures s.leases[l].born <= s.tick
  {}

  /** Liveness after one more step. */
  lemma ExtendedLive(max: int, ttl: int, clock: int, run: seq<Action>, a: Action, l: nat)
    requires var r := Apply(Exec(Init(max, ttl, clock), run), a); l < |r.leases|
    ensures var r := Apply(Exec(Init(max, ttl, clock), run), a);
      && Known(r, l)
      && (Live(r, l) <==> !r.leases[l].released && UnboundAt(r.unboundAt, r.leases[l].key) < r.leases[l].born
                          && r.clearedAt < r.leases[l].born)
  {
    RunsExtend(max, ttl, clock, run, a);
    LiveExactly(max, ttl, clock, run + [a], l);
  }

  lemma RunsExtend(max: int, ttl: int, clock: int, run: seq<Action>, a: Action)
    ensures Exec(Init(max, ttl, clock), run + [a]) == Apply(Exec(Init(max, ttl, clock), run), a)
  {
    assert (run + [a])[..|run|] == run;
  }

  /** A clear empties the store and ends every lease; new limits and a listing end none. */
  lemma OtherStepsEnd(max: int, ttl: int, clock: int, run: seq<Action>, now: int, m: int, t: int, l: nat)
    requires var s := Exec(Init(max, ttl, clock), run); l < |s.leases| && s.clock <= now
    ensures var s := Exec(Init(max, ttl, clock), run);
      var c, r, p := Apply(s, ClearAll), Apply(s, Reconfigure(now, m, t)), Apply(s, Listing(now));
      && c.cache.entries == map[] && c.cache.lru == [] && Known(c, l) && !Live(c, l)
      && Linked(s.cache) && r.cache == Configure(s.cache, now, m, t) && p.cache == Prune(s.cache, now)
      && Known(s, l) && Known(r, l) && Known(p, l) && Live(r, l) == Live(s, l) && Live(p, l) == Live(s, l)
  {
    ExecIsTimely(max, ttl, clock, run);
    var s := Exec(Init(max, ttl, clock), run);
    KnownInRun(s, l);
    BornBefore(s, l);
    hide Exec;
    OtherStepsUnfold(s, now, m, t);
    ExtendedLive(max, ttl, clock, run, ClearAll, l);
  }

  lemma OtherStepsUnfold(s: State, now: int, m: int, t: int)
    requires Linked(s.cache) && s.clock <= now
    ensures var c, r, p := Apply(s, ClearAll), Apply(s, Reconfigure(now, m, t)), Apply(s, Listing(now));
      && c.cache.entries == map[] && c.cache.lru == [] && c.leases == s.leases && c.clearedAt == s.tick + 1
      && c.unboundAt == s.unboundAt
      && r.cache == Configure(s.cache, now, m, t) && r.heap == s.heap && r.leases == s.leases && r.epoch == s.epoch
      && p.cache == Prune(s.cache, now) && p.heap == s.heap && p.leases == s.leases && p.epoch == s.epoch
  {
    ClearUnfolds(s);
    ReconfigureUnfolds(s, now, m, t);
    ListingUnfolds(s, now);
    hide *;
  }

  lemma ClearUnfolds(s: State)
    requires Linked(s.cache)
    ensures var c := Apply(s, ClearAll);
      && c.cache.entries == map[] && c.cache.lru == [] && c.leases == s.leases && c.clearedAt == s.tick + 1
      && c.unboundAt == s.unboundAt
  {
    hide Linked;
  }

  lemma ReconfigureUnfolds(s: State, now: int, m: int, t: int)
    requires Linked(s.cache) && s.clock <= now
    ensures var r := Apply(s, Reconfigure(now, m, t));
      r.cache == Configure(s.cache, now, m, t) && r.heap == s.heap && r.leases == s.leases && r.epoch == s.epoch
  {
    hide Linked, Configure;
  }

  lemma ListingUnfolds(s: State, now: int)
    requires Linked(s.cache) && s.clock <= now
    ensures var p := Apply(s, Listing(now));
      p.cache == Prune(s.cache, now) && p.heap == s.heap && p.leases == s.leases && p.epoch == s.epoch
  {
    hide Linked, Prune;
  }
}
