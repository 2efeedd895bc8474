/** The lease protocol of the session store under every interleaving of its
    critical sections and channel operations. `Acquire` and `Release` are several
    steps each; any number of threads take them in any order, and any thread may
    use any lease that was ever handed out. Gates and leases are heap cells named
    by their index, so a gate that was dropped and one that replaced it differ. */
module LeaseProtocol {
  import opened BindingCache

  datatype Gate = Gate(key: Key, refs: int, version: nat, token: int)

  datatype Lease = Lease(key: Key, gate: nat, version: nat, epoch: nat, released: bool, owner: nat, born: nat)

  datatype Phase =
    | Waiting(gate: nat)                  // counted, selecting on the token and the context
    | Holding(gate: nat)                  // token received, lease not yet created
    | Returning(gate: nat)                // cancelled: reference dropped, token not yet back
    | Leased(gate: nat, lease: nat)       // `Acquire` returned
    | Releasing(gate: nat, lease: nat)    // `released` is set
    | Unreferenced(gate: nat, lease: nat) // reference dropped, token not yet back

  /** `born`, `unboundAt`, `clearedAt` and `committedBy` only record history:
      no step reads them. */
  datatype State = State(
    gates: map<Key, nat>, heap: seq<Gate>, leases: seq<Lease>, threads: map<nat, Phase>,
    epoch: nat, cache: Cache, clock: int,
    tick: nat, unboundAt: map<Key, nat>, clearedAt: nat, committedBy: map<Key, nat>)

  datatype Action =
    | Enter(t: nat, k: Key)
    | Take(t: nat)
    | CancelWait(t: nat)
    | Abandon(t: nat)
    | ReturnToken(t: nat)
    | Grant(t: nat)
    | BeginRelease(t: nat)
    | DropReference(t: nat)
    | SendToken(t: nat)
    | Read(l: nat, now: int)
    | Bind(l: nat, now: int, pin: Pin)
    | Unbind(k: Key, now: int)
    | ClearAll
    | Reconfigure(now: int, max: int, ttl: int)
    | Listing(now: int)

  const TOKEN_CAPACITY: int := 1

  function Counted(p: Phase): bool { p.Waiting? || p.Holding? || p.Leased? || p.Releasing? }
  function HasToken(p: Phase): bool { !p.Waiting? }

  // ----------------------------------------------------------------- steps

  predicate In(s: State, t: nat) { t in s.threads && s.threads[t].gate < |s.heap| }

  predicate Known(s: State, l: nat) { l < |s.leases| && s.leases[l].gate < |s.heap| }

  /** The test at the top of `Binding` and `Bind`. */
  predicate Live(s: State, l: nat)
    requires Known(s, l)
  {
    Current(s.heap, s.leases, s.epoch, l)
  }

  predicate Current(heap: seq<Gate>, leases: seq<Lease>, epoch: nat, l: nat)
    requires l < |leases| && leases[l].gate < |heap|
  {
    !leases[l].released && leases[l].epoch == epoch && leases[l].version == heap[leases[l].gate].version
  }

  ghost predicate Enabled(s: State, a: Action) {
    Linked(s.cache) &&
    match a
    case Enter(t, k) => t !in s.threads && (k in s.gates ==> s.gates[k] < |s.heap|)
    case Take(t) => In(s, t) && s.threads[t].Waiting? && s.heap[s.threads[t].gate].token > 0
    case CancelWait(t) => In(s, t) && s.threads[t].Waiting?
    case Abandon(t) => In(s, t) && s.threads[t].Holding?
    case ReturnToken(t) => In(s, t) && s.threads[t].Returning? && s.heap[s.threads[t].gate].token < TOKEN_CAPACITY
    case Grant(t) => In(s, t) && s.threads[t].Holding?
    case BeginRelease(t) => In(s, t) && s.threads[t].Leased? && s.threads[t].lease < |s.leases|
    case DropReference(t) => In(s, t) && s.threads[t].Releasing?
    case SendToken(t) => In(s, t) && s.threads[t].Unreferenced? && s.heap[s.threads[t].gate].token < TOKEN_CAPACITY
    case Read(l, now) => Known(s, l) && s.clock <= now
    case Bind(l, now, _) => Known(s, l) && s.clock <= now
    case Unbind(k, now) => s.clock <= now && (k in s.gates ==> s.gates[k] < |s.heap|)
    case ClearAll => true
    case Reconfigure(now, _, _) => s.clock <= now
    case Listing(now) => s.clock <= now
  }

  function At(s: State, t: nat, p: Phase): State { s.(threads := s.threads[t := p]) }
  function Gone(s: State, t: nat): State { s.(threads := s.threads - {t}) }

  function MoveToken(s: State, g: nat, n: int): State
    requires g < |s.heap|
  {
    s.(heap := s.heap[g := s.heap[g].(token := s.heap[g].token + n)])
  }

  /** `releaseReference`: the gate leaves the map when nobody counts on it. */
  function Unref(s: State, g: nat): State
    requires g < |s.heap|
  {
    var gate := s.heap[g].(refs := s.heap[g].refs - 1);
    s.(heap := s.heap[g := gate],
       gates := if gate.refs == 0 && gate.key in s.gates && s.gates[gate.key] == g
                then s.gates - {gate.key} else s.gates)
  }

  function Join(s: State, t: nat, k: Key): State
    requires k in s.gates ==> s.gates[k] < |s.heap|
  {
    if k in s.gates then
      var g := s.gates[k];
      At(s.(heap := s.heap[g := s.heap[g].(refs := s.heap[g].refs + 1)]), t, Waiting(g))
    else
      At(s.(heap := s.heap + [Gate(k, 1, 0, 1)], gates := s.gates[k := |s.heap|]), t, Waiting(|s.heap|))
  }

  function CreateLease(s: State, t: nat, g: nat): State
    requires g < |s.heap|
  {
    At(s.(leases := s.leases + [Lease(s.heap[g].key, g, s.heap[g].version, s.epoch, false, t, s.tick)]),
       t, Leased(g, |s.leases|))
  }

  /** What a lease reads. */
  function ReadOf(s: State, l: nat, now: int): (Cache, Option<Binding>)
    requires Known(s, l)
  {
    if Live(s, l) then ReadPin(s.cache, now, s.leases[l].key) else (s.cache, None)
  }

  ghost function BindBy(s: State, l: nat, now: int, pin: Pin): State
    requires Known(s, l) && Linked(s.cache)
  {
    var s := s.(clock := now);
    if Live(s, l) then
      s.(cache := Commit(s.cache, now, s.leases[l].key, pin), committedBy := s.committedBy[s.leases[l].key := l])
    else s
  }

  ghost function UnbindKey(s: State, k: Key, now: int): State
    requires Linked(s.cache) && (k in s.gates ==> s.gates[k] < |s.heap|)
  {
    var heap := if k in s.gates
      then s.heap[s.gates[k] := s.heap[s.gates[k]].(version := s.heap[s.gates[k]].version + 1)] else s.heap;
    s.(heap := heap, clock := now, cache := Delete(s.cache, now, k), unboundAt := s.unboundAt[k := s.tick])
  }

  /** One step, taken at history position `tick`. */
  ghost function Step(s: State, a: Action): State
    requires Enabled(s, a)
  {
    match a
    case Enter(t, k) => Join(s, t, k)
    case Take(t) => At(MoveToken(s, s.threads[t].gate, -1), t, Holding(s.threads[t].gate))
    case CancelWait(t) => Gone(Unref(s, s.threads[t].gate), t)
    case Abandon(t) => At(Unref(s, s.threads[t].gate), t, Returning(s.threads[t].gate))
    case ReturnToken(t) => Gone(MoveToken(s, s.threads[t].gate, 1), t)
    case Grant(t) => CreateLease(s, t, s.threads[t].gate)
    case BeginRelease(t) =>
      var l := s.threads[t].lease;
      At(s.(leases := s.leases[l := s.leases[l].(released := true)]), t, Releasing(s.threads[t].gate, l))
    case DropReference(t) =>
      At(Unref(s, s.threads[t].gate), t, Unreferenced(s.threads[t].gate, s.threads[t].lease))
    case SendToken(t) => Gone(MoveToken(s, s.threads[t].gate, 1), t)
    case Read(l, now) => s.(clock := now, cache := ReadOf(s, l, now).0)
    case Bind(l, now, pin) => BindBy(s, l, now, pin)
    case Unbind(k, now) => UnbindKey(s, k, now)
    case ClearAll => s.(cache := Clear(s.cache), epoch := s.epoch + 1, clearedAt := s.tick)
    case Reconfigure(now, max, ttl) => s.(clock := now, cache := Configure(s.cache, now, max, ttl))
    case Listing(now) => s.(clock := now, cache := Prune(s.cache, now))
  }

  /** History positions are numbered from one. */
  ghost function Apply(s: State, a: Action): State {
    var s := s.(tick := s.tick + 1);
    if Enabled(s, a) then Step(s, a) else s
  }

  function Init(max: int, ttl: int, clock: int): State {
    State(map[], [], [], map[], 0, Cache(map[], [], Limits(max, ttl).0, Limits(max, ttl).1), clock, 0, map[], 0, map[])
  }

  ghost function Exec(s: State, run: seq<Action>): State
    decreases |run|
  {
    if run == [] then s else Apply(Exec(s, run[..|run| - 1]), run[|run| - 1])
  }

  // ------------------------------------------------------------- invariant

  ghost function Referers(threads: map<nat, Phase>, g: nat): set<nat> {
    set t | t in threads && threads[t].gate == g && Counted(threads[t])
  }

  ghost function Holders(threads: map<nat, Phase>, g: nat): set<nat> {
    set t | t in threads && threads[t].gate == g && HasToken(threads[t])
  }

  /** `gates` holds a key exactly while its gate is counted on. */
  ghost predicate GatesOk(gates: map<Key, nat>, heap: seq<Gate>) {
    && (forall k :: k in gates ==> gates[k] < |heap| && heap[gates[k]].key == k && heap[gates[k]].refs > 0)
    && (forall g :: 0 <= g < |heap| && heap[g].refs > 0 ==> heap[g].key in gates && gates[heap[g].key] == g)
  }

  /** Reference counts are exact, and each gate has one token: in the channel or
      with one thread. */
  ghost predicate CountsOk(heap: seq<Gate>, threads: map<nat, Phase>) {
    && (forall g :: 0 <= g < |heap| ==> heap[g].refs == |Referers(threads, g)|)
    && (forall g :: 0 <= g < |heap| ==> heap[g].token >= 0 && heap[g].token + |Holders(threads, g)| == 1)
    && (forall t :: t in threads ==> threads[t].gate < |heap|)
  }

  /** Leases point at gates of their key and at versions and epochs already seen. */
  ghost predicate LeasesOk(heap: seq<Gate>, leases: seq<Lease>, epoch: nat) {
    forall l :: 0 <= l < |leases| ==>
      && leases[l].gate < |heap| && heap[leases[l].gate].key == leases[l].key
      && leases[l].version <= heap[leases[l].gate].version && leases[l].epoch <= epoch
  }

  /** Each unreleased lease belongs to exactly one thread. */
  ghost predicate OwnersOk(leases: seq<Lease>, threads: map<nat, Phase>) {
    && (forall l :: 0 <= l < |leases| && !leases[l].released ==>
          leases[l].owner in threads && threads[leases[l].owner] == Leased(leases[l].gate, l))
    && (forall t :: t in threads && threads[t].Leased? ==>
          threads[t].lease < |leases| && leases[threads[t].lease].owner == t && !leases[threads[t].lease].released)
  }

  function UnboundAt(unboundAt: map<Key, nat>, k: Key): nat { if k in unboundAt then unboundAt[k] else 0 }

  /** The lease is younger than every unbind of its key and every clear. */
  ghost predicate Younger(lease: Lease, unboundAt: map<Key, nat>, clearedAt: nat) {
    UnboundAt(unboundAt, lease.key) < lease.born && clearedAt < lease.born
  }

  ghost predicate TicksOk(s: State) {
    s.clearedAt <= s.tick && forall k :: k in s.unboundAt ==> s.unboundAt[k] <= s.tick
  }

  ghost predicate LiveYoung(heap: seq<Gate>, leases: seq<Lease>, epoch: nat, unboundAt: map<Key, nat>, clearedAt: nat)
    requires LeasesOk(heap, leases, epoch)
  {
    forall l :: 0 <= l < |leases| && Current(heap, leases, epoch, l) ==> Younger(leases[l], unboundAt, clearedAt)
  }

  ghost predicate EntriesYoung(entries: map<Key, Binding>, leases: seq<Lease>, committedBy: map<Key, nat>,
                               unboundAt: map<Key, nat>, clearedAt: nat) {
    forall k :: k in entries ==>
      && k in committedBy && committedBy[k] < |leases|
      && leases[committedBy[k]].key == k && Younger(leases[committedBy[k]], unboundAt, clearedAt)
  }

  ghost predicate Structure(s: State) {
    && GatesOk(s.gates, s.heap) && CountsOk(s.heap, s.threads)
    && LeasesOk(s.heap, s.leases, s.epoch) && OwnersOk(s.leases, s.threads)
  }

  ghost predicate History(s: State)
    requires Structure(s)
  {
    && Wf(s.cache, s.clock) && TicksOk(s)
    && LiveYoung(s.heap, s.leases, s.epoch, s.unboundAt, s.clearedAt)
    && EntriesYoung(s.cache.entries, s.leases, s.committedBy, s.unboundAt, s.clearedAt)
  }

  ghost predicate Inv(s: State) {
    Structure(s) && History(s)
  }

  // -------------------------------------------------------------- counting

  function One(b: bool): nat { if b then 1 else 0 }

  ghost predicate SameBut(a: map<nat, Phase>, b: map<nat, Phase>, t: nat) {
    forall x :: x != t ==> (x in a <==> x in b) && (x in a ==> a[x] == b[x])
  }

  /** Moving one thread changes each gate's counts by that thread alone. */
  lemma OneThreadMoves(a: map<nat, Phase>, b: map<nat, Phase>, t: nat, g: nat)
    requires SameBut(a, b, t)
    ensures |Referers(b, g)| == |Referers(a, g)| - One(t in Referers(a, g)) + One(t in Referers(b, g))
    ensures |Holders(b, g)| == |Holders(a, g)| - One(t in Holders(a, g)) + One(t in Holders(b, g))
  {
    SplitTwo(Referers(a, g), Referers(b, g), t);
    SplitTwo(Holders(a, g), Holders(b, g), t);
  }

  lemma SplitTwo(a: set<nat>, b: set<nat>, t: nat)
    requires forall x :: x != t ==> (x in a <==> x in b)
    ensures |b| == |a| - One(t in a) + One(t in b)
  {
    assert a - {t} == b - {t};
    SplitOne(a, t);
    SplitOne(b, t);
  }

  lemma SplitOne(a: set<nat>, t: nat)
    ensures |a| == |a - {t}| + One(t in a)
  {
    if t in a {
      assert a == (a - {t}) + {t};
    } else {
      assert a == a - {t};
    }
  }

  /** One thread moves at one gate, whose counts follow it. */
  lemma CountsMove(heap: seq<Gate>, threads: map<nat, Phase>, heap': seq<Gate>, threads': map<nat, Phase>, t: nat,
                   g: nat)
    requires CountsOk(heap, threads) && SameBut(threads, threads', t)
    requires g < |heap| == |heap'|
    requires t in threads ==> threads[t].gate == g
    requires t in threads' ==> threads'[t].gate == g
    requires forall x :: 0 <= x < |heap| && x != g ==> heap'[x].refs == heap[x].refs && heap'[x].token == heap[x].token
    requires heap'[g].refs == heap[g].refs - One(t in Referers(threads, g)) + One(t in Referers(threads', g))
    requires heap'[g].token == heap[g].token + One(t in Holders(threads, g)) - One(t in Holders(threads', g))
    requires heap'[g].token >= 0
    ensures CountsOk(heap', threads')
  {
    forall x | 0 <= x < |heap|
      ensures heap'[x].refs == |Referers(threads', x)|
      ensures heap'[x].token >= 0 && heap'[x].token + |Holders(threads', x)| == 1
    {
      OneThreadMoves(threads, threads', t, x);
    }
  }

  lemma Present(heap: seq<Gate>, threads: map<nat, Phase>, t: nat)
    requires CountsOk(heap, threads) && t in threads
    ensures threads[t].gate < |heap|
    ensures Counted(threads[t]) ==> heap[threads[t].gate].refs > 0
    ensures HasToken(threads[t]) ==> heap[threads[t].gate].token == 0
  {
    var g := threads[t].gate;
    if Counted(threads[t]) {
      assert t in Referers(threads, g);
    }
    if HasToken(threads[t]) {
      assert t in Holders(threads, g);
    }
  }

  // ------------------------------------------------------------- preservation

  lemma UnrefGates(s: State, g: nat)
    requires GatesOk(s.gates, s.heap) && g < |s.heap| && s.heap[g].refs > 0
    ensures GatesOk(Unref(s, g).gates, Unref(s, g).heap)
  {}

  /** New gates may appear; keys and versions of the others stay. */
  ghost predicate SameVersions(heap: seq<Gate>, heap': seq<Gate>) {
    && |heap| <= |heap'|
    && (forall g :: 0 <= g < |heap| ==> heap'[g].key == heap[g].key && heap'[g].version == heap[g].version)
  }

  lemma SameVersionsKeep(heap: seq<Gate>, heap': seq<Gate>, s: State)
    requires LeasesOk(heap, s.leases, s.epoch) && SameVersions(heap, heap')
    requires LiveYoung(heap, s.leases, s.epoch, s.unboundAt, s.clearedAt)
    ensures LeasesOk(heap', s.leases, s.epoch)
    ensures LiveYoung(heap', s.leases, s.epoch, s.unboundAt, s.clearedAt)
  {
    forall l | 0 <= l < |s.leases| && Current(heap', s.leases, s.epoch, l)
      ensures Younger(s.leases[l], s.unboundAt, s.clearedAt)
    {
      assert Current(heap, s.leases, s.epoch, l);
    }
  }

  lemma OwnersMove(leases: seq<Lease>, threads: map<nat, Phase>, threads': map<nat, Phase>, t: nat)
    requires OwnersOk(leases, threads) && SameBut(threads, threads', t)
    requires t in threads ==> !threads[t].Leased?
    requires t in threads' ==> !threads'[t].Leased?
    ensures OwnersOk(leases, threads')
  {}

  /** A step of one thread that touches neither leases nor the cache. */
  lemma ThreadStep(s: State, gates: map<Key, nat>, heap: seq<Gate>, threads: map<nat, Phase>, t: nat)
    requires Inv(s) && SameVersions(s.heap, heap) && SameBut(s.threads, threads, t)
    requires t in s.threads ==> !s.threads[t].Leased?
    requires t in threads ==> !threads[t].Leased?
    requires GatesOk(gates, heap) && CountsOk(heap, threads)
    ensures Inv(s.(gates := gates, heap := heap, threads := threads))
  {
    SameVersionsKeep(s.heap, heap, s);
    OwnersMove(s.leases, s.threads, threads, t);
  }

  lemma JoinNewGate(s: State, t: nat, k: Key)
    requires CountsOk(s.heap, s.threads) && t !in s.threads && k !in s.gates
    ensures CountsOk(Join(s, t, k).heap, Join(s, t, k).threads)
  {
    var s' := Join(s, t, k);
    var n := |s.heap|;
    assert Referers(s.threads, n) == {} && Holders(s.threads, n) == {};
    forall g | 0 <= g <= n
      ensures s'.heap[g].refs == |Referers(s'.threads, g)|
      ensures s'.heap[g].token >= 0 && s'.heap[g].token + |Holders(s'.threads, g)| == 1
    {
      OneThreadMoves(s.threads, s'.threads, t, g);
    }
  }

  lemma JoinOldGate(s: State, t: nat, k: Key)
    requires CountsOk(s.heap, s.threads) && t !in s.threads && k in s.gates && s.gates[k] < |s.heap|
    ensures CountsOk(Join(s, t, k).heap, Join(s, t, k).threads)
  {
    var s', g := Join(s, t, k), s.gates[k];
    CountsMove(s.heap, s.threads, s'.heap, s'.threads, t, g);
  }

  lemma CountedGate(gates: map<Key, nat>, heap: seq<Gate>, k: Key)
    requires GatesOk(gates, heap) && k in gates
    ensures GatesOk(gates, heap[gates[k] := heap[gates[k]].(refs := heap[gates[k]].refs + 1)])
  {}

  lemma NewGate(gates: map<Key, nat>, heap: seq<Gate>, k: Key)
    requires GatesOk(gates, heap) && k !in gates
    ensures GatesOk(gates[k := |heap|], heap + [Gate(k, 1, 0, 1)])
  {
    var heap' := heap + [Gate(k, 1, 0, 1)];
    forall g | 0 <= g < |heap| && heap'[g].refs > 0 ensures heap'[g].key != k {
      assert heap'[g] == heap[g];
    }
  }

  lemma JoinGates(s: State, t: nat, k: Key)
    requires GatesOk(s.gates, s.heap)
    ensures GatesOk(Join(s, t, k).gates, Join(s, t, k).heap)
    ensures SameVersions(s.heap, Join(s, t, k).heap)
  {
    if k in s.gates {
      CountedGate(s.gates, s.heap, k);
    } else {
      NewGate(s.gates, s.heap, k);
    }
    hide GatesOk;
  }

  lemma JoinShape(s: State, t: nat, k: Key)
    requires t !in s.threads && (k in s.gates ==> s.gates[k] < |s.heap|)
    ensures var s' := Join(s, t, k);
      && s' == s.(gates := s'.gates, heap := s'.heap, threads := s'.threads)
      && SameBut(s.threads, s'.threads, t) && t in s'.threads && s'.threads[t].Waiting?
  {}

  lemma JoinKeepsInv(s: State, t: nat, k: Key)
    requires Inv(s) && Enabled(s, Enter(t, k))
    ensures Inv(Join(s, t, k))
  {
    var s' := Join(s, t, k);
    hide GatesOk, CountsOk, LeasesOk, OwnersOk, History, SameVersions;
    JoinGates(s, t, k);
    if k in s.gates {
      JoinOldGate(s, t, k);
    } else {
      JoinNewGate(s, t, k);
    }
    JoinShape(s, t, k);
    hide Join, Inv, SameBut;
    ThreadStep(s, s'.gates, s'.heap, s'.threads, t);
  }

  /** The steps that move one thread at its gate and create or end no lease. */
  predicate Moves(a: Action) {
    a.Take? || a.CancelWait? || a.Abandon? || a.ReturnToken? || a.DropReference? || a.SendToken?
  }

  /** What such a step does, in terms of its gate. */
  lemma MoveUnfolds(s: State, a: Action)
    requires Moves(a) && Enabled(s, a)
    ensures var s', t, p := Step(s, a), a.t, s.threads[a.t];
      && SameVersions(s.heap, s'.heap) && s' == s.(gates := s'.gates, heap := s'.heap, threads := s'.threads)
      && (if a.CancelWait? || a.Abandon? || a.DropReference? then
            s'.gates == Unref(s, p.gate).gates && s'.heap == Unref(s, p.gate).heap
            && (if a.CancelWait? then p.Waiting? else if a.Abandon? then p.Holding? else p.Releasing?)
          else
            s'.gates == s.gates && s'.heap == MoveToken(s, p.gate, if a.Take? then -1 else 1).heap
            && (if a.Take? then p.Waiting? && s.heap[p.gate].token > 0
                else if a.ReturnToken? then p.Returning? else p.Unreferenced?))
      && s'.threads == (if a.Take? then s.threads[t := Holding(p.gate)]
                        else if a.Abandon? then s.threads[t := Returning(p.gate)]
                        else if a.DropReference? && p.Releasing? then s.threads[t := Unreferenced(p.gate, p.lease)]
                        else s.threads - {t})
  {}

  lemma MoveCounts(s: State, a: Action)
    requires CountsOk(s.heap, s.threads) && Moves(a) && Enabled(s, a)
    ensures CountsOk(Step(s, a).heap, Step(s, a).threads)
    ensures SameBut(s.threads, Step(s, a).threads, a.t)
  {
    var g := s.threads[a.t].gate;
    Present(s.heap, s.threads, a.t);
    MoveUnfolds(s, a);
    var s' := Step(s, a);
    hide Step, CountsOk, Enabled, SameVersions;
    CountsMove(s.heap, s.threads, s'.heap, s'.threads, a.t, g);
  }

  lemma TokenGates(gates: map<Key, nat>, heap: seq<Gate>, g: nat, n: int)
    requires GatesOk(gates, heap) && g < |heap|
    ensures GatesOk(gates, heap[g := heap[g].(token := heap[g].token + n)])
  {}

  predicate Drops(a: Action) { a.CancelWait? || a.Abandon? || a.DropReference? }

  lemma DropGates(s: State, a: Action)
    requires GatesOk(s.gates, s.heap) && CountsOk(s.heap, s.threads) && Moves(a) && Enabled(s, a) && Drops(a)
    ensures GatesOk(Step(s, a).gates, Step(s, a).heap)
  {
    MoveUnfolds(s, a);
    hide Step, GatesOk, CountsOk, Unref, SameVersions, Enabled, MoveToken;
    Present(s.heap, s.threads, a.t);
    UnrefGates(s, s.threads[a.t].gate);
  }

  lemma MoveGates(s: State, a: Action)
    requires GatesOk(s.gates, s.heap) && CountsOk(s.heap, s.threads) && Moves(a) && Enabled(s, a)
    ensures GatesOk(Step(s, a).gates, Step(s, a).heap)
  {
    hide GatesOk, CountsOk, Unref, SameVersions;
    if Drops(a) {
      DropGates(s, a);
    } else {
      MoveUnfolds(s, a);
      hide Step, Enabled;
      TokenGates(s.gates, s.heap, s.threads[a.t].gate, if a.Take? then -1 else 1);
    }
  }

  lemma MoveKeepsInv(s: State, a: Action)
    requires Inv(s) && Moves(a) && Enabled(s, a)
    ensures Inv(Step(s, a))
  {
    MoveUnfolds(s, a);
    MoveCounts(s, a);
    MoveGates(s, a);
    hide Step, GatesOk, CountsOk, LeasesOk, OwnersOk, History, SameVersions, SameBut, Unref;
    ThreadStep(s, Step(s, a).gates, Step(s, a).heap, Step(s, a).threads, a.t);
  }

  /** Unbinds and clears happened at earlier history positions. */
  ghost predicate Recorded(s: State) {
    s.clearedAt < s.tick && forall k :: k in s.unboundAt ==> s.unboundAt[k] < s.tick
  }

  lemma GrantYoung(s: State, lease: Lease)
    requires LeasesOk(s.heap, s.leases, s.epoch) && LiveYoung(s.heap, s.leases, s.epoch, s.unboundAt, s.clearedAt)
    requires lease.gate < |s.heap| && s.heap[lease.gate].key == lease.key
    requires lease.version == s.heap[lease.gate].version && lease.epoch == s.epoch && lease.born == s.tick
    requires Recorded(s)
    ensures LeasesOk(s.heap, s.leases + [lease], s.epoch)
    ensures LiveYoung(s.heap, s.leases + [lease], s.epoch, s.unboundAt, s.clearedAt)
  {
    var leases := s.leases + [lease];
    forall l | 0 <= l < |leases| && Current(s.heap, leases, s.epoch, l)
      ensures Younger(leases[l], s.unboundAt, s.clearedAt)
    {
      if l < |s.leases| {
        assert leases[l] == s.leases[l];
        assert Current(s.heap, s.leases, s.epoch, l);
      }
    }
  }

  lemma GrantEntries(entries: map<Key, Binding>, leases: seq<Lease>, lease: Lease, committedBy: map<Key, nat>,
                     unboundAt: map<Key, nat>, clearedAt: nat)
    requires EntriesYoung(entries, leases, committedBy, unboundAt, clearedAt)
    ensures EntriesYoung(entries, leases + [lease], committedBy, unboundAt, clearedAt)
  {}

  lemma GrantCounts(s: State, t: nat)
    requires CountsOk(s.heap, s.threads) && t in s.threads && s.threads[t].Holding?
    ensures CountsOk(s.heap, s.threads[t := Leased(s.threads[t].gate, |s.leases|)])
  {
    var threads' := s.threads[t := Leased(s.threads[t].gate, |s.leases|)];
    CountsMove(s.heap, s.threads, s.heap, threads', t, s.threads[t].gate);
  }

  lemma GrantKeepsInv(s: State, t: nat)
    requires Inv(s) && Enabled(s, Grant(t)) && Recorded(s)
    ensures Inv(Step(s, Grant(t)))
  {
    var g := s.threads[t].gate;
    var lease := Lease(s.heap[g].key, g, s.heap[g].version, s.epoch, false, t, s.tick);
    GrantCounts(s, t);
    GrantOwners(s, t);
    GrantYoung(s, lease);
    GrantEntries(s.cache.entries, s.leases, lease, s.committedBy, s.unboundAt, s.clearedAt);
    hide GatesOk, CountsOk, LeasesOk, OwnersOk, LiveYoung, EntriesYoung, Wf, TicksOk, Recorded;
  }

  lemma GrantOwners(s: State, t: nat)
    requires Structure(s) && Enabled(s, Grant(t))
    ensures OwnersOk(Step(s, Grant(t)).leases, Step(s, Grant(t)).threads)
  {
    var s' := Step(s, Grant(t));
    forall l | 0 <= l < |s'.leases| && !s'.leases[l].released
      ensures s'.leases[l].owner in s'.threads && s'.threads[s'.leases[l].owner] == Leased(s'.leases[l].gate, l)
    {
      if l < |s.leases| {
        assert s.leases[l].owner != t;
      }
    }
  }

  lemma ReleasedOwners(leases: seq<Lease>, threads: map<nat, Phase>, t: nat)
    requires OwnersOk(leases, threads) && t in threads && threads[t].Leased?
    ensures var l := threads[t].lease;
      OwnersOk(leases[l := leases[l].(released := true)], threads[t := Releasing(threads[t].gate, l)])
  {}

  lemma ReleasedYoung(s: State, l: nat)
    requires LeasesOk(s.heap, s.leases, s.epoch) && l < |s.leases|
    requires LiveYoung(s.heap, s.leases, s.epoch, s.unboundAt, s.clearedAt)
    ensures var leases := s.leases[l := s.leases[l].(released := true)];
      LeasesOk(s.heap, leases, s.epoch) && LiveYoung(s.heap, leases, s.epoch, s.unboundAt, s.clearedAt)
  {
    var leases := s.leases[l := s.leases[l].(released := true)];
    forall x | 0 <= x < |leases| && Current(s.heap, leases, s.epoch, x)
      ensures Younger(leases[x], s.unboundAt, s.clearedAt)
    {
      assert Current(s.heap, s.leases, s.epoch, x);
    }
  }

  lemma ReleasedEntries(entries: map<Key, Binding>, leases: seq<Lease>, l: nat, committedBy: map<Key, nat>,
                        unboundAt: map<Key, nat>, clearedAt: nat)
    requires EntriesYoung(entries, leases, committedBy, unboundAt, clearedAt) && l < |leases|
    ensures EntriesYoung(entries, leases[l := leases[l].(released := true)], committedBy, unboundAt, clearedAt)
  {}

  lemma ReleasedCounts(heap: seq<Gate>, threads: map<nat, Phase>, t: nat)
    requires CountsOk(heap, threads) && t in threads && threads[t].Leased?
    ensures CountsOk(heap, threads[t := Releasing(threads[t].gate, threads[t].lease)])
  {
    var threads' := threads[t := Releasing(threads[t].gate, threads[t].lease)];
    Present(heap, threads, t);
    hide CountsOk;
    CountsMove(heap, threads, heap, threads', t, threads[t].gate);
  }

  lemma BeginReleaseKeepsInv(s: State, t: nat)
    requires Inv(s) && Enabled(s, BeginRelease(t))
    ensures Inv(Step(s, BeginRelease(t)))
  {
    hide GatesOk, CountsOk, LeasesOk, OwnersOk, LiveYoung, EntriesYoung, Wf, TicksOk, Linked;
    var l := s.threads[t].lease;
    ReleasedOwners(s.leases, s.threads, t);
    ReleasedYoung(s, l);
    ReleasedEntries(s.cache.entries, s.leases, l, s.committedBy, s.unboundAt, s.clearedAt);
    ReleasedCounts(s.heap, s.threads, t);
    TicksStay(s, Step(s, BeginRelease(t)));
  }

  lemma TicksStay(s: State, r: State)
    requires TicksOk(s) && r.clearedAt == s.clearedAt && r.tick == s.tick && r.unboundAt == s.unboundAt
    ensures TicksOk(r)
  {}

  /** A step that only changes cache and clock, to a cache with no new key. */
  lemma ShrinkKeepsInv(s: State, c: Cache, now: int)
    requires Inv(s) && Wf(c, now)
    requires forall k :: k in c.entries ==> k in s.cache.entries
    ensures Inv(s.(clock := now, cache := c))
  {}

  lemma BindKeepsInv(s: State, l: nat, now: int, pin: Pin)
    requires Inv(s) && Known(s, l) && s.clock <= now
    ensures Inv(BindBy(s, l, now, pin))
  {
    LaterClock(s.cache, s.clock, now);
    if Live(s, l) {
      var k := s.leases[l].key;
      CommitIsWf(s.cache, s.clock, now, k, pin);
      CommitIsLinked(s.cache, now, k, pin);
      BindYoung(s, k, l, Commit(s.cache, now, k, pin).entries);
    } else {
      ShrinkKeepsInv(s, s.cache, now);
    }
  }

  lemma BindYoung(s: State, k: Key, l: nat, entries: map<Key, Binding>)
    requires EntriesYoung(s.cache.entries, s.leases, s.committedBy, s.unboundAt, s.clearedAt)
    requires l < |s.leases| && s.leases[l].key == k && Younger(s.leases[l], s.unboundAt, s.clearedAt)
    requires forall x :: x in entries ==> x == k || x in s.cache.entries
    ensures EntriesYoung(entries, s.leases, s.committedBy[k := l], s.unboundAt, s.clearedAt)
  {}

  lemma OneGatePerKey(s: State, l: nat)
    requires Structure(s) && l < |s.leases| && !s.leases[l].released
    ensures s.leases[l].key in s.gates && s.gates[s.leases[l].key] == s.leases[l].gate
  {
    Present(s.heap, s.threads, s.leases[l].owner);
  }

  lemma VersionUpLeases(heap: seq<Gate>, leases: seq<Lease>, epoch: nat, g: nat)
    requires LeasesOk(heap, leases, epoch) && g < |heap|
    ensures LeasesOk(heap[g := heap[g].(version := heap[g].version + 1)], leases, epoch)
  {}

  /** No lease of the gate survives a new version of it; the others do. */
  lemma VersionUpCurrent(heap: seq<Gate>, leases: seq<Lease>, epoch: nat, g: nat, l: nat)
    requires LeasesOk(heap, leases, epoch) && g < |heap| && l < |leases|
    requires Current(heap[g := heap[g].(version := heap[g].version + 1)], leases, epoch, l)
    ensures Current(heap, leases, epoch, l) && leases[l].gate != g
  {}

  /** What an unbind leaves current was current before, and is of another key. */
  lemma UnbindLeaves(s: State, k: Key, now: int, l: nat)
    requires Structure(s) && Linked(s.cache) && (k in s.gates ==> s.gates[k] < |s.heap|) && l < |s.leases|
    requires LeasesOk(UnbindKey(s, k, now).heap, s.leases, s.epoch)
    requires Current(UnbindKey(s, k, now).heap, s.leases, s.epoch, l)
    ensures Current(s.heap, s.leases, s.epoch, l) && s.leases[l].key != k
  {
    hide CountsOk, GatesOk, OwnersOk;
    if k in s.gates {
      VersionUpCurrent(s.heap, s.leases, s.epoch, s.gates[k], l);
    }
    hide LeasesOk;
    OneGatePerKey(s, l);
  }

  lemma UnbindLeases(s: State, k: Key, now: int)
    requires LeasesOk(s.heap, s.leases, s.epoch) && Linked(s.cache) && (k in s.gates ==> s.gates[k] < |s.heap|)
    ensures LeasesOk(UnbindKey(s, k, now).heap, s.leases, s.epoch)
  {
    if k in s.gates {
      VersionUpLeases(s.heap, s.leases, s.epoch, s.gates[k]);
    }
    hide LeasesOk;
  }

  lemma InvParts(s: State, k: Key)
    requires Inv(s)
    ensures Structure(s) && Linked(s.cache) && (k in s.gates ==> s.gates[k] < |s.heap|)
    ensures LeasesOk(s.heap, s.leases, s.epoch)
    ensures LiveYoung(s.heap, s.leases, s.epoch, s.unboundAt, s.clearedAt)
  {}

  /** Unbinding raises the version of the key's gate, so every lease it leaves
      current is of another key. */
  lemma UnbindLiveYoung(s: State, k: Key, now: int)
    requires Inv(s)
    ensures var s' := UnbindKey(s, k, now);
      LeasesOk(s'.heap, s'.leases, s'.epoch) && LiveYoung(s'.heap, s'.leases, s'.epoch, s'.unboundAt, s'.clearedAt)
  {
    InvParts(s, k);
    hide Inv, Structure, Linked, LeasesOk, Current;
    UnbindLeases(s, k, now);
    var s' := UnbindKey(s, k, now);
    assert s'.leases == s.leases && s'.epoch == s.epoch;
    forall l | 0 <= l < |s'.leases| && Current(s'.heap, s'.leases, s'.epoch, l)
      ensures Younger(s'.leases[l], s'.unboundAt, s'.clearedAt)
    {
      UnbindLeaves(s, k, now, l);
    }
  }

  lemma UnbindYoung(s: State, k: Key, now: int)
    requires Inv(s)
    ensures var s' := UnbindKey(s, k, now);
      EntriesYoung(s'.cache.entries, s.leases, s.committedBy, s'.unboundAt, s'.clearedAt)
  {
    InvParts(s, k);
    EntriesUnbound(s.cache.entries, Delete(s.cache, now, k).entries, s.leases, s.committedBy, s.unboundAt, s.clearedAt,
      k, s.tick);
    hide Inv, EntriesYoung, Linked;
  }

  lemma EntriesUnbound(was: map<Key, Binding>, entries: map<Key, Binding>, leases: seq<Lease>,
                       committedBy: map<Key, nat>, unboundAt: map<Key, nat>, clearedAt: nat, k: Key, tick: nat)
    requires EntriesYoung(was, leases, committedBy, unboundAt, clearedAt)
    requires forall x :: x in entries ==> x in was && x != k
    ensures EntriesYoung(entries, leases, committedBy, unboundAt[k := tick], clearedAt)
  {}

  lemma VersionUp(gates: map<Key, nat>, heap: seq<Gate>, threads: map<nat, Phase>, g: nat)
    requires GatesOk(gates, heap) && CountsOk(heap, threads) && g < |heap|
    ensures GatesOk(gates, heap[g := heap[g].(version := heap[g].version + 1)])
    ensures CountsOk(heap[g := heap[g].(version := heap[g].version + 1)], threads)
  {}

  lemma UnbindStructure(s: State, k: Key, now: int)
    requires GatesOk(s.gates, s.heap) && CountsOk(s.heap, s.threads) && Linked(s.cache)
    requires k in s.gates ==> s.gates[k] < |s.heap|
    ensures GatesOk(UnbindKey(s, k, now).gates, UnbindKey(s, k, now).heap)
    ensures CountsOk(UnbindKey(s, k, now).heap, UnbindKey(s, k, now).threads)
  {
    hide GatesOk, CountsOk, LeasesOk, OwnersOk, Linked;
    if k in s.gates {
      VersionUp(s.gates, s.heap, s.threads, s.gates[k]);
    }
  }

  lemma UnbindKeepsInv(s: State, k: Key, now: int)
    requires Inv(s) && s.clock <= now
    ensures Inv(UnbindKey(s, k, now))
  {
    DeleteIsWf(s.cache, s.clock, now, k);
    UnbindStructure(s, k, now);
    UnbindLiveYoung(s, k, now);
    UnbindYoung(s, k, now);
  }

  /** In a new epoch no lease is current. */
  lemma NewEpoch(heap: seq<Gate>, leases: seq<Lease>, epoch: nat, unboundAt: map<Key, nat>, clearedAt: nat)
    requires LeasesOk(heap, leases, epoch)
    ensures LeasesOk(heap, leases, epoch + 1) && LiveYoung(heap, leases, epoch + 1, unboundAt, clearedAt)
  {}

  lemma ClearedIsWf(c: Cache, clock: int)
    requires Wf(c, clock)
    ensures Wf(Clear(c), clock) && Clear(c).entries == map[]
  {
    assert Clear(c).lru == [];
  }

  lemma ClearKeepsInv(s: State)
    requires Inv(s)
    ensures Inv(s.(cache := Clear(s.cache), epoch := s.epoch + 1, clearedAt := s.tick))
  {
    NewEpoch(s.heap, s.leases, s.epoch, s.unboundAt, s.tick);
    ClearedIsWf(s.cache, s.clock);
    hide GatesOk, CountsOk, LeasesOk, OwnersOk, LiveYoung, Wf, Clear, Younger;
  }

  lemma ReadKeepsInv(s: State, l: nat, now: int)
    requires Inv(s) && Known(s, l) && s.clock <= now
    ensures Inv(s.(clock := now, cache := ReadOf(s, l, now).0))
  {
    ReadPinIsWf(s.cache, s.clock, now, s.leases[l].key);
    LaterClock(s.cache, s.clock, now);
    ShrinkKeepsInv(s, ReadOf(s, l, now).0, now);
  }

  lemma ReconfigureKeepsInv(s: State, now: int, max: int, ttl: int)
    requires Inv(s) && s.clock <= now
    ensures Inv(s.(clock := now, cache := Configure(s.cache, now, max, ttl)))
  {
    ConfigureIsWf(s.cache, s.clock, now, max, ttl);
    ConfigureIsLinked(s.cache, now, max, ttl);
    ShrinkKeepsInv(s, Configure(s.cache, now, max, ttl), now);
  }

  lemma SessionStepKeepsInv(s: State, a: Action)
    requires Inv(s) && Enabled(s, a) && (a.Read? || a.Bind? || a.Unbind?)
    ensures Inv(Step(s, a))
  {
    hide Inv, UnbindKey, BindBy, Live, Linked;
    match a
    case Read(l, now) => ReadKeepsInv(s, l, now);
    case Bind(l, now, pin) => BindKeepsInv(s, l, now, pin);
    case Unbind(k, now) => UnbindKeepsInv(s, k, now);
  }

  lemma StoreStepKeepsInv(s: State, a: Action)
    requires Inv(s) && Enabled(s, a) && (a.ClearAll? || a.Reconfigure? || a.Listing?)
    ensures Inv(Step(s, a))
  {
    InvCache(s);
    hide Inv, Wf, Linked;
    match a
    case ClearAll => ClearKeepsInv(s);
    case Reconfigure(now, max, ttl) => ReconfigureKeepsInv(s, now, max, ttl);
    case Listing(now) =>
      PruneIsWf(s.cache, s.clock, now);
      PruneIsLinked(s.cache, now);
      ShrinkKeepsInv(s, Prune(s.cache, now), now);
  }

  lemma StepKeepsInv(s: State, a: Action)
    requires Inv(s) && Enabled(s, a) && Recorded(s)
    ensures Inv(Step(s, a))
  {
    if a.Enter? {
      hide Inv, Join;
      JoinKeepsInv(s, a.t, a.k);
    } else {
      hide Step, Inv, Enabled, Recorded;
      if Moves(a) {
        MoveKeepsInv(s, a);
      } else if a.Grant? {
        GrantKeepsInv(s, a.t);
      } else if a.BeginRelease? {
        BeginReleaseKeepsInv(s, a.t);
      } else if a.Read? || a.Bind? || a.Unbind? {
        SessionStepKeepsInv(s, a);
      } else {
        StoreStepKeepsInv(s, a);
      }
    }
  }

  lemma InvCache(s: State)
    requires Inv(s)
    ensures Wf(s.cache, s.clock) && Linked(s.cache)
  {}

  lemma TickKeepsInv(s: State) returns (r: State)
    requires Inv(s)
    ensures r == s.(tick := s.tick + 1) && Inv(r) && Recorded(r)
  {
    r := s.(tick := s.tick + 1);
  }

  lemma ApplyUnfolds(s: State, a: Action)
    ensures var r := s.(tick := s.tick + 1); Apply(s, a) == if Enabled(r, a) then Step(r, a) else r
  {
    hide Step, Enabled;
  }

  lemma ApplyKeepsInv(s: State, a: Action)
    requires Inv(s)
    ensures Inv(Apply(s, a))
  {
    hide *;
    var r := TickKeepsInv(s);
    ApplyUnfolds(s, a);
    if Enabled(r, a) {
      StepKeepsInv(r, a);
    }
  }

  lemma InitStructure(max: int, ttl: int, clock: int)
    ensures Structure(Init(max, ttl, clock))
  {}

  lemma InitHistory(max: int, ttl: int, clock: int)
    requires Structure(Init(max, ttl, clock))
    ensures History(Init(max, ttl, clock))
  {
    var s := Init(max, ttl, clock);
    hide Structure;
    assert s.cache.lru == [] && s.cache.entries == map[];
  }

  lemma InitInv(max: int, ttl: int, clock: int)
    ensures Inv(Init(max, ttl, clock))
  {
    hide Referers, Holders, GatesOk, CountsOk, LeasesOk, OwnersOk;
    InitStructure(max, ttl, clock);
    InitHistory(max, ttl, clock);
  }

  lemma {:induction false} ExecKeepsInv(max: int, ttl: int, clock: int, run: seq<Action>)
    ensures Inv(Exec(Init(max, ttl, clock), run))
    decreases |run|
  {
    InitInv(max, ttl, clock);
    if run != [] {
      ExecKeepsInv(max, ttl, clock, run[..|run| - 1]);
      ApplyKeepsInv(Exec(Init(max, ttl, clock), run[..|run| - 1]), run[|run| - 1]);
    }
  }

  // ---------------------------------------------------------------- theorems

  lemma AtMostOne(h: set<nat>, x: nat, y: nat)
    requires |h| <= 1 && x in h && y in h
    ensures x == y
  {
    assert |h - {x}| == 0;
    assert y !in h - {x};
  }

  /** In every run, a key has at most one unreleased lease, and that lease's gate
      is the one in `gates`. */
  lemma OneLeasePerKey(max: int, ttl: int, clock: int, run: seq<Action>, l: nat, m: nat)
    requires var s := Exec(Init(max, ttl, clock), run);
      && l < |s.leases| && m < |s.leases| && s.leases[l].key == s.leases[m].key
      && !s.leases[l].released && !s.leases[m].released
    ensures l == m
    ensures var s := Exec(Init(max, ttl, clock), run);
      s.leases[l].key in s.gates && s.gates[s.leases[l].key] == s.leases[l].gate
  {
    ExecKeepsInv(max, ttl, clock, run);
    var s := Exec(Init(max, ttl, clock), run);
    OneGatePerKey(s, l);
    OneGatePerKey(s, m);
    var g := s.leases[l].gate;
    var h := Holders(s.threads, g);
    Present(s.heap, s.threads, s.leases[l].owner);
    assert s.leases[l].owner in h && s.leases[m].owner in h;
    AtMostOne(h, s.leases[l].owner, s.leases[m].owner);
  }

  /** In every run, while a lease is unreleased no other lease of its key reads or
      commits anything: this session's pin is changed by this lease, or ends with an
      unbind, a clear, an expiry or an eviction. */
  lemma NobodyElseCommits(max: int, ttl: int, clock: int, run: seq<Action>, l: nat, m: nat, now: int, pin: Pin)
    requires var s := Exec(Init(max, ttl, clock), run);
      && l < |s.leases| && m < |s.leases| && l != m && s.leases[m].key == s.leases[l].key && !s.leases[l].released
    ensures var s := Exec(Init(max, ttl, clock), run);
      Known(s, m) && Linked(s.cache) && ReadOf(s, m, now) == (s.cache, None) && BindBy(s, m, now, pin).cache == s.cache
  {
    ExecKeepsInv(max, ttl, clock, run);
    var s := Exec(Init(max, ttl, clock), run);
    KnownInRun(s, m);
    if !s.leases[m].released {
      OneLeasePerKey(max, ttl, clock, run, l, m);
      assert false;
    }
  }

  lemma KnownInRun(s: State, l: nat)
    requires Inv(s) && l < |s.leases|
    ensures Known(s, l) && Linked(s.cache)
  {}

  /** In every run, `gates` holds a key exactly while some thread counts on a gate
      of that key. */
  lemma GatesExactlyWhileCounted(max: int, ttl: int, clock: int, run: seq<Action>, k: Key)
    ensures var s := Exec(Init(max, ttl, clock), run);
      k in s.gates <==> exists t :: t in s.threads && Counted(s.threads[t])
                                 && s.threads[t].gate < |s.heap| && s.heap[s.threads[t].gate].key == k
  {
    ExecKeepsInv(max, ttl, clock, run);
    var s := Exec(Init(max, ttl, clock), run);
    if k in s.gates {
      var r := Referers(s.threads, s.gates[k]);
      assert r != {};
      var t :| t in r;
      assert t in s.threads && Counted(s.threads[t]);
    }
    forall t | t in s.threads && Counted(s.threads[t]) && s.threads[t].gate < |s.heap|
      && s.heap[s.threads[t].gate].key == k
      ensures k in s.gates
    {
      Present(s.heap, s.threads, t);
    }
  }

  /** In every run, a thread that gives its token back finds the channel empty,
      so the send never blocks; and an idle gate still has its token to take. */
  lemma SendNeverBlocks(max: int, ttl: int, clock: int, run: seq<Action>, t: nat)
    requires t in Exec(Init(max, ttl, clock), run).threads
    ensures var s := Exec(Init(max, ttl, clock), run);
      && s.threads[t].gate < |s.heap|
      && (HasToken(s.threads[t]) ==> s.heap[s.threads[t].gate].token < 1)
      && (Holders(s.threads, s.threads[t].gate) == {} ==> s.heap[s.threads[t].gate].token == 1)
  {
    ExecKeepsInv(max, ttl, clock, run);
    Present(Exec(Init(max, ttl, clock), run).heap, Exec(Init(max, ttl, clock), run).threads, t);
  }

  /** In every run, every entry was committed through a lease created after the
      last unbind of its key and after the last clear. */
  lemma EntriesOutliveNoUnbind(max: int, ttl: int, clock: int, run: seq<Action>, k: Key)
    requires k in Exec(Init(max, ttl, clock), run).cache.entries
    ensures var s := Exec(Init(max, ttl, clock), run);
      && k in s.committedBy && s.committedBy[k] < |s.leases| && s.leases[s.committedBy[k]].key == k
      && UnboundAt(s.unboundAt, k) < s.leases[s.committedBy[k]].born && s.clearedAt < s.leases[s.committedBy[k]].born
  {
    ExecKeepsInv(max, ttl, clock, run);
  }

  /** In every run, a lease that is older than an unbind of its key or than a
      clear reads nothing and commits nothing, whatever gates were dropped and
      created in between. */
  lemma StaleLeaseIsDead(max: int, ttl: int, clock: int, run: seq<Action>, l: nat, now: int, pin: Pin)
    requires var s := Exec(Init(max, ttl, clock), run);
      l < |s.leases| && (s.leases[l].born <= UnboundAt(s.unboundAt, s.leases[l].key) || s.leases[l].born <= s.clearedAt)
    ensures var s := Exec(Init(max, ttl, clock), run);
      Known(s, l) && Linked(s.cache) && ReadOf(s, l, now) == (s.cache, None) && BindBy(s, l, now, pin).cache == s.cache
  {
    ExecKeepsInv(max, ttl, clock, run);
    var s := Exec(Init(max, ttl, clock), run);
    assert Known(s, l) && !Live(s, l);
  }
}
