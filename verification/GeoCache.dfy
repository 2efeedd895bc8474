/** The region cache of the GeoIP lookup under every interleaving of lookups,
    database updates and `Close`. An update swaps the reader and then advances the
    epoch, both under the reader lock; lookups that miss share one flight a host.
    Expiry is arbitrary: a cached region may be passed over at any time. */
module GeoCache {

  datatype Option<+T> = None | Some(value: T)

  datatype Host = Host(name: string)

  /** Where a region came from: what reader number `n` knows of a host, or no database
      at all (a failed resolution, or a closed lookup). The reader of epoch `n` is
      number `n`. */
  datatype Region = Reader(n: nat, host: Host) | Unknown

  /** One shared miss. `Finished` has its result and still takes in callers. */
  datatype FlightPhase =
    | Started
    | Missed
    | EpochRead(epoch: nat)
    | Looked(epoch: nat, region: Region)
    | Finished(region: Region)
    | Removed(region: Region)

  /** `born` records the epoch when the flight began. */
  datatype Flight = Flight(host: Host, born: nat, phase: FlightPhase)

  /** A lookup remembers the epoch when it found the database open, and `late` what
      could be seen when it was let into a flight: that flight already had a
      region, from a reader older than that epoch. */
  datatype Caller =
    | Asking(host: Host, start: nat)
    | Waiting(host: Host, start: nat, flight: nat, late: bool)
    | Done(host: Host, start: nat, region: Region, via: Option<nat>, late: bool)

  datatype State = State(
    db: Option<nat>, epoch: nat, swapping: bool, cache: map<Host, Region>,
    flights: seq<Flight>, inProgress: map<Host, nat>, callers: map<nat, Caller>)

  datatype Action =
    | SwapReader
    | AdvanceEpoch
    | CloseDatabase
    | Begin(c: nat, host: Host)
    | Hit(c: nat)
    | Join(c: nat)
    | Recheck(f: nat, hit: bool)
    | ReadEpoch(f: nat)
    | FailToResolve(f: nat, evicted: Host)
    | LookUp(f: nat)
    | Store(f: nat, evicted: Host)
    | Remove(f: nat)
    | Collect(c: nat)

  const MAX_CACHE_ENTRIES := 4096

  const INITIAL := State(Some(0), 0, false, map[], [], map[], map[])

  // ----------------------------------------------------------------- steps

  predicate IsAsking(s: State, c: nat) { c in s.callers && s.callers[c].Asking? }

  predicate InPhase(s: State, f: nat) { f < |s.flights| }

  /** `evicted` is the key a full cache gives up. */
  predicate MayEvict(s: State, evicted: Host) { |s.cache| >= MAX_CACHE_ENTRIES ==> evicted in s.cache }

  predicate Enabled(s: State, a: Action) {
    match a
    case SwapReader => !s.swapping && s.db.Some?
    case AdvanceEpoch => s.swapping
    case CloseDatabase => !s.swapping
    case Begin(c, _) => c !in s.callers && !s.swapping && s.db.Some?
    case Hit(c) => IsAsking(s, c) && s.callers[c].host in s.cache
    case Join(c) => IsAsking(s, c)
    case Recheck(f, hit) => InPhase(s, f) && s.flights[f].phase.Started? && (hit ==> s.flights[f].host in s.cache)
    case ReadEpoch(f) => InPhase(s, f) && s.flights[f].phase.Missed?
    case FailToResolve(f, evicted) => InPhase(s, f) && s.flights[f].phase.EpochRead? && MayEvict(s, evicted)
    case LookUp(f) => InPhase(s, f) && s.flights[f].phase.EpochRead? && !s.swapping
    case Store(f, evicted) => InPhase(s, f) && s.flights[f].phase.Looked? && MayEvict(s, evicted)
    case Remove(f) => InPhase(s, f) && s.flights[f].phase.Finished?
    case Collect(c) =>
      && c in s.callers && s.callers[c].Waiting? && s.callers[c].flight < |s.flights|
      && s.flights[s.callers[c].flight].phase.Removed?
  }

  function InPhaseNow(s: State, f: nat, p: FlightPhase): State
    requires f < |s.flights|
  {
    s.(flights := s.flights[f := s.flights[f].(phase := p)])
  }

  /** The flight has its region, and it is older than `start`. */
  predicate HasOlder(p: FlightPhase, start: nat) {
    (p.Looked? || p.Finished? || p.Removed?) && p.region.Reader? && p.region.n < start
  }

  /** `cacheHostAtEpoch`: nothing is stored once the epoch has moved on. */
  function Cached(s: State, host: Host, region: Region, epoch: nat, evicted: Host): map<Host, Region> {
    if s.epoch != epoch then s.cache
    else if |s.cache| >= MAX_CACHE_ENTRIES then (s.cache - {evicted})[host := region]
    else s.cache[host := region]
  }

  function Apply(s: State, a: Action): State {
    if !Enabled(s, a) then s
    else
      match a
      case SwapReader => s.(db := Some(s.epoch + 1), swapping := true)
      case AdvanceEpoch => s.(epoch := s.epoch + 1, cache := map[], swapping := false)
      case CloseDatabase => s.(db := None)
      case Begin(c, host) => s.(callers := s.callers[c := Asking(host, s.epoch)])
      case Hit(c) =>
        s.(callers := s.callers[c :=
          Done(s.callers[c].host, s.callers[c].start, s.cache[s.callers[c].host], None, false)])
      case Join(c) =>
        var host, start := s.callers[c].host, s.callers[c].start;
        if host in s.inProgress then
          var f := s.inProgress[host];
          s.(callers := s.callers[c := Waiting(host, start, f, f < |s.flights| && HasOlder(s.flights[f].phase, start))])
        else
          s.(flights := s.flights + [Flight(host, s.epoch, Started)],
             inProgress := s.inProgress[host := |s.flights|],
             callers := s.callers[c := Waiting(host, start, |s.flights|, false)])
      case Recheck(f, hit) => InPhaseNow(s, f, if hit then Finished(s.cache[s.flights[f].host]) else Missed)
      case ReadEpoch(f) => InPhaseNow(s, f, EpochRead(s.epoch))
      case FailToResolve(f, evicted) =>
        var fl := s.flights[f];
        InPhaseNow(s, f, Finished(Unknown)).(cache := Cached(s, fl.host, Unknown, fl.phase.epoch, evicted))
      case LookUp(f) =>
        InPhaseNow(s, f, Looked(s.flights[f].phase.epoch, if s.db.Some?
          then Reader(s.db.value, s.flights[f].host) else Unknown))
      case Store(f, evicted) =>
        var fl := s.flights[f];
        var cache := Cached(s, fl.host, fl.phase.region, fl.phase.epoch, evicted);
        InPhaseNow(s, f, Finished(fl.phase.region)).(cache := cache)
      case Remove(f) =>
        InPhaseNow(s, f, Removed(s.flights[f].phase.region)).(inProgress := s.inProgress - {s.flights[f].host})
      case Collect(c) =>
        var f := s.callers[c].flight;
        s.(callers := s.callers[c :=
          Done(s.callers[c].host, s.callers[c].start, s.flights[f].phase.region, Some(f), s.callers[c].late)])
  }

  function Exec(run: seq<Action>): State
    decreases |run|
  {
    if run == [] then INITIAL else Apply(Exec(run[..|run| - 1]), run[|run| - 1])
  }

  // ------------------------------------------------------------- invariant

  /** Between two epochs: not from a reader older than `low` or newer than `high`. */
  predicate Within(r: Region, low: nat, high: nat) { r.Reader? ==> low <= r.n <= high }

  ghost predicate CacheOk(cache: map<Host, Region>, epoch: nat) {
    (forall h :: h in cache ==> Within(cache[h], epoch, epoch)) && |cache| <= MAX_CACHE_ENTRIES
  }

  predicate PhaseOk(p: FlightPhase, born: nat, epoch: nat) {
    match p
    case EpochRead(e) => born <= e <= epoch
    case Looked(e, r) => born <= e <= epoch && Within(r, e, epoch)
    case Finished(r) => Within(r, born, epoch)
    case Removed(r) => Within(r, born, epoch)
    case _ => true
  }

  ghost predicate FlightsOk(flights: seq<Flight>, epoch: nat) {
    forall f :: 0 <= f < |flights| ==> flights[f].born <= epoch && PhaseOk(flights[f].phase, flights[f].born, epoch)
  }

  ghost predicate SharedOk(inProgress: map<Host, nat>, flights: seq<Flight>) {
    forall h :: h in inProgress ==> inProgress[h] < |flights| && flights[inProgress[h]].host == h
  }

  predicate CallerOk(c: Caller, flights: seq<Flight>, epoch: nat) {
    c.start <= epoch &&
    match c
    case Asking(_, _) => true
    case Waiting(_, start, f, late) => f < |flights| && (late <==> HasOlder(flights[f].phase, start))
    case Done(_, start, r, f, late) =>
      && (if f.Some? then f.value < |flights| && Within(r, flights[f.value].born, epoch) else Within(r, start, epoch))
      && (late <==> r.Reader? && r.n < start)
  }

  ghost predicate CallersOk(callers: map<nat, Caller>, flights: seq<Flight>, epoch: nat) {
    forall c :: c in callers ==> CallerOk(callers[c], flights, epoch)
  }

  ghost predicate Inv(s: State) {
    && (s.db.Some? ==> s.db.value == if s.swapping then s.epoch + 1 else s.epoch)
    && (s.swapping ==> s.db.Some?)
    && CacheOk(s.cache, s.epoch)
    && FlightsOk(s.flights, s.epoch)
    && SharedOk(s.inProgress, s.flights)
    && CallersOk(s.callers, s.flights, s.epoch)
  }

  lemma CachedIsOk(s: State, host: Host, region: Region, epoch: nat, evicted: Host)
    requires CacheOk(s.cache, s.epoch) && Within(region, epoch, s.epoch) && MayEvict(s, evicted)
    ensures CacheOk(Cached(s, host, region, epoch, evicted), s.epoch)
  {
    if s.epoch == epoch {
      if |s.cache| >= MAX_CACHE_ENTRIES {
        OneLess(s.cache, evicted);
        OneMore(s.cache - {evicted}, host, region);
      } else {
        OneMore(s.cache, host, region);
      }
    }
  }

  lemma OneMore(cache: map<Host, Region>, host: Host, region: Region)
    ensures |cache[host := region]| <= |cache| + 1
  {
    assert cache[host := region].Keys == cache.Keys + {host};
  }

  lemma OneLess(cache: map<Host, Region>, evicted: Host)
    requires evicted in cache
    ensures |cache - {evicted}| == |cache| - 1
  {
    assert (cache - {evicted}).Keys == cache.Keys - {evicted};
  }

  /** A flight's turn leaves the records of everybody else as they were; a region it
      gets now is not older than any caller. */
  lemma FlightMoves(s: State, f: nat, p: FlightPhase)
    requires FlightsOk(s.flights, s.epoch) && SharedOk(s.inProgress, s.flights)
      && CallersOk(s.callers, s.flights, s.epoch)
    requires f < |s.flights| && PhaseOk(p, s.flights[f].born, s.epoch)
    requires forall start: nat :: start <= s.epoch ==> HasOlder(p, start) == HasOlder(s.flights[f].phase, start)
    ensures var t := InPhaseNow(s, f, p);
      FlightsOk(t.flights, t.epoch) && SharedOk(t.inProgress, t.flights) && CallersOk(t.callers, t.flights, t.epoch)
  {}

  /** A step that only moves a flight, and perhaps stores what it found. */
  lemma MovedAndStored(s: State, f: nat, p: FlightPhase, cache: map<Host, Region>)
    requires Inv(s) && f < |s.flights| && PhaseOk(p, s.flights[f].born, s.epoch) && CacheOk(cache, s.epoch)
    requires forall start: nat :: start <= s.epoch ==> HasOlder(p, start) == HasOlder(s.flights[f].phase, start)
    ensures Inv(InPhaseNow(s, f, p).(cache := cache))
  {
    FlightMoves(s, f, p);
    hide CacheOk, FlightsOk, SharedOk, CallersOk, PhaseOk, HasOlder;
  }

  lemma QuietFlightStepKeepsInv(s: State, a: Action)
    requires Inv(s) && Enabled(s, a) && (a.Recheck? || a.ReadEpoch? || a.LookUp?)
    ensures Inv(Apply(s, a))
  {
    var p := Apply(s, a).flights[a.f].phase;
    assert Apply(s, a) == InPhaseNow(s, a.f, p).(cache := s.cache);
    assert PhaseOk(p, s.flights[a.f].born, s.epoch);
    hide Apply, InPhaseNow;
    MovedAndStored(s, a.f, p, s.cache);
  }

  lemma StoringStepKeepsInv(s: State, a: Action)
    requires Inv(s) && Enabled(s, a) && (a.FailToResolve? || a.Store?)
    ensures Inv(Apply(s, a))
  {
    var fl := s.flights[a.f];
    var region := if a.Store? then fl.phase.region else Unknown;
    assert PhaseOk(fl.phase, fl.born, s.epoch);
    CachedIsOk(s, fl.host, region, fl.phase.epoch, a.evicted);
    hide CacheOk, FlightsOk, SharedOk, CallersOk, Cached;
    MovedAndStored(s, a.f, Finished(region), Cached(s, fl.host, region, fl.phase.epoch, a.evicted));
  }

  lemma LeftShared(inProgress: map<Host, nat>, flights: seq<Flight>, host: Host)
    requires SharedOk(inProgress, flights)
    ensures SharedOk(inProgress - {host}, flights)
  {}

  lemma RemoveKeepsInv(s: State, f: nat)
    requires Inv(s) && Enabled(s, Remove(f))
    ensures Inv(Apply(s, Remove(f)))
  {
    var fl := s.flights[f];
    var p := Removed(fl.phase.region);
    assert PhaseOk(p, fl.born, s.epoch);
    MovedAndStored(s, f, p, s.cache);
    var t := InPhaseNow(s, f, p).(cache := s.cache);
    hide CacheOk, FlightsOk, CallersOk, SharedOk, PhaseOk, HasOlder;
    LeftShared(t.inProgress, t.flights, fl.host);
  }

  lemma NewFlight(s: State, host: Host)
    requires FlightsOk(s.flights, s.epoch) && SharedOk(s.inProgress, s.flights)
      && CallersOk(s.callers, s.flights, s.epoch)
    ensures var flights := s.flights + [Flight(host, s.epoch, Started)];
      && FlightsOk(flights, s.epoch) && SharedOk(s.inProgress[host := |s.flights|], flights)
      && CallersOk(s.callers, flights, s.epoch)
  {}

  lemma CallerMoves(callers: map<nat, Caller>, flights: seq<Flight>, epoch: nat, c: nat, k: Caller)
    requires CallersOk(callers, flights, epoch) && CallerOk(k, flights, epoch)
    ensures CallersOk(callers[c := k], flights, epoch)
  {}

  lemma JoinKeepsInv(s: State, c: nat)
    requires Inv(s) && Enabled(s, Join(c))
    ensures Inv(Apply(s, Join(c)))
  {
    var host := s.callers[c].host;
    assert CallerOk(s.callers[c], s.flights, s.epoch);
    NewFlight(s, host);
    var t := Apply(s, Join(c));
    assert CallerOk(t.callers[c], t.flights, t.epoch);
    hide CacheOk, FlightsOk, SharedOk, CallersOk, CallerOk;
    CallerMoves(s.callers, t.flights, t.epoch, c, t.callers[c]);
  }

  lemma StepKeepsInv(s: State, a: Action)
    requires Inv(s)
    ensures Inv(Apply(s, a))
  {
    if Enabled(s, a) {
      if a.Recheck? || a.ReadEpoch? || a.LookUp? {
        QuietFlightStepKeepsInv(s, a);
      } else if a.FailToResolve? || a.Store? {
        StoringStepKeepsInv(s, a);
      } else if a.Remove? {
        RemoveKeepsInv(s, a.f);
      } else if a.Join? {
        JoinKeepsInv(s, a.c);
      }
    }
  }

  lemma {:induction false} ExecKeepsInv(run: seq<Action>)
    ensures Inv(Exec(run))
    decreases |run|
  {
    if run != [] {
      ExecKeepsInv(run[..|run| - 1]);
      StepKeepsInv(Exec(run[..|run| - 1]), run[|run| - 1]);
    }
  }

  // -------------------------------------------------------------- theorems

  /** Every cached region that came from a database came from the reader of the
      current epoch, which is the open one unless an update is in the middle of
      swapping; and the cache is bounded. */
  lemma CacheIsCurrent(run: seq<Action>, h: Host)
    requires h in Exec(run).cache && Exec(run).cache[h].Reader?
    ensures var s := Exec(run);
      && s.cache[h].n == s.epoch
      && (s.db.Some? && !s.swapping ==> s.cache[h].n == s.db.value)
      && |s.cache| <= MAX_CACHE_ENTRIES
  {
    ExecKeepsInv(run);
  }

  lemma CacheIsBounded(run: seq<Action>)
    ensures |Exec(run).cache| <= 4096
  {
    ExecKeepsInv(run);
  }

  /** A lookup gets a region from a reader older than the epoch it began in exactly
      when it was let into a flight that had that region already; so a lookup that
      begins after an update, and finds no such flight, gets the new region. */
  lemma StaleExactlyWhenLate(run: seq<Action>, c: nat)
    requires c in Exec(run).callers && Exec(run).callers[c].Done?
    ensures var d := Exec(run).callers[c];
      (d.region.Reader? && d.region.n < d.start <==> d.late) && (d.late ==> d.via.Some?)
  {
    ExecKeepsInv(run);
  }

  /** And that flight began before the lookup's epoch did. */
  lemma OldRegionsComeFromOldFlights(run: seq<Action>, c: nat)
    requires c in Exec(run).callers && Exec(run).callers[c].Done?
    ensures var s, d := Exec(run), Exec(run).callers[c];
      d.region.Reader? && d.region.n < d.start ==>
        d.via.Some? && d.via.value < |s.flights| && s.flights[d.via.value].born <= d.region.n < d.start
  {
    ExecKeepsInv(run);
  }

  /** A flight that read the old database while nothing else happened. */
  function OldFlight(h: Host, phase: FlightPhase): State {
    State(Some(0), 0, false, map[], [Flight(h, 0, phase)], map[h := 0], map[1 := Waiting(h, 0, 0, false)])
  }

  /** The same after an update, with a second lookup of the host under way. */
  function Updated(h: Host, phase: FlightPhase, second: Caller): State {
    State(Some(1), 1, false, map[], [Flight(h, 0, phase)], if phase.Removed? then map[] else map[h := 0],
          map[1 := Waiting(h, 0, 0, false), 2 := second])
  }

  lemma Extend(run: seq<Action>, a: Action, s: State, t: State) returns (longer: seq<Action>)
    requires Exec(run) == s && Apply(s, a) == t
    ensures Exec(longer) == t
  {
    longer := run + [a];
    assert longer[..|run|] == run;
  }

  function Asked(h: Host): State { State(Some(0), 0, false, map[], [], map[], map[1 := Asking(h, 0)]) }

  lemma FlightSteps(h: Host)
    ensures Apply(INITIAL, Begin(1, h)) == Asked(h)
    ensures Apply(Asked(h), Join(1)) == OldFlight(h, Started)
  {}

  lemma FlightLooks(h: Host)
    ensures Apply(OldFlight(h, Started), Recheck(0, false)) == OldFlight(h, Missed)
    ensures Apply(OldFlight(h, Missed), ReadEpoch(0)) == OldFlight(h, EpochRead(0))
    ensures Apply(OldFlight(h, EpochRead(0)), LookUp(0)) == OldFlight(h, Looked(0, Reader(0, h)))
  {}

  lemma UpdateSteps(h: Host)
    ensures var f := OldFlight(h, Looked(0, Reader(0, h)));
      && Apply(f, SwapReader) == f.(db := Some(1), swapping := true)
      && Apply(f.(db := Some(1), swapping := true), AdvanceEpoch) == f.(db := Some(1), epoch := 1)
  {}

  lemma SecondSteps(h: Host)
    ensures var f, p := OldFlight(h, Looked(0, Reader(0, h))).(db := Some(1), epoch := 1), Looked(0, Reader(0, h));
      && Apply(f, Begin(2, h)) == Updated(h, p, Asking(h, 1))
      && Apply(Updated(h, p, Asking(h, 1)), Join(2)) == Updated(h, p, Waiting(h, 1, 0, true))
  {}

  lemma StaleStore(h: Host, w: Caller)
    ensures Apply(Updated(h, Looked(0, Reader(0, h)), w), Store(0, h)) == Updated(h, Finished(Reader(0, h)), w)
  {
    var s := Updated(h, Looked(0, Reader(0, h)), w);
    assert Cached(s, h, Reader(0, h), 0, h) == map[];
    hide Cached;
  }

  lemma FlightLeaves(h: Host, w: Caller)
    ensures Apply(Updated(h, Finished(Reader(0, h)), w), Remove(0)) == Updated(h, Removed(Reader(0, h)), w)
  {
    var m: map<Host, nat> := map[h := 0];
    assert m - {h} == map[];
  }

  lemma StaleAnswer(h: Host)
    ensures Apply(Updated(h, Removed(Reader(0, h)), Waiting(h, 1, 0, true)), Collect(2))
         == Updated(h, Removed(Reader(0, h)), Done(h, 1, Reader(0, h), Some(0), true))
  {}

  lemma StartsEmpty()
    ensures Exec([]) == INITIAL
  {}

  lemma FlightReadsOldDatabase(h: Host) returns (run: seq<Action>)
    ensures Exec(run) == OldFlight(h, Looked(0, Reader(0, h)))
  {
    StartsEmpty();
    FlightSteps(h);
    FlightLooks(h);
    hide *;
    run := [];
    run := Extend(run, Begin(1, h), INITIAL, Asked(h));
    run := Extend(run, Join(1), Asked(h), OldFlight(h, Started));
    run := Extend(run, Recheck(0, false), OldFlight(h, Started), OldFlight(h, Missed));
    run := Extend(run, ReadEpoch(0), OldFlight(h, Missed), OldFlight(h, EpochRead(0)));
    run := Extend(run, LookUp(0), OldFlight(h, EpochRead(0)), OldFlight(h, Looked(0, Reader(0, h))));
  }

  lemma SecondLookupJoins(h: Host, run0: seq<Action>) returns (run: seq<Action>)
    requires Exec(run0) == OldFlight(h, Looked(0, Reader(0, h)))
    ensures Exec(run) == Updated(h, Looked(0, Reader(0, h)), Waiting(h, 1, 0, true))
  {
    var p := Looked(0, Reader(0, h));
    var f := OldFlight(h, p);
    UpdateSteps(h);
    SecondSteps(h);
    hide *;
    run := Extend(run0, SwapReader, f, f.(db := Some(1), swapping := true));
    run := Extend(run, AdvanceEpoch, f.(db := Some(1), swapping := true), f.(db := Some(1), epoch := 1));
    run := Extend(run, Begin(2, h), f.(db := Some(1), epoch := 1), Updated(h, p, Asking(h, 1)));
    run := Extend(run, Join(2), Updated(h, p, Asking(h, 1)), Updated(h, p, Waiting(h, 1, 0, true)));
  }

  lemma FlightEnds(h: Host, run0: seq<Action>) returns (run: seq<Action>)
    requires Exec(run0) == Updated(h, Looked(0, Reader(0, h)), Waiting(h, 1, 0, true))
    ensures Exec(run) == Updated(h, Removed(Reader(0, h)), Done(h, 1, Reader(0, h), Some(0), true))
  {
    var region, w := Reader(0, h), Waiting(h, 1, 0, true);
    StaleStore(h, w);
    FlightLeaves(h, w);
    StaleAnswer(h);
    hide *;
    run := Extend(run0, Store(0, h), Updated(h, Looked(0, region), w), Updated(h, Finished(region), w));
    run := Extend(run, Remove(0), Updated(h, Finished(region), w), Updated(h, Removed(region), w));
    run := Extend(run, Collect(2), Updated(h, Removed(region), w),
                  Updated(h, Removed(region), Done(h, 1, region, Some(0), true)));
  }

  /** The exception happens: a first lookup misses, its flight reads the old
      database, an update completes, and a second lookup joins that flight. */
  lemma JoinedFlightIsStale(h: Host)
    ensures exists run :: 2 in Exec(run).callers && Exec(run).callers[2] == Done(h, 1, Reader(0, h), Some(0), true)
  {
    hide Exec;
    var run := FlightReadsOldDatabase(h);
    run := SecondLookupJoins(h, run);
    run := FlightEnds(h, run);
    assert 2 in Exec(run).callers;
  }

  // ------------------------------------------------------------ as an object

  /** The lookup's reader, epoch and cache; flights and callers are ghost. */
  class Lookup {
    var db: Option<nat>
    var cacheEpoch: nat
    var dnsCache: map<Host, Region>
    ghost var swapping: bool
    ghost var flights: seq<Flight>
    ghost var inProgress: map<Host, nat>
    ghost var callers: map<nat, Caller>

    ghost function View(): State
      reads this
    {
      State(db, cacheEpoch, swapping, dnsCache, flights, inProgress, callers)
    }

    constructor ()
      ensures View() == INITIAL
    {
      db, cacheEpoch, dnsCache := Some(0), 0, map[];
      swapping, flights, inProgress, callers := false, [], map[], map[];
    }

    /** Publishes a new reader, then advances the epoch with an empty cache. */
    method Publish()
      requires Inv(View()) && Enabled(View(), SwapReader)
      modifies this
      ensures View() == Apply(Apply(old(View()), SwapReader), AdvanceEpoch) && Inv(View())
    {
      StepKeepsInv(View(), SwapReader);
      StepKeepsInv(Apply(View(), SwapReader), AdvanceEpoch);
      db := Some(cacheEpoch + 1);
      swapping := true;
      cacheEpoch := cacheEpoch + 1;
      dnsCache := map[];
      swapping := false;
    }

    /** Stores a region unless the epoch moved on; a full cache gives up any key. */
    method CacheHostAtEpoch(host: Host, region: Region, epoch: nat) returns (ghost evicted: Host)
      requires Inv(View()) && Within(region, epoch, cacheEpoch)
      modifies this`dnsCache
      ensures cacheEpoch == epoch ==> MayEvict(old(View()), evicted)
      ensures dnsCache == Cached(old(View()), host, region, epoch, evicted) && CacheOk(dnsCache, cacheEpoch)
      ensures cacheEpoch != epoch ==> dnsCache == old(dnsCache)
      ensures cacheEpoch == epoch ==>
        && host in dnsCache && dnsCache[host] == region && |dnsCache| <= 4096
        && (forall h :: h in dnsCache && h != host ==> h in old(dnsCache) && dnsCache[h] == old(dnsCache)[h])
        && (forall h :: h in old(dnsCache) && h !in dnsCache ==> h == evicted && |old(dnsCache)| >= 4096)
    {
      evicted := host;
      ghost var was := View();
      if cacheEpoch != epoch {
        return;
      }
      if |dnsCache| >= MAX_CACHE_ENTRIES {
        assert |dnsCache.Keys| > 0;
        var key :| key in dnsCache;
        evicted := key;
        dnsCache := dnsCache - {key};
      }
      CachedIsOk(was, host, region, epoch, evicted);
      dnsCache := dnsCache[host := region];
    }

    method CloseReader()
      requires Inv(View()) && !swapping
      modifies this`db
      ensures View() == Apply(old(View()), CloseDatabase) && Inv(View())
    {
      StepKeepsInv(View(), CloseDatabase);
      db := None;
    }
  }
}
