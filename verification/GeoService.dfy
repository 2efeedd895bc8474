/** What the region cache gives, next to what it forbids: an answer is about the host that
    was asked for, a miss makes one flight, and what a flight found is there for the next
    lookup. */
module GeoService {
  import opened GeoCache

  predicate About(r: Region, h: Host) { r.Reader? ==> r.host == h }

  predicate FlightAbout(f: Flight) {
    f.phase.Looked? || f.phase.Finished? || f.phase.Removed? ==> About(f.phase.region, f.host)
  }

  predicate CallerAbout(c: Caller, flights: seq<Flight>) {
    match c
    case Asking(_, _) => true
    case Waiting(h, _, f, _) => f < |flights| && flights[f].host == h
    case Done(h, _, r, _, _) => About(r, h)
  }

  ghost predicate HostsOk(s: State) {
    CacheAbout(s.cache) && FlightsAbout(s.flights) && CallersAbout(s.callers, s.flights)
  }

  /** A flight that is not removed is the one its host's lookups join. */
  ghost predicate JoinedBy(inProgress: map<Host, nat>, flights: seq<Flight>) {
    && SharedOk(inProgress, flights)
    && (forall f :: 0 <= f < |flights| && !flights[f].phase.Removed? ==>
          flights[f].host in inProgress && inProgress[flights[f].host] == f)
  }

  ghost predicate Joined(s: State) { JoinedBy(s.inProgress, s.flights) }

  ghost predicate CacheAbout(cache: map<Host, Region>) { forall h :: h in cache ==> About(cache[h], h) }

  ghost predicate FlightsAbout(flights: seq<Flight>) { forall f :: 0 <= f < |flights| ==> FlightAbout(flights[f]) }

  ghost predicate CallersAbout(callers: map<nat, Caller>, flights: seq<Flight>) {
    forall c :: c in callers ==> CallerAbout(callers[c], flights)
  }

  predicate Flies(a: Action) {
    a.Recheck? || a.ReadEpoch? || a.FailToResolve? || a.LookUp? || a.Store? || a.Remove?
  }

  /** A flight's turn: its host stays, and a region it gets is about that. */
  lemma FlightTurn(s: State, a: Action)
    requires CacheAbout(s.cache) && FlightsAbout(s.flights) && Flies(a) && Enabled(s, a)
    ensures var t := Apply(s, a);
      && |t.flights| == |s.flights| && t.callers == s.callers && a.f < |s.flights|
      && t.flights == s.flights[a.f := t.flights[a.f]] && t.flights[a.f].host == s.flights[a.f].host
      && FlightAbout(t.flights[a.f])
      && (t.flights[a.f].phase.Removed? <==> a.Remove?)
      && t.inProgress == if a.Remove? then s.inProgress - {s.flights[a.f].host} else s.inProgress
  {
    assert FlightAbout(s.flights[a.f]);
    assert s.flights[a.f].host in s.cache ==> About(s.cache[s.flights[a.f].host], s.flights[a.f].host);
    hide Cached, MayEvict, FlightsAbout, CacheAbout;
  }

  lemma CacheTurn(s: State, a: Action)
    requires CacheAbout(s.cache) && FlightsAbout(s.flights) && Enabled(s, a)
    ensures CacheAbout(Apply(s, a).cache)
  {
    hide MayEvict;
  }

  lemma CallersSameHosts(callers: map<nat, Caller>, flights: seq<Flight>, f: nat, g: Flight)
    requires CallersAbout(callers, flights) && f < |flights| && g.host == flights[f].host
    ensures CallersAbout(callers, flights[f := g])
  {}

  lemma OneCallerMoves(callers: map<nat, Caller>, flights: seq<Flight>, c: nat, k: Caller, more: seq<Flight>)
    requires CallersAbout(callers, flights) && CallerAbout(k, flights + more)
    ensures CallersAbout(callers[c := k], flights + more)
  {}

  lemma NewFlightIsAbout(flights: seq<Flight>, host: Host, epoch: nat)
    requires FlightsAbout(flights)
    ensures FlightsAbout(flights + [Flight(host, epoch, Started)])
  {}

  lemma CallerTurn(s: State, a: Action)
    requires HostsOk(s) && Joined(s) && Enabled(s, a) && (a.Begin? || a.Hit? || a.Join? || a.Collect?)
    ensures HostsOk(Apply(s, a))
  {
    var t := Apply(s, a);
    NewFlightIsAbout(s.flights, if a.Join? then s.callers[a.c].host else Host(""), s.epoch);
    assert a.c in t.callers && t.callers == s.callers[a.c := t.callers[a.c]];
    assert CallerAbout(t.callers[a.c], t.flights);
    var more := t.flights[|s.flights|..];
    assert t.flights == s.flights + more;
    OneCallerMoves(s.callers, s.flights, a.c, t.callers[a.c], more);
    hide CallersAbout, CacheAbout, CallerAbout, FlightAbout;
  }

  lemma StepKeepsHosts(s: State, a: Action)
    requires HostsOk(s) && Joined(s)
    ensures HostsOk(Apply(s, a))
  {
    if Enabled(s, a) {
      CacheTurn(s, a);
      if Flies(a) {
        FlightTurn(s, a);
        var t := Apply(s, a);
        hide Apply, Enabled, FlightAbout, CacheAbout, CallerAbout;
        CallersSameHosts(s.callers, s.flights, a.f, t.flights[a.f]);
      } else if a.Begin? || a.Hit? || a.Join? || a.Collect? {
        CallerTurn(s, a);
        hide HostsOk;
      }
    }
  }

  lemma JoinedTurn(s: State, f: nat, g: Flight, leaves: bool)
    requires Joined(s) && f < |s.flights| && g.host == s.flights[f].host && (g.phase.Removed? <==> leaves)
    requires !s.flights[f].phase.Removed?
    ensures var inProgress := if leaves then s.inProgress - {g.host} else s.inProgress;
      JoinedBy(inProgress, s.flights[f := g])
  {}

  lemma JoinedByNew(inProgress: map<Host, nat>, flights: seq<Flight>, host: Host, epoch: nat)
    requires JoinedBy(inProgress, flights) && host !in inProgress
    ensures JoinedBy(inProgress[host := |flights|], flights + [Flight(host, epoch, Started)])
  {}

  lemma StepKeepsJoined(s: State, a: Action)
    requires HostsOk(s) && Joined(s)
    ensures Joined(Apply(s, a))
  {
    if Enabled(s, a) {
      if Flies(a) {
        FlightTurn(s, a);
        NotRemoved(s, a);
        var t := Apply(s, a);
        hide Apply, Enabled, JoinedBy, HostsOk;
        JoinedTurn(s, a.f, t.flights[a.f], a.Remove?);
      } else if a.Join? && s.callers[a.c].host !in s.inProgress {
        hide JoinedBy, HostsOk;
        JoinedByNew(s.inProgress, s.flights, s.callers[a.c].host, s.epoch);
      } else {
        hide JoinedBy, HostsOk;
      }
    }
  }

  lemma NotRemoved(s: State, a: Action)
    requires Flies(a) && Enabled(s, a)
    ensures a.f < |s.flights| && !s.flights[a.f].phase.Removed?
  {}

  lemma {:induction false} ExecKeepsHosts(run: seq<Action>)
    ensures HostsOk(Exec(run)) && Joined(Exec(run))
    decreases |run|
  {
    if run != [] {
      ExecKeepsHosts(run[..|run| - 1]);
      hide Apply, HostsOk, Joined;
      StepKeepsHosts(Exec(run[..|run| - 1]), run[|run| - 1]);
      StepKeepsJoined(Exec(run[..|run| - 1]), run[|run| - 1]);
    }
  }

  /** In every run, a lookup's answer that came from a database is about the host that was
      asked for, and so is every cached region. */
  lemma AnswersAreAboutTheHost(run: seq<Action>, c: nat, h: Host)
    ensures var s := Exec(run);
      && (c in s.callers && s.callers[c].Done? && s.callers[c].region.Reader? ==>
            s.callers[c].region.host == s.callers[c].host)
      && (h in s.cache && s.cache[h].Reader? ==> s.cache[h].host == h)
  {
    ExecKeepsHosts(run);
    hide Exec, Joined;
  }

  /** In every run, the lookups of one host that miss at the same time share one flight. */
  lemma OneFlightPerHost(run: seq<Action>, f: nat, g: nat)
    requires f < |Exec(run).flights| && g < |Exec(run).flights|
      && Exec(run).flights[f].host == Exec(run).flights[g].host
    requires !Exec(run).flights[f].phase.Removed? && !Exec(run).flights[g].phase.Removed?
    ensures f == g
  {
    ExecKeepsHosts(run);
    hide Exec, HostsOk;
  }

  /** Some key that a full cache may give up. */
  lemma SomeKey(cache: map<Host, Region>) returns (h: Host)
    ensures cache.Keys != {} ==> h in cache
  {
    if cache.Keys == {} {
      h := Host("");
    } else {
      h :| h in cache;
    }
  }

  /** In every run a flight can take its next step, except that it waits out the middle of
      an update to look a host up; a host that does not resolve is unknown. */
  lemma FlightIsNeverStuck(run: seq<Action>, f: nat) returns (evicted: Host)
    requires f < |Exec(run).flights|
    ensures var s := Exec(run);
      match s.flights[f].phase
      case Started =>
        && Enabled(s, Recheck(f, false))
        && (s.flights[f].host in s.cache ==>
              && Enabled(s, Recheck(f, true))
              && Apply(s, Recheck(f, true)) == InPhaseNow(s, f, Finished(s.cache[s.flights[f].host])))
      case Missed => Enabled(s, ReadEpoch(f))
      case EpochRead(e) =>
        && (if s.swapping then Enabled(s, AdvanceEpoch) else Enabled(s, LookUp(f)))
        && Enabled(s, FailToResolve(f, evicted))
        && (var t := Apply(s, FailToResolve(f, evicted)); var h := s.flights[f].host;
            && t.flights == s.flights[f := s.flights[f].(phase := Finished(Unknown))]
            && (if e == s.epoch then h in t.cache && t.cache[h] == Unknown else t.cache == s.cache))
      case Looked(_, _) => Enabled(s, Store(f, evicted))
      case Finished(_) => Enabled(s, Remove(f))
      case Removed(_) => true
  {
    var s := Exec(run);
    evicted := SomeKey(s.cache);
    if |s.cache| >= 4096 {
      assert s.cache.Keys != {};
    }
    assert MayEvict(s, evicted);
    hide Exec;
  }

  /** So can a caller: one that asks can join, and one that waits gets the region of its
      flight when that is removed. */
  lemma CallerIsNeverStuck(run: seq<Action>, c: nat)
    requires c in Exec(run).callers && !Exec(run).callers[c].Done?
    ensures var s := Exec(run);
      match s.callers[c]
      case Asking(h, start) => Enabled(s, Join(c)) && (h in s.cache ==> Enabled(s, Hit(c)))
      case Waiting(h, start, f, late) =>
        && f < |s.flights|
        && (s.flights[f].phase.Removed? ==>
              && Enabled(s, Collect(c))
              && Apply(s, Collect(c)).callers
                   == s.callers[c := Done(h, start, s.flights[f].phase.region, Some(f), late)])
      case Done(_, _, _, _, _) => true
  {
    ExecKeepsInv(run);
    var s := Exec(run);
    assert CallerOk(s.callers[c], s.flights, s.epoch);
    hide Exec, Inv;
  }

  /** An open database can be replaced or closed at any time but in the middle of an
      update; a new reader is then the open one and the cache is empty. */
  lemma DatabaseChanges(run: seq<Action>)
    requires var s := Exec(run); s.db.Some? && !s.swapping
    ensures var s := Exec(run); var e := Apply(Apply(s, SwapReader), AdvanceEpoch); var c := Apply(s, CloseDatabase);
      && e.db == Some(s.epoch + 1) && e.epoch == s.epoch + 1 && e.cache == map[] && !e.swapping
      && e.flights == s.flights && e.callers == s.callers
      && c.db.None? && c.epoch == s.epoch && c.cache == s.cache
  {}

  // ------------------------------------------------------------ one lookup

  /** The state of a lookup that is alone with its flight. */
  function Asked(s: State, c: nat, h: Host, caller: Caller, flying: bool, p: FlightPhase): State {
    s.(callers := s.callers[c := caller], flights := s.flights + [Flight(h, s.epoch, p)],
       inProgress := if flying then s.inProgress[h := |s.flights|] else s.inProgress)
  }

  lemma Begins(s: State, c: nat, h: Host)
    requires c !in s.callers && !s.swapping && s.db.Some? && h !in s.inProgress
    ensures var waiting := Waiting(h, s.epoch, |s.flights|, false);
      Apply(Apply(s, Begin(c, h)), Join(c)) == Asked(s, c, h, waiting, true, Started)
  {
    var b := Apply(s, Begin(c, h));
    assert b.callers[c] == Asking(h, s.epoch);
    var waiting := Waiting(h, s.epoch, |s.flights|, false);
    assert b.callers[c := waiting] == s.callers[c := waiting];
  }

  lemma Misses(s: State, c: nat, h: Host, w: Caller)
    requires !s.swapping && s.db.Some?
    ensures var f := |s.flights|; var a := Asked(s, c, h, w, true, Started);
      Apply(Apply(Apply(a, Recheck(f, false)), ReadEpoch(f)), LookUp(f))
        == Asked(s, c, h, w, true, Looked(s.epoch, Reader(s.db.value, h)))
  {
    var f := |s.flights|;
    var a := Asked(s, c, h, w, true, Started);
    assert Apply(a, Recheck(f, false)) == Asked(s, c, h, w, true, Missed);
    assert Apply(Asked(s, c, h, w, true, Missed), ReadEpoch(f)) == Asked(s, c, h, w, true, EpochRead(s.epoch));
  }

  lemma Stores(s: State, c: nat, h: Host, w: Caller, r: Region, evicted: Host)
    requires |s.cache| < 4096
    ensures var f := |s.flights|; var a := Asked(s, c, h, w, true, Looked(s.epoch, r));
      Apply(a, Store(f, evicted)) == Asked(s, c, h, w, true, Finished(r)).(cache := s.cache[h := r])
  {}

  lemma Returns(s: State, c: nat, h: Host, start: nat, r: Region)
    requires h !in s.inProgress
    ensures var f := |s.flights|; var w := Waiting(h, start, f, false);
      Apply(Apply(Asked(s, c, h, w, true, Finished(r)), Remove(f)), Collect(c))
        == Asked(s, c, h, Done(h, start, r, Some(f), false), false, Removed(r))
  {
    Removes(s, c, h, Waiting(h, start, |s.flights|, false), r);
    Collects(s, c, h, start, r);
    hide *;
  }

  lemma Removes(s: State, c: nat, h: Host, w: Caller, r: Region)
    requires h !in s.inProgress
    ensures Apply(Asked(s, c, h, w, true, Finished(r)), Remove(|s.flights|)) == Asked(s, c, h, w, false, Removed(r))
  {
    assert s.inProgress[h := |s.flights|] - {h} == s.inProgress;
  }

  lemma Collects(s: State, c: nat, h: Host, start: nat, r: Region)
    ensures var f := |s.flights|;
      Apply(Asked(s, c, h, Waiting(h, start, f, false), false, Removed(r)), Collect(c))
        == Asked(s, c, h, Done(h, start, r, Some(f), false), false, Removed(r))
  {}

  /** From every state with an open database and no flight of the host, a lookup that
      misses gets the region of the open reader and leaves it in the cache, and the next
      lookup gets it from there. */
  lemma LookupIsCached(run: seq<Action>, c: nat, d: nat, h: Host)
    requires var s := Exec(run); c !in s.callers && d !in s.callers && c != d && !s.swapping && s.db.Some?
    requires h !in Exec(run).inProgress && |Exec(run).cache| < 4096
    ensures var s := Exec(run); var f, r := |s.flights|, Reader(s.epoch, h);
      var looked := Apply(Apply(Apply(Apply(Apply(s, Begin(c, h)), Join(c)), Recheck(f, false)), ReadEpoch(f)),
        LookUp(f));
      var e := Apply(Apply(Apply(looked, Store(f, h)), Remove(f)), Collect(c));
      var again := Apply(Apply(e, Begin(d, h)), Hit(d));
      && e.callers == s.callers[c := Done(h, s.epoch, r, Some(f), false)] && e.cache == s.cache[h := r]
      && e.inProgress == s.inProgress && e.epoch == s.epoch && e.db == s.db
      && again.callers == e.callers[d := Done(h, s.epoch, r, None, false)] && again.flights == e.flights
  {
    ExecKeepsInv(run);
    var s := Exec(run);
    var f, r := |s.flights|, Reader(s.epoch, h);
    assert s.db == Some(s.epoch);
    Begins(s, c, h);
    var w := Waiting(h, s.epoch, f, false);
    Misses(s, c, h, w);
    Stores(s, c, h, w, r, h);
    var t := s.(cache := s.cache[h := r]);
    Returns(t, c, h, s.epoch, r);
    assert Asked(s, c, h, w, true, Finished(r)).(cache := t.cache) == Asked(t, c, h, w, true, Finished(r));
    var e := Asked(t, c, h, Done(h, s.epoch, r, Some(f), false), false, Removed(r));
    hide Exec, Inv, Apply;
    Hits(e, d, h, r);
  }

  lemma Hits(s: State, d: nat, h: Host, r: Region)
    requires d !in s.callers && !s.swapping && s.db.Some? && h in s.cache && s.cache[h] == r
    ensures Apply(Apply(s, Begin(d, h)), Hit(d)) == s.(callers := s.callers[d := Done(h, s.epoch, r, None, false)])
  {
    var b := Apply(s, Begin(d, h));
    assert b.callers[d := Done(h, s.epoch, r, None, false)] == s.callers[d := Done(h, s.epoch, r, None, false)];
  }
}
