/** Whole runs of the binding cache: any sequence of critical sections whose
    clock readings never go back. */
module CacheRuns {
  import opened BindingCache

  datatype Op =
    | Reconfigure(max: int, ttl: int)
    | Dialled(k: Key, pin: Pin)
    | Unbind(k: Key)
    | ClearAll
    | Read(k: Key)
    | Listing

  datatype Event = Event(now: int, op: Op)

  function Apply(c: Cache, e: Event): (r: Cache)
    requires Linked(c)
    ensures Linked(r)
  {
    PruneIsLinked(c, e.now);
    match e.op
    case Reconfigure(max, ttl) => ConfigureIsLinked(c, e.now, max, ttl); Configure(c, e.now, max, ttl)
    case Dialled(k, pin) => CommitIsLinked(c, e.now, k, pin); Commit(c, e.now, k, pin)
    case Unbind(k) => WithoutIsLinked(Prune(c, e.now), k); Delete(c, e.now, k)
    case ClearAll => Clear(c)
    case Read(k) => WithoutIsLinked(c, k); ReadPin(c, e.now, k).0
    case Listing => Prune(c, e.now)
  }

  function Fresh(max: int, ttl: int): (c: Cache)
    ensures Linked(c)
  {
    Cache(map[], [], Limits(max, ttl).0, Limits(max, ttl).1)
  }

  /** The cache after a run that starts from a new store. */
  function After(max: int, ttl: int, run: seq<Event>): (c: Cache)
    ensures Linked(c)
    decreases |run|
  {
    if run == [] then Fresh(max, ttl)
    else Apply(After(max, ttl, run[..|run| - 1]), run[|run| - 1])
  }

  ghost predicate Monotone(run: seq<Event>) {
    forall i, j :: 0 <= i < j < |run| ==> run[i].now <= run[j].now
  }

  lemma ApplyIsWf(c: Cache, clock: int, e: Event)
    requires Wf(c, clock) && clock <= e.now
    ensures Wf(Apply(c, e), e.now)
  {
    match e.op
    case Reconfigure(max, ttl) => ConfigureIsWf(c, clock, e.now, max, ttl);
    case Dialled(k, pin) => CommitIsWf(c, clock, e.now, k, pin);
    case Unbind(k) => DeleteIsWf(c, clock, e.now, k);
    case ClearAll => assert Clear(c).lru == [];
    case Read(k) => ReadPinIsWf(c, clock, e.now, k);
    case Listing => PruneIsWf(c, clock, e.now);
  }

  /** In every run the list and the map agree, the list is ordered by last
      commit, every deadline is last commit plus the current idle time, and the
      size never exceeds the current maximum. */
  lemma {:induction false} RunIsWf(max: int, ttl: int, run: seq<Event>)
    requires Monotone(run) && run != []
    ensures Wf(After(max, ttl, run), run[|run| - 1].now)
    decreases |run|
  {
    var prev, e := run[..|run| - 1], run[|run| - 1];
    if prev == [] {
      ApplyIsWf(Fresh(max, ttl), e.now, e);
    } else {
      assert Monotone(prev);
      RunIsWf(max, ttl, prev);
      ApplyIsWf(After(max, ttl, prev), prev[|prev| - 1].now, e);
    }
  }

  lemma RunsExtend(max: int, ttl: int, run: seq<Event>, e: Event)
    ensures After(max, ttl, []) == Fresh(max, ttl) && After(max, ttl, run + [e]) == Apply(After(max, ttl, run), e)
  {
    assert (run + [e])[..|run|] == run;
  }

  /** In every run, a session is bound to the node of a commit right after it, and to none
      after an unbind or a clear; a read neither binds nor renews. */
  lemma RunBinds(max: int, ttl: int, run: seq<Event>, t: int, k: Key, pin: Pin)
    ensures var c := After(max, ttl, run + [Event(t, Dialled(k, pin))]);
      k in c.entries && c.entries[k].nodeID == pin.nodeID && c.entries[k].expiresAt == t + After(max, ttl, run).ttl
    ensures k !in After(max, ttl, run + [Event(t, Unbind(k))]).entries
    ensures After(max, ttl, run + [Event(t, ClearAll)]).entries == map[]
    ensures var was, c := After(max, ttl, run).entries, After(max, ttl, run + [Event(t, Read(k))]).entries;
      c == if k in was && was[k].expiresAt <= t then was - {k} else was
  {
    RunLimits(max, ttl, run);
    RunsExtend(max, ttl, run, Event(t, Dialled(k, pin)));
    RunsExtend(max, ttl, run, Event(t, Unbind(k)));
    RunsExtend(max, ttl, run, Event(t, ClearAll));
    RunsExtend(max, ttl, run, Event(t, Read(k)));
    hide After, Linked;
    CommitKeepsKey(After(max, ttl, run), t, k, pin);
    assert k !in Delete(After(max, ttl, run), t, k).entries;
  }

  lemma ApplyLimits(c: Cache, e: Event)
    requires Linked(c)
    ensures var r := Apply(c, e);
      if e.op.Reconfigure? then (r.max, r.ttl) == Limits(e.op.max, e.op.ttl) else r.max == c.max && r.ttl == c.ttl
  {
    hide Linked;
  }

  lemma {:induction false} RunLimits(max: int, ttl: int, run: seq<Event>)
    ensures 0 < After(max, ttl, run).max && 0 < After(max, ttl, run).ttl
    decreases |run|
  {
    if run != [] {
      hide Linked, Apply;
      RunLimits(max, ttl, run[..|run| - 1]);
      ApplyLimits(After(max, ttl, run[..|run| - 1]), run[|run| - 1]);
    }
  }

  // ------------------------------------------------------ last-commit order

  /** Index of the last commit of `k` in the run, or -1. */
  function LastCommit(run: seq<Event>, k: Key): (i: int)
    ensures -1 <= i < |run|
    ensures i >= 0 ==> run[i].op.Dialled? && run[i].op.k == k
    decreases |run|
  {
    if run == [] then -1
    else if run[|run| - 1].op.Dialled? && run[|run| - 1].op.k == k then |run| - 1
    else LastCommit(run[..|run| - 1], k)
  }

  ghost predicate Recent(lru: seq<Key>, run: seq<Event>) {
    forall i, j :: 0 <= i < j < |lru| ==> LastCommit(run, lru[i]) > LastCommit(run, lru[j])
  }

  lemma RecentWithout(lru: seq<Key>, k: Key, run: seq<Event>)
    requires NoDup(lru) && Recent(lru, run)
    ensures Recent(Without(lru, k), run)
  {
    if k in lru {
      WithoutSplits(lru, k);
    }
  }

  lemma RecentPrefix(a: seq<Key>, b: seq<Key>, run: seq<Event>)
    requires a <= b && Recent(b, run)
    ensures Recent(a, run)
  {}

  lemma KeptShape(c: Cache, e: Event)
    requires Linked(c) && !e.op.Dialled?
    ensures
      var r := Apply(c, e).lru;
      || r <= c.lru
      || (e.op.Unbind? && r == Without(Prune(c, e.now).lru, e.op.k))
      || (e.op.Read? && r == Without(c.lru, e.op.k))
  {
    if e.op.Reconfigure? {
      ConfigureIsLinked(c, e.now, e.op.max, e.op.ttl);
    }
  }

  lemma RecentKept(c: Cache, e: Event, run: seq<Event>)
    requires Linked(c) && Recent(c.lru, run) && !e.op.Dialled?
    ensures Recent(Apply(c, e).lru, run)
  {
    KeptShape(c, e);
    var r, p := Apply(c, e).lru, Prune(c, e.now).lru;
    if r <= c.lru {
      RecentPrefix(r, c.lru, run);
    } else if e.op.Unbind? {
      PruneIsLinked(c, e.now);
      RecentPrefix(p, c.lru, run);
      RecentWithout(p, e.op.k, run);
    } else {
      RecentWithout(c.lru, e.op.k, run);
    }
  }

  lemma LastCommitSnoc(run: seq<Event>, e: Event, k: Key)
    ensures LastCommit(run + [e], k) == if e.op.Dialled? && e.op.k == k then |run| else LastCommit(run, k)
  {
    assert (run + [e])[..|run|] == run;
  }

  lemma RecentPushed(lru: seq<Key>, k: Key, e: Event, run: seq<Event>)
    requires NoDup(lru) && Recent(lru, run) && k !in lru && e.op.Dialled? && e.op.k == k
    ensures Recent([k] + lru, run + [e])
  {
    var q := [k] + lru;
    forall i, j | 0 <= i < j < |q| ensures LastCommit(run + [e], q[i]) > LastCommit(run + [e], q[j]) {
      LastCommitSnoc(run, e, q[i]);
      LastCommitSnoc(run, e, q[j]);
      assert q[j] == lru[j - 1] && q[j] in lru;
      if 0 < i {
        assert q[i] == lru[i - 1] && q[i] in lru;
      }
    }
  }

  lemma RecentCommitted(c: Cache, e: Event, run: seq<Event>)
    requires Linked(c) && Recent(c.lru, run) && e.op.Dialled?
    ensures Recent(Apply(c, e).lru, run + [e])
  {
    var k, p := e.op.k, Prune(c, e.now);
    PruneIsLinked(c, e.now);
    RecentPrefix(p.lru, c.lru, run);
    RecentWithout(p.lru, k, run);
    WithoutNoDup(p.lru, k);
    RecentPushed(Without(p.lru, k), k, e, run);
    RecentPrefix(Apply(c, e).lru, Push(p, e.now, k, e.op.pin).lru, run + [e]);
  }

  lemma RecentExtends(lru: seq<Key>, run: seq<Event>, e: Event)
    requires Recent(lru, run) && !e.op.Dialled?
    ensures Recent(lru, run + [e])
  {
    forall k ensures LastCommit(run + [e], k) == LastCommit(run, k) { LastCommitSnoc(run, e, k); }
  }

  /** In every run, the list order is exactly the order of last commits. */
  lemma {:induction false} RunOrder(max: int, ttl: int, run: seq<Event>)
    ensures Recent(After(max, ttl, run).lru, run)
    decreases |run|
  {
    if run != [] {
      var prev, e := run[..|run| - 1], run[|run| - 1];
      assert run == prev + [e];
      var c := After(max, ttl, prev);
      RunOrder(max, ttl, prev);
      if e.op.Dialled? {
        RecentCommitted(c, e, prev);
      } else {
        RecentKept(c, e, prev);
        RecentExtends(Apply(c, e).lru, prev, e);
      }
    }
  }

  // ----------------------------------------------- what an entry remembers

  /** The node identities committed for `k` since its present entry was created,
      oldest first; empty when there is no entry. */
  function Life(max: int, ttl: int, run: seq<Event>, k: Key): seq<string>
    decreases |run|
  {
    if k !in After(max, ttl, run).entries || run == [] then []
    else
      var prev, e := run[..|run| - 1], run[|run| - 1];
      if e.op.Dialled? && e.op.k == k then
        (if k in Prune(After(max, ttl, prev), e.now).entries then Life(max, ttl, prev, k) else [])
        + [e.op.pin.nodeID]
      else Life(max, ttl, prev, k)
  }

  function Changes(ids: seq<string>): nat {
    if |ids| < 2 then 0
    else Changes(ids[..|ids| - 1]) + if ids[|ids| - 2] != ids[|ids| - 1] then 1 else 0
  }

  /** Only a commit of its own key gives an entry new content. */
  lemma OthersKeep(c: Cache, e: Event, k: Key)
    requires Linked(c) && k in Apply(c, e).entries && !(e.op.Dialled? && e.op.k == k)
    ensures k in c.entries
    ensures Apply(c, e).entries[k] == c.entries[k].(expiresAt := Apply(c, e).entries[k].expiresAt)
  {
    hide Linked, Prune, Configure, Commit, Without, Renewed;
    PruneIsLinked(c, e.now);
    match e.op
    case Reconfigure(max, ttl) => ConfigureIsLinked(c, e.now, max, ttl);
    case Dialled(x, pin) => CommitIsLinked(c, e.now, x, pin);
    case Unbind(x) =>
    case ClearAll =>
    case Read(x) =>
    case Listing =>
  }

  ghost predicate Remembers(b: Binding, ids: seq<string>) {
    ids != [] && b.nodeID == ids[|ids| - 1] && b.switchCount == Changes(ids)
  }

  lemma RemembersMore(b: Option<Binding>, ids: seq<string>, k: Key, now: int, ttl: int, pin: Pin)
    requires match b case None => ids == [] case Some(x) => Remembers(x, ids)
    ensures Remembers(Renewed(b, k, now, ttl, pin), ids + [pin.nodeID])
  {
    assert (ids + [pin.nodeID])[..|ids|] == ids;
  }

  lemma RemembersCommit(c: Cache, e: Event, ids: seq<string>)
    requires Linked(c) && e.op.Dialled? && e.op.k in Apply(c, e).entries
    requires var p := Prune(c, e.now);
      if e.op.k in p.entries then Remembers(p.entries[e.op.k], ids) else ids == []
    ensures Remembers(Apply(c, e).entries[e.op.k], ids + [e.op.pin.nodeID])
  {
    CommitIsLinked(c, e.now, e.op.k, e.op.pin);
    RemembersMore(Lookup(Prune(c, e.now).entries, e.op.k), ids, e.op.k, e.now, c.ttl, e.op.pin);
  }

  /** In every run, a binding names the node of its last commit, and its switch
      count is the number of identity changes between successive commits in the
      life of the entry. */
  lemma {:induction false} SwitchCountIsExact(max: int, ttl: int, run: seq<Event>, k: Key)
    requires k in After(max, ttl, run).entries
    ensures Remembers(After(max, ttl, run).entries[k], Life(max, ttl, run, k))
    decreases |run|
  {
    var prev, e := run[..|run| - 1], run[|run| - 1];
    var c := After(max, ttl, prev);
    if e.op.Dialled? && e.op.k == k {
      var ids := [];
      if k in Prune(c, e.now).entries {
        SwitchCountIsExact(max, ttl, prev, k);
        ids := Life(max, ttl, prev, k);
      }
      RemembersCommit(c, e, ids);
    } else {
      OthersKeep(c, e, k);
      SwitchCountIsExact(max, ttl, prev, k);
    }
  }
}
