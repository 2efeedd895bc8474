/** One selection while other requests and pools act between its single locks. What
    each check met is read off the trail, which records the ban it found. */
module Contention {
  import opened Bans
  import opened SharedStates
  import opened PoolSelection

  ghost predicate IsCheck(n: Note, m: Member, now: int) { n.state == m.shared && n.what == Stamped(now, Check) }

  /** From place `from` on, the trail holds one check of each member, in order. */
  ghost predicate Scanned(trail: seq<Note>, from: nat, ms: seq<Member>, now: int) {
    && from + |ms| <= |trail|
    && (forall i :: 0 <= i < |ms| ==> IsCheck(trail[from + i], ms[i], now))
  }

  /** Whom such a scan collects. */
  ghost function Collected(trail: seq<Note>, from: nat, ms: seq<Member>, now: int,
                           network: Option<Network>): seq<Member>
    requires from + |ms| <= |trail|
  {
    if ms == [] then []
    else
      var i := |ms| - 1;
      Collected(trail, from, ms[..i], now, network)
      + if !Banned(trail[from + i].found, now) && Capable(ms[i], network) then [ms[i]] else []
  }

  lemma {:induction false} CollectedMore(trail: seq<Note>, more: seq<Note>, from: nat, ms: seq<Member>, now: int,
                                         network: Option<Network>)
    requires from + |ms| <= |trail|
    ensures Collected(trail + more, from, ms, now, network) == Collected(trail, from, ms, now, network)
    decreases |ms|
  {
    if ms != [] {
      CollectedMore(trail, more, from, ms[..|ms| - 1], now, network);
    }
  }

  lemma {:induction false} CollectedHas(trail: seq<Note>, from: nat, ms: seq<Member>, now: int,
                                        network: Option<Network>,
                                        m: Member)
    requires from + |ms| <= |trail|
    ensures m in Collected(trail, from, ms, now, network) <==>
      exists i :: 0 <= i < |ms| && ms[i] == m && !Banned(trail[from + i].found, now) && Capable(m, network)
    decreases |ms|
  {
    if ms != [] {
      var front := ms[..|ms| - 1];
      CollectedHas(trail, from, front, now, network, m);
      assert forall i :: 0 <= i < |front| ==> front[i] == ms[i];
    }
  }

  /** A check, after whatever others did before it. */
  method CheckBan(pool: Pool, m: Member, now: int) returns (banned: bool)
    requires pool.Valid() && m.shared < |pool.registry.states|
    modifies pool.registry`states, pool.registry`trail, pool`rrCounter, pool`stickyMap
    ensures pool.Valid() && |old(pool.registry.states)| <= |pool.registry.states|
    ensures |pool.registry.trail| == |old(pool.registry.trail)| + 1
    ensures old(pool.registry.trail) <= pool.registry.trail
    ensures var n := pool.registry.trail[|old(pool.registry.trail)|];
      IsCheck(n, m, now) && (banned <==> Banned(n.found, now))
    ensures Reports(pool.registry.trail) == Reports(old(pool.registry.trail))
  {
    pool.Others();
    ghost var n := Note(m.shared, Stamped(now, Check), pool.registry.states[m.shared].ban);
    ReportsSnoc(pool.registry.trail, n);
    banned := pool.registry.IsBlacklisted(m.shared, now);
  }

  /** The first `i` members are scanned, and the buffer holds whom that collected. */
  ghost predicate Scanning(pool: Pool, i: nat, now: int, network: Option<Network>, from: nat, got: seq<Member>)
    requires i <= |pool.members|
    reads pool.registry
  {
    && |pool.registry.trail| == from + i && Scanned(pool.registry.trail, from, pool.members[..i], now)
    && got == Collected(pool.registry.trail, from, pool.members[..i], now, network) && |got| <= i
  }

  /** One check of a scan that began at place `from`. */
  method ScanOne(pool: Pool, i: nat, now: int, network: Option<Network>, buf: array<Member>, n0: nat,
                 ghost from: nat)
    returns (n: nat)
    requires pool.Valid() && i < |pool.members| <= buf.Length && n0 <= i
    requires Scanning(pool, i, now, network, from, buf[..n0])
    modifies pool.registry`states, pool.registry`trail, pool`rrCounter, pool`stickyMap, buf
    ensures pool.Valid() && n <= i + 1 && old(pool.registry.trail) <= pool.registry.trail
    ensures Scanning(pool, i + 1, now, network, from, buf[..n])
    ensures Reports(pool.registry.trail) == Reports(old(pool.registry.trail))
  {
    var m := pool.members[i];
    n := n0;
    ghost var before := pool.registry.trail;
    hide Reports, Collected, Scanned;
    var banned := CheckBan(pool, m, now);
    ScanNext(before, pool.registry.trail, from, pool.members, i, now, network);
    if !banned && (network.None? || network.value in m.networks) {
      buf[n] := m;
      n := n + 1;
    }
  }

  /** One scan of the pool. */
  method AvailableMembers(pool: Pool, now: int, network: Option<Network>, buf: array<Member>) returns (n: nat)
    requires pool.Valid() && buf.Length >= |pool.members|
    modifies pool.registry`states, pool.registry`trail, pool`rrCounter, pool`stickyMap, buf
    ensures pool.Valid() && n <= |pool.members| && old(pool.registry.trail) <= pool.registry.trail
    ensures Scanned(pool.registry.trail, |old(pool.registry.trail)|, pool.members, now)
    ensures buf[..n] == Collected(pool.registry.trail, |old(pool.registry.trail)|, pool.members, now, network)
    ensures Reports(pool.registry.trail) == Reports(old(pool.registry.trail))
  {
    n := 0;
    ghost var from := |pool.registry.trail|;
    assert Scanning(pool, 0, now, network, from, buf[..0]);
    hide Reports, Collected, Scanned, Pool.Valid;
    for i := 0 to |pool.members|
      invariant pool.Valid() && n <= i && Scanning(pool, i, now, network, from, buf[..n])
      invariant old(pool.registry.trail) <= pool.registry.trail
      invariant Reports(pool.registry.trail) == Reports(old(pool.registry.trail))
    {
      n := ScanOne(pool, i, now, network, buf, n, from);
    }
    assert pool.members[..|pool.members|] == pool.members;
  }

  lemma ScanNext(before: seq<Note>, after: seq<Note>, from: nat, ms: seq<Member>, i: nat, now: int,
                 network: Option<Network>)
    requires i < |ms| && |before| == from + i && |after| == from + i + 1 && before <= after
    requires Scanned(before, from, ms[..i], now) && IsCheck(after[from + i], ms[i], now)
    ensures Scanned(after, from, ms[..i + 1], now)
    ensures Collected(after, from, ms[..i + 1], now, network) == Collected(before, from, ms[..i], now, network)
      + if !Banned(after[from + i].found, now) && Capable(ms[i], network) then [ms[i]] else []
  {
    assert ms[..i + 1][..i] == ms[..i];
    assert after == before + [after[from + i]];
    CollectedMore(before, [after[from + i]], from, ms[..i], now, network);
  }

  // -------------------------------------------------------------- the release

  /** Some note since place `from` releases a state, or finds it parked. */
  ghost predicate ReleaseNote(trail: seq<Note>, from: nat, m: Member, now: int, freed: bool) {
    exists k :: from <= k < |trail| && trail[k].state == m.shared && trail[k].what == Stamped(now, Release)
                && Parked(trail[k].found, now) != freed
  }

  ghost predicate CheckNote(trail: seq<Note>, from: nat, m: Member, now: int, ready: bool) {
    exists k :: from <= k < |trail| && IsCheck(trail[k], m, now) && Banned(trail[k].found, now) != ready
  }

  lemma NotesStay(before: seq<Note>, after: seq<Note>, from: nat, m: Member, now: int, yes: bool)
    requires before <= after
    ensures ReleaseNote(before, from, m, now, yes) ==> ReleaseNote(after, from, m, now, yes)
    ensures CheckNote(before, from, m, now, yes) ==> CheckNote(after, from, m, now, yes)
  {}

  ghost predicate Stay(before: seq<Note>, after: seq<Note>, from: nat, now: int) {
    && before <= after
    && (forall x, b :: ReleaseNote(before, from, x, now, b) ==> ReleaseNote(after, from, x, now, b))
    && (forall x, b :: CheckNote(before, from, x, now, b) ==> CheckNote(after, from, x, now, b))
  }

  /** A check noted since place `from`. */
  method CheckOne(pool: Pool, m: Member, now: int, ghost from: nat) returns (banned: bool)
    requires pool.Valid() && m.shared < |pool.registry.states| && from <= |pool.registry.trail|
    modifies pool.registry`states, pool.registry`trail, pool`rrCounter, pool`stickyMap
    ensures pool.Valid() && Stay(old(pool.registry.trail), pool.registry.trail, from, now)
    ensures CheckNote(pool.registry.trail, from, m, now, !banned)
    ensures Reports(pool.registry.trail) == Reports(old(pool.registry.trail))
  {
    ghost var before := pool.registry.trail;
    banned := CheckBan(pool, m, now);
    assert IsCheck(pool.registry.trail[|before|], m, now);
  }

  method ReleaseOne(pool: Pool, m: Member, now: int, ghost from: nat) returns (released: bool)
    requires pool.Valid() && m.shared < |pool.registry.states| && from <= |pool.registry.trail|
    modifies pool.registry`states, pool.registry`trail, pool`rrCounter, pool`stickyMap
    ensures pool.Valid() && Stay(old(pool.registry.trail), pool.registry.trail, from, now)
    ensures ReleaseNote(pool.registry.trail, from, m, now, released)
    ensures Reports(pool.registry.trail) == Reports(old(pool.registry.trail))
  {
    pool.Others();
    ghost var n := Note(m.shared, Stamped(now, Release), pool.registry.states[m.shared].ban);
    ReportsSnoc(pool.registry.trail, n);
    released := pool.registry.ReleaseIfPermanent(m.shared, now);
    assert pool.registry.trail[|old(pool.registry.trail)|] == n;
  }

  /** Nobody was freed, because a check met a member without a ban or every member
      was parked at its turn. */
  ghost predicate Unfreed(ms: seq<Member>, trail: seq<Note>, from: nat, now: int) {
    || (exists m :: m in ms && CheckNote(trail, from, m, now, true))
    || (forall m :: m in ms ==> ReleaseNote(trail, from, m, now, false))
  }

  /** Somebody was freed, after every check had met a ban. */
  ghost predicate Freed(ms: seq<Member>, trail: seq<Note>, from: nat, now: int) {
    && (forall m :: m in ms ==> CheckNote(trail, from, m, now, false))
    && (exists m :: m in ms && ReleaseNote(trail, from, m, now, true))
  }

  /** Releases one member after another once every check has found a ban. */
  method ReleaseIfAllBlacklisted(pool: Pool, now: int) returns (any: bool)
    requires pool.Valid()
    modifies pool.registry`states, pool.registry`trail, pool`rrCounter, pool`stickyMap
    ensures pool.Valid() && old(pool.registry.trail) <= pool.registry.trail
    ensures Reports(pool.registry.trail) == Reports(old(pool.registry.trail))
    ensures if any then Freed(pool.members, pool.registry.trail, |old(pool.registry.trail)|, now)
            else Unfreed(pool.members, pool.registry.trail, |old(pool.registry.trail)|, now)
  {
    ghost var from := |pool.registry.trail|;
    hide Reports, CheckNote, ReleaseNote;
    for i := 0 to |pool.members|
      invariant pool.Valid() && old(pool.registry.trail) <= pool.registry.trail
      invariant Reports(pool.registry.trail) == Reports(old(pool.registry.trail))
      invariant forall j :: 0 <= j < i ==> CheckNote(pool.registry.trail, from, pool.members[j], now, false)
    {
      var banned := CheckOne(pool, pool.members[i], now, from);
      if !banned {
        return false;
      }
    }
    any := ReleaseAll(pool, now, from);
  }

  method ReleaseAll(pool: Pool, now: int, ghost from: nat) returns (any: bool)
    requires pool.Valid() && from <= |pool.registry.trail|
    requires forall m :: m in pool.members ==> CheckNote(pool.registry.trail, from, m, now, false)
    modifies pool.registry`states, pool.registry`trail, pool`rrCounter, pool`stickyMap
    ensures pool.Valid() && old(pool.registry.trail) <= pool.registry.trail
    ensures Reports(pool.registry.trail) == Reports(old(pool.registry.trail))
    ensures if any then Freed(pool.members, pool.registry.trail, from, now)
            else Unfreed(pool.members, pool.registry.trail, from, now)
  {
    any := false;
    hide Reports, CheckNote, ReleaseNote;
    for i := 0 to |pool.members|
      invariant pool.Valid() && old(pool.registry.trail) <= pool.registry.trail
      invariant Reports(pool.registry.trail) == Reports(old(pool.registry.trail))
      invariant forall m :: m in pool.members ==> CheckNote(pool.registry.trail, from, m, now, false)
      invariant any ==> exists m :: m in pool.members && ReleaseNote(pool.registry.trail, from, m, now, true)
      invariant !any ==> forall j :: 0 <= j < i ==> ReleaseNote(pool.registry.trail, from, pool.members[j], now, false)
    {
      var released := ReleaseOne(pool, pool.members[i], now, from);
      any := any || released;
    }
  }

  // ------------------------------------------------------------ the selection

  /** The pinned members, until one is found that can serve. */
  method FirstFit(pool: Pool, list: seq<Member>, now: int, network: Option<Network>, tried: set<Tag>)
    returns (r: Option<Member>)
    requires pool.Valid() && forall m :: m in list ==> m in pool.members
    modifies pool.registry`states, pool.registry`trail, pool`rrCounter, pool`stickyMap
    ensures pool.Valid() && old(pool.registry.trail) <= pool.registry.trail
    ensures Reports(pool.registry.trail) == Reports(old(pool.registry.trail))
    ensures r.Some? ==>
      && r.value in list && r.value.tag !in tried && Capable(r.value, network)
      && CheckNote(pool.registry.trail, |old(pool.registry.trail)|, r.value, now, true)
    ensures r.None? ==> forall m :: m in list && m.tag !in tried && Capable(m, network) ==>
      CheckNote(pool.registry.trail, |old(pool.registry.trail)|, m, now, false)
  {
    ghost var from := |pool.registry.trail|;
    hide Reports, CheckNote, ReleaseNote;
    for i := 0 to |list|
      invariant pool.Valid() && old(pool.registry.trail) <= pool.registry.trail
      invariant Reports(pool.registry.trail) == Reports(old(pool.registry.trail))
      invariant forall j :: 0 <= j < i && list[j].tag !in tried && Capable(list[j], network) ==>
        CheckNote(pool.registry.trail, from, list[j], now, false)
    {
      if list[i].tag !in tried && (network.None? || network.value in list[i].networks) {
        var banned := CheckOne(pool, list[i], now, from);
        if !banned {
          return Some(list[i]);
        }
      }
    }
    r := None;
  }

  /** The pick was found without a ban at its own check, and if it had been tried,
      so had everybody whom some scan collected. */
  ghost predicate FairPick(ms: seq<Member>, m: Member, trail: seq<Note>, from: nat, now: int, network: Option<Network>,
                           tried: set<Tag>) {
    && m in ms && Capable(m, network) && CheckNote(trail, from, m, now, true)
    && (m.tag in tried ==> exists at ::
          from <= at && Scanned(trail, at, ms, now)
          && forall x :: x in Collected(trail, at, ms, now, network) ==> x.tag in tried)
  }

  /** The pick was chosen among the untried members some scan collected, or all of
      them when none is untried, at the counter and the remembered clients of that
      moment. */
  ghost predicate ChosenFrom(ms: seq<Member>, m: Member, trail: seq<Note>, from: nat, now: int,
                             network: Option<Network>, tried: set<Tag>, mode: Mode, client: Option<Client>, id: Id,
                             random: nat, latency: Tag -> int, next: nat, sticky': map<Client, Tag>) {
    exists at: nat ::
      from <= at && Scanned(trail, at, ms, now) && OrAll(Collected(trail, at, ms, now, network), tried) != []
      && ChosenNow(OrAll(Collected(trail, at, ms, now, network), tried), m, mode, client, id, random, latency, next,
                   sticky')
  }

  /** Every capable member was found banned by a scan; nobody could be freed, or a
      scan after the release found nobody again. */
  ghost predicate NoPick(ms: seq<Member>, trail: seq<Note>, from: nat, now: int, network: Option<Network>) {
    && (exists at :: from <= at && Scanned(trail, at, ms, now) && Collected(trail, at, ms, now, network) == [])
    && (Unfreed(ms, trail, from, now)
        || exists at ::
             from <= at && Scanned(trail, at, ms, now) && Collected(trail, at, ms, now, network) == []
             && Freed(ms, trail[..at], from, now))
  }

  /** Those a scan collected or, when that was nobody and somebody could be freed,
      those a second scan did. */
  method Candidates(pool: Pool, now: int, network: Option<Network>, buf: array<Member>, ghost from: nat)
    returns (n: nat, ghost at: nat)
    requires pool.Valid() && buf.Length >= |pool.members| && from <= |pool.registry.trail|
    modifies pool.registry`states, pool.registry`trail, pool`rrCounter, pool`stickyMap, buf
    ensures pool.Valid() && n <= |pool.members| && Stay(old(pool.registry.trail), pool.registry.trail, from, now)
    ensures Reports(pool.registry.trail) == Reports(old(pool.registry.trail))
    ensures from <= at && Scanned(pool.registry.trail, at, pool.members, now)
    ensures buf[..n] == Collected(pool.registry.trail, at, pool.members, now, network)
    ensures n == 0 ==> NoPick(pool.members, pool.registry.trail, from, now, network)
  {
    at := |pool.registry.trail|;
    hide Reports, Scanned, Collected, Pool.Valid, NoPick, ReleaseNote, CheckNote;
    n := AvailableMembers(pool, now, network, buf);
    if n == 0 {
      n, at := Recover(pool, now, network, buf, from, at);
    }
    Staying(old(pool.registry.trail), pool.registry.trail, from, now);
  }

  lemma Staying(before: seq<Note>, after: seq<Note>, from: nat, now: int)
    requires before <= after
    ensures Stay(before, after, from, now)
  {}

  /** After a scan that collected nobody. */
  method Recover(pool: Pool, now: int, network: Option<Network>, buf: array<Member>, ghost from: nat, ghost scan: nat)
    returns (n: nat, ghost at: nat)
    requires pool.Valid() && buf.Length >= |pool.members| && from <= scan
    requires Scanned(pool.registry.trail, scan, pool.members, now)
    requires Collected(pool.registry.trail, scan, pool.members, now, network) == []
    modifies pool.registry`states, pool.registry`trail, pool`rrCounter, pool`stickyMap, buf
    ensures pool.Valid() && n <= |pool.members| && old(pool.registry.trail) <= pool.registry.trail
    ensures Reports(pool.registry.trail) == Reports(old(pool.registry.trail))
    ensures from <= at && Scanned(pool.registry.trail, at, pool.members, now)
    ensures buf[..n] == Collected(pool.registry.trail, at, pool.members, now, network)
    ensures n == 0 ==> NoPick(pool.members, pool.registry.trail, from, now, network)
  {
    ghost var seen := pool.registry.trail;
    assert from <= |seen|;
    hide Reports, Scanned, Collected, Pool.Valid, NoPick, Freed, Unfreed;
    var any := ReleaseIfAllBlacklisted(pool, now);
    ghost var released := pool.registry.trail;
    ScanStays(seen, released, scan, pool.members, now, network);
    n, at := 0, scan;
    if any {
      at := |released|;
      n := AvailableMembers(pool, now, network, buf);
      assert pool.registry.trail[..at] == released;
      ScanStays(released, pool.registry.trail, scan, pool.members, now, network);
      if n == 0 {
        StillNobody(pool.members, pool.registry.trail, from, scan, |seen|, at, now, network);
      }
    } else {
      NobodyFreed(pool.members, released, from, scan, |seen|, now, network);
    }
  }

  lemma NobodyFreed(ms: seq<Member>, trail: seq<Note>, from: nat, at: nat, since: nat, now: int,
                    network: Option<Network>)
    requires from <= at && from <= since && Scanned(trail, at, ms, now) && Collected(trail, at, ms, now, network) == []
    requires Unfreed(ms, trail, since, now)
    ensures NoPick(ms, trail, from, now, network)
  {
    hide Scanned, Collected;
    assert Unfreed(ms, trail, from, now);
  }

  lemma StillNobody(ms: seq<Member>, trail: seq<Note>, from: nat, first: nat, since: nat, at: nat, now: int,
                    network: Option<Network>)
    requires from <= first && from <= since && from <= at <= |trail|
    requires Scanned(trail, first, ms, now) && Collected(trail, first, ms, now, network) == []
    requires Freed(ms, trail[..at], since, now)
    requires Scanned(trail, at, ms, now) && Collected(trail, at, ms, now, network) == []
    ensures NoPick(ms, trail, from, now, network)
  {
    hide Scanned, Collected;
    assert Freed(ms, trail[..at], from, now);
  }

  lemma ScanStays(before: seq<Note>, after: seq<Note>, at: nat, ms: seq<Member>, now: int, network: Option<Network>)
    requires before <= after && Scanned(before, at, ms, now)
    ensures Scanned(after, at, ms, now)
    ensures Collected(after, at, ms, now, network) == Collected(before, at, ms, now, network)
  {
    assert after == before + after[|before|..];
    CollectedMore(before, after[|before|..], at, ms, now, network);
  }

  /** What is left of the collected once tried members are dropped. */
  lemma LeftAreFair(ms: seq<Member>, all: seq<Member>, left: seq<Member>, trail: seq<Note>, from: nat, at: nat,
                    now: int,
                    network: Option<Network>, tried: set<Tag>, m: Member)
    requires from <= at && Scanned(trail, at, ms, now) && all == Collected(trail, at, ms, now, network)
    requires left == OrAll(all, tried) && m in left
    ensures FairPick(ms, m, trail, from, now, network, tried)
  {
    KeepHas(all, Untried(all, tried), m);
    KeepEmpty(all, Untried(all, tried));
    CollectedHas(trail, at, ms, now, network, m);
    var i :| 0 <= i < |ms| && ms[i] == m && !Banned(trail[at + i].found, now) && Capable(m, network);
    assert IsCheck(trail[at + i], m, now);
  }

  /** The loads of the candidates, each read among others. */
  method ReadLoads(pool: Pool, candidates: seq<Member>) returns (loads: seq<int>)
    requires pool.Valid() && forall m :: m in candidates ==> m in pool.members
    modifies pool.registry`states, pool`rrCounter, pool`stickyMap
    ensures pool.Valid() && |loads| == |candidates|
  {
    loads := [];
    for i := 0 to |candidates|
      invariant pool.Valid() && |loads| == i
    {
      pool.Others();
      loads := loads + [pool.registry.states[candidates[i].shared].active];
    }
  }

  /** A selection among others. Its pick was found without a ban at its own check and
      had been tried only if everybody its scan collected had; another identity
      than the pinned one is picked only if each of the pinned members that could
      have served was found banned; and it fails only if a whole scan found
      everybody banned and nobody could be freed, or was banned again at once. */
  method PickMemberFor(pool: Pool, now: int, network: Option<Network>, tried: set<Tag>, client: Option<Client>, id: Id,
                       random: nat, latency: Tag -> int)
    returns (r: Option<Member>)
    requires pool.Valid()
    modifies pool.registry`states, pool.registry`trail, pool`rrCounter, pool`stickyMap
    ensures pool.Valid() && old(pool.registry.trail) <= pool.registry.trail
    ensures Reports(pool.registry.trail) == Reports(old(pool.registry.trail))
    ensures r.Some? ==>
      FairPick(pool.members, r.value, pool.registry.trail, |old(pool.registry.trail)|, now, network, tried)
    ensures r.Some? && (id == NO_ID || r.value.identity != id) ==>
      ChosenFrom(pool.members, r.value, pool.registry.trail, |old(pool.registry.trail)|, now, network, tried, pool.mode,
                 client, id, random, latency, pool.rrCounter, pool.stickyMap)
    ensures r.Some? && id != NO_ID && r.value.identity != id ==>
      PinBanned(pool.members, pool.registry.trail, |old(pool.registry.trail)|, now, network, tried, id)
    ensures r.None? ==> NoPick(pool.members, pool.registry.trail, |old(pool.registry.trail)|, now, network)
  {
    ghost var from := |pool.registry.trail|;
    if id != NO_ID {
      r := PickPinned(pool, now, network, tried, id);
      if r.Some? {
        return;
      }
    }
    r := PickAvailable(pool, now, network, tried, client, id, random, latency, from);
  }

  /** Each member of the identity that could have served was found banned. */
  ghost predicate PinBanned(ms: seq<Member>, trail: seq<Note>, from: nat, now: int, network: Option<Network>,
                            tried: set<Tag>, id: Id) {
    forall m :: m in ms && m.identity == id && m.tag !in tried && Capable(m, network) ==>
      CheckNote(trail, from, m, now, false)
  }

  method PickPinned(pool: Pool, now: int, network: Option<Network>, tried: set<Tag>, id: Id) returns (r: Option<Member>)
    requires pool.Valid()
    modifies pool.registry`states, pool.registry`trail, pool`rrCounter, pool`stickyMap
    ensures pool.Valid() && old(pool.registry.trail) <= pool.registry.trail
    ensures Reports(pool.registry.trail) == Reports(old(pool.registry.trail))
    ensures r.Some? ==>
      && r.value.identity == id
      && FairPick(pool.members, r.value, pool.registry.trail, |old(pool.registry.trail)|, now, network, tried)
    ensures r.None? ==>
      PinBanned(pool.members, pool.registry.trail, |old(pool.registry.trail)|, now, network, tried, id)
  {
    var list := if id in pool.membersByID then pool.membersByID[id] else [];
    forall m ensures m in list <==> m in pool.members && m.identity == id {
      KeepHas(pool.members, WithId(pool.members, id), m);
    }
    hide Pool.Valid, Reports, CheckNote;
    r := FirstFit(pool, list, now, network, tried);
  }

  method PickAvailable(pool: Pool, now: int, network: Option<Network>, tried: set<Tag>, client: Option<Client>, id: Id,
                       random: nat, latency: Tag -> int, ghost from: nat)
    returns (r: Option<Member>)
    requires pool.Valid() && from <= |pool.registry.trail|
    modifies pool.registry`states, pool.registry`trail, pool`rrCounter, pool`stickyMap
    ensures pool.Valid() && Stay(old(pool.registry.trail), pool.registry.trail, from, now)
    ensures Reports(pool.registry.trail) == Reports(old(pool.registry.trail))
    ensures r.Some? ==> FairPick(pool.members, r.value, pool.registry.trail, from, now, network, tried)
    ensures r.Some? ==>
      ChosenFrom(pool.members, r.value, pool.registry.trail, from, now, network, tried, pool.mode, client, id, random,
                 latency, pool.rrCounter, pool.stickyMap)
    ensures r.None? ==> NoPick(pool.members, pool.registry.trail, from, now, network)
  {
    hide Reports, Scanned, FairPick, Keep, ChosenFrom, NoPick;
    var buf := new Member[|pool.members|];
    var n, at := Candidates(pool, now, network, buf, from);
    if n == 0 {
      return None;
    }
    n := pool.KeepUntried(buf, n, tried);
    r := PickAmong(pool, buf[..n], now, network, tried, client, id, random, latency, from, at);
  }

  method PickAmong(pool: Pool, left: seq<Member>, ghost now: int, ghost network: Option<Network>, ghost tried: set<Tag>,
                   client: Option<Client>, id: Id, random: nat, latency: Tag -> int, ghost from: nat, ghost at: nat)
    returns (r: Option<Member>)
    requires pool.Valid() && from <= at && Scanned(pool.registry.trail, at, pool.members, now) && left != []
    requires left == OrAll(Collected(pool.registry.trail, at, pool.members, now, network), tried)
    modifies pool.registry`states, pool`rrCounter, pool`stickyMap
    ensures pool.Valid() && r.Some?
    ensures FairPick(pool.members, r.value, pool.registry.trail, from, now, network, tried)
    ensures ChosenFrom(pool.members, r.value, pool.registry.trail, from, now, network, tried, pool.mode, client, id,
      random,
                       latency, pool.rrCounter, pool.stickyMap)
  {
    ghost var trail := pool.registry.trail;
    ghost var all := Collected(trail, at, pool.members, now, network);
    hide *;
    LeftAreMembers(pool.members, all, left, trail, at, now, network, tried);
    r := Choose(pool, left, client, id, random, latency);
    LeftAreFair(pool.members, all, left, trail, from, at, now, network, tried, r.value);
    ChosenAt(pool.members, r.value, trail, from, at, now, network, tried, pool.mode, client, id, random, latency,
      pool.rrCounter, pool.stickyMap);
  }

  lemma LeftAreMembers(ms: seq<Member>, all: seq<Member>, left: seq<Member>, trail: seq<Note>, at: nat, now: int,
                       network: Option<Network>, tried: set<Tag>)
    requires Scanned(trail, at, ms, now) && all == Collected(trail, at, ms, now, network) && left == OrAll(all, tried)
    ensures forall m :: m in left ==> m in ms
  {
    forall m | m in left ensures m in ms {
      KeepHas(all, Untried(all, tried), m);
      CollectedHas(trail, at, ms, now, network, m);
    }
  }

  lemma ChosenAt(ms: seq<Member>, m: Member, trail: seq<Note>, from: nat, at: nat, now: int, network: Option<Network>,
                 tried: set<Tag>, mode: Mode, client: Option<Client>, id: Id, random: nat, latency: Tag -> int,
                 next: nat, sticky': map<Client, Tag>)
    requires from <= at && Scanned(trail, at, ms, now) && OrAll(Collected(trail, at, ms, now, network), tried) != []
    requires ChosenNow(OrAll(Collected(trail, at, ms, now, network), tried), m, mode, client, id, random, latency, next,
                       sticky')
    ensures ChosenFrom(ms, m, trail, from, now, network, tried, mode, client, id, random, latency, next, sticky')
  {
    hide Scanned, Collected, OrAll, ChosenNow;
  }

  ghost predicate ChosenNow(ms: seq<Member>, m: Member, mode: Mode, client: Option<Client>, id: Id, random: nat,
                            latency: Tag -> int, next: nat, sticky': map<Client, Tag>)
    requires ms != []
  {
    exists first, second, turn: nat, sticky ::
      |first| == |second| == |ms| && turn < WRAP
      && Chosen(mode, ms, m, client, id, random, latency, first, second, turn, next, sticky, sticky')
  }

  method Choose(pool: Pool, candidates: seq<Member>, client: Option<Client>, id: Id, random: nat, latency: Tag -> int)
    returns (r: Option<Member>)
    requires pool.Valid() && candidates != [] && forall m :: m in candidates ==> m in pool.members
    modifies pool.registry`states, pool`rrCounter, pool`stickyMap
    ensures pool.Valid() && r.Some? && r.value in candidates
    ensures ChosenNow(candidates, r.value, pool.mode, client, id, random, latency, pool.rrCounter, pool.stickyMap)
  {
    var first := ReadLoads(pool, candidates);
    var second := ReadLoads(pool, candidates);
    ghost var turn, sticky := pool.rrCounter, pool.stickyMap;
    var m := pool.Choose(candidates, client, id, random, latency, first, second);
    r := Some(m);
  }
}
