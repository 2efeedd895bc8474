/** How a pool picks the member to dial: availability, release of a fully banned
    pool, in-place filtering of tried members, stickiness and scheduling. */
module PoolSelection {
  import opened Bans
  import opened SharedStates

  datatype Option<+T> = None | Some(value: T)
  datatype Id = Id(name: string)
  datatype Client = Client(address: string)
  datatype Network = TCP | UDP
  datatype Mode = Sequential | Random | Balance | Latency

  const NO_ID := Id("")
  const WRAP: nat := 0x1_0000_0000

  /** `shared` names the state in the registry. */
  datatype Member = Member(tag: Tag, identity: Id, networks: set<Network>, shared: nat)

  // ----------------------------------------------------------- ordered filter

  function Keep(ms: seq<Member>, s: set<Member>): seq<Member> {
    if ms == [] then []
    else Keep(ms[..|ms| - 1], s) + if ms[|ms| - 1] in s then [ms[|ms| - 1]] else []
  }

  lemma KeepNext(ms: seq<Member>, s: set<Member>, i: nat)
    requires i < |ms|
    ensures Keep(ms[..i + 1], s) == Keep(ms[..i], s) + if ms[i] in s then [ms[i]] else []
  {
    assert ms[..i + 1][..i] == ms[..i];
  }

  lemma {:induction false} KeepHas(ms: seq<Member>, s: set<Member>, m: Member)
    ensures m in Keep(ms, s) <==> m in ms && m in s
  {
    if ms != [] {
      KeepHas(ms[..|ms| - 1], s, m);
      assert ms == ms[..|ms| - 1] + [ms[|ms| - 1]];
    }
  }

  lemma {:induction false} KeepKeep(ms: seq<Member>, s: set<Member>, t: set<Member>)
    ensures Keep(Keep(ms, s), t) == Keep(ms, s * t)
  {
    if ms != [] {
      var front, last := ms[..|ms| - 1], ms[|ms| - 1];
      var kept := Keep(front, s);
      KeepKeep(front, s, t);
      if last in s {
        assert Keep(ms, s) == kept + [last] && (kept + [last])[..|kept|] == kept;
      } else {
        assert Keep(ms, s) == kept;
      }
    }
  }

  lemma {:induction false} KeepPrefix(ms: seq<Member>, s: set<Member>, i: nat)
    requires i <= |ms|
    ensures Keep(ms[..i], s) <= Keep(ms, s)
    decreases |ms|
  {
    if i < |ms| {
      KeepPrefix(ms[..|ms| - 1], s, i);
      assert ms[..|ms| - 1][..i] == ms[..i];
    } else {
      assert ms[..i] == ms;
    }
  }

  lemma {:induction false} KeepAll(ms: seq<Member>, s: set<Member>)
    requires forall m :: m in ms ==> m in s
    ensures Keep(ms, s) == ms
  {
    if ms != [] {
      KeepAll(ms[..|ms| - 1], s);
    }
  }

  // ------------------------------------------------------------- eligibility

  ghost predicate InRange(ms: seq<Member>, st: seq<NodeState>) {
    forall m :: m in ms ==> m.shared < |st|
  }

  predicate Capable(m: Member, network: Option<Network>) { network.None? || network.value in m.networks }

  predicate Ready(m: Member, st: seq<NodeState>, now: int) { m.shared < |st| && !Banned(st[m.shared].ban, now) }

  predicate Fit(m: Member, st: seq<NodeState>, now: int, network: Option<Network>) {
    Ready(m, st, now) && Capable(m, network)
  }

  ghost function FitSet(ms: seq<Member>, st: seq<NodeState>, now: int, network: Option<Network>): set<Member> {
    set m | m in ms && Fit(m, st, now, network)
  }

  ghost function Untried(ms: seq<Member>, tried: set<Tag>): set<Member> { set m | m in ms && m.tag !in tried }

  ghost function WithId(ms: seq<Member>, id: Id): set<Member> { set m | m in ms && m.identity == id }

  /** The members a pin may be served by, in pool order. */
  ghost function Pinned(ms: seq<Member>, st: seq<NodeState>, now: int, network: Option<Network>, tried: set<Tag>,
                        id: Id): seq<Member> {
    Keep(ms, WithId(ms, id) * (FitSet(ms, st, now, network) * Untried(ms, tried)))
  }

  /** Bans that ran out by `now` may have been cleared; nothing else changed. */
  ghost predicate Cleared(st: seq<NodeState>, st': seq<NodeState>, now: int) {
    && |st'| == |st|
    && (forall h :: 0 <= h < |st| ==>
          && st'[h].active == st[h].active
          && (st'[h].ban == st[h].ban || st'[h].ban == Settle(st[h].ban, now)))
  }

  lemma ClearedKeepsReady(st: seq<NodeState>, st': seq<NodeState>, now: int, m: Member)
    requires Cleared(st, st', now)
    ensures Ready(m, st', now) == Ready(m, st, now)
  {}

  ghost predicate UsesState(ms: seq<Member>, h: nat) { exists m :: m in ms && m.shared == h }

  /** Every state of the pool took an automatic release; the others are as before. */
  ghost predicate Released(ms: seq<Member>, st: seq<NodeState>, st': seq<NodeState>, now: int) {
    && |st'| == |st|
    && (forall h :: 0 <= h < |st| ==>
          && st'[h].active == st[h].active
          && st'[h].ban == if UsesState(ms, h) then AutoRelease(st[h].ban, now) else st[h].ban)
  }

  /** Releasing one more member; a state shared with an earlier one is released
      again without effect, and says the same. */
  lemma ReleasedNext(ms: seq<Member>, st: seq<NodeState>, cur: seq<NodeState>, now: int, i: nat)
    requires i < |ms| && ms[i].shared < |st| && Released(ms[..i], st, cur, now)
    ensures forall m :: m in ms[..i + 1] <==> m in ms[..i] || m == ms[i]
    ensures var h := ms[i].shared;
      && Released(ms[..i + 1], st, cur[h := cur[h].(ban := AutoRelease(cur[h].ban, now))], now)
      && (UsesState(ms[..i], h) || cur[h].ban == st[h].ban)
  {
    assert ms[..i + 1] == ms[..i] + [ms[i]];
    var h := ms[i].shared;
    forall x | UsesState(ms[..i + 1], x) && x != h ensures UsesState(ms[..i], x) {
      var m :| m in ms[..i + 1] && m.shared == x;
      assert m in ms[..i];
    }
    forall x | UsesState(ms[..i], x) ensures UsesState(ms[..i + 1], x) {
      var m :| m in ms[..i] && m.shared == x;
      assert m in ms[..i + 1];
    }
    assert ms[i] in ms[..i + 1];
  }

  /** Checks and automatic releases say nothing about a dial. */
  ghost function Reports(trail: seq<Note>): seq<Note> {
    if trail == [] then []
    else Reports(trail[..|trail| - 1]) + Report(trail[|trail| - 1])
  }

  function Report(n: Note): seq<Note> {
    if n.what.event.Check? || n.what.event.Release? then [] else [n]
  }

  lemma ReportsSnoc(trail: seq<Note>, n: Note)
    ensures Reports(trail + [n]) == Reports(trail) + Report(n)
  {
    assert (trail + [n])[..|trail|] == trail;
  }

  ghost predicate LeastLoaded(m: Member, ms: seq<Member>, st: seq<NodeState>) {
    && m in ms && m.shared < |st|
    && (forall x :: x in ms && x.shared < |st| ==> st[m.shared].active <= st[x.shared].active)
  }

  /** Whom a selection chooses from, in pool order: the members that can serve and
      were not tried or, when that is nobody, all that can serve. */
  ghost function ChoiceOf(ms: seq<Member>, st: seq<NodeState>, now: int, network: Option<Network>, tried: set<Tag>):
    seq<Member>
  {
    OrAll(Keep(ms, FitSet(ms, st, now, network)), tried)
  }

  ghost function OrAll(all: seq<Member>, tried: set<Tag>): seq<Member> {
    var left := Keep(all, Untried(all, tried));
    if left == [] then all else left
  }

  ghost predicate Measured(ms: seq<Member>, latency: Tag -> int) { exists m :: m in ms && latency(m.tag) > 0 }

  /** The first of the fastest measured candidates. */
  ghost predicate FirstFastest(ms: seq<Member>, m: Member, latency: Tag -> int) {
    exists i :: 0 <= i < |ms| && m == ms[i] && latency(m.tag) > 0
      && (forall j :: 0 <= j < |ms| && latency(ms[j].tag) > 0 ==> latency(m.tag) <= latency(ms[j].tag))
      && (forall j :: 0 <= j < i && latency(ms[j].tag) > 0 ==> latency(m.tag) < latency(ms[j].tag))
  }

  /** What a mode promises, with the counter before and after. */
  ghost predicate ByMode(mode: Mode, ms: seq<Member>, m: Member, random: nat, latency: Tag -> int, first: seq<int>,
                         second: seq<int>, turn: nat, next: nat)
    requires ms != []
  {
    match mode
    case Random => m == ms[random % |ms|] && next == turn
    case Sequential => m == ms[turn % |ms|] && next == (turn + 1) % 4_294_967_296
    case Latency =>
      if Measured(ms, latency) then FirstFastest(ms, m, latency) && next == turn
      else m == ms[turn % |ms|] && next == (turn + 1) % 4_294_967_296
    case Balance => InTurn(ms, m, first, second, turn) && next == (turn + 1) % 4_294_967_296
  }

  /** The place whose turn it is among the least-loaded, by the loads read in the two
      passes of a selection. */
  ghost predicate InTurn(ms: seq<Member>, m: Member, first: seq<int>, second: seq<int>, turn: nat) {
    exists least, i ::
      LeastIn(first, least) && 0 <= i < |ms| && m == ms[i] && i == Place(first, second, least, turn)
  }

  ghost predicate FirstWith(ms: seq<Member>, m: Member, id: Id) {
    exists i :: 0 <= i < |ms| && m == ms[i] && m.identity == id && forall j :: 0 <= j < i ==> ms[j].identity != id
  }

  /** What a selection promises of its pick: a candidate of the pinned identity comes
      first; else a client keeps its remembered member while that is a candidate, and
      is remembered for the one it gets; else the mode decides. */
  ghost predicate Chosen(mode: Mode, ms: seq<Member>, m: Member, client: Option<Client>, id: Id, random: nat,
                         latency: Tag -> int, first: seq<int>, second: seq<int>, turn: nat, next: nat,
                         sticky: map<Client, Tag>, sticky': map<Client, Tag>)
    requires ms != []
  {
    if id != NO_ID && exists x :: x in ms && x.identity == id then
      FirstWith(ms, m, id) && next == turn && sticky' == sticky
    else if client.None? then
      ByMode(mode, ms, m, random, latency, first, second, turn, next) && sticky' == sticky
    else
      && sticky' == sticky[client.value := m.tag]
      && if client.value in sticky && exists x :: x in ms && x.tag == sticky[client.value]
         then m in ms && m.tag == sticky[client.value] && next == turn
         else ByMode(mode, ms, m, random, latency, first, second, turn, next)
  }

  /** The same while no load moves. */
  ghost predicate ChosenStill(mode: Mode, st: seq<NodeState>, ms: seq<Member>, m: Member, client: Option<Client>,
                              id: Id,
                              random: nat, latency: Tag -> int, turn: nat, next: nat, sticky: map<Client, Tag>,
                              sticky': map<Client, Tag>)
    requires ms != []
  {
    Chosen(mode, ms, m, client, id, random, latency, Loads(ms, st), Loads(ms, st), turn, next, sticky, sticky')
  }

  /** No member can serve, and no automatic release would change that: some
      member is not banned at all, or every capable one is parked. */
  ghost predicate Hopeless(ms: seq<Member>, st: seq<NodeState>, now: int, network: Option<Network>) {
    && (forall m :: m in ms ==> !Fit(m, st, now, network))
    && ((exists m :: m in ms && Ready(m, st, now))
        || (forall m :: m in ms && Capable(m, network) && m.shared < |st| ==> Parked(st[m.shared].ban, now)))
  }

  ghost predicate SameActive(st: seq<NodeState>, st': seq<NodeState>) {
    |st'| == |st| && forall h :: 0 <= h < |st| ==> st'[h].active == st[h].active
  }

  lemma ClearedFitSet(ms: seq<Member>, st: seq<NodeState>, st': seq<NodeState>, now: int, network: Option<Network>)
    requires Cleared(st, st', now)
    ensures FitSet(ms, st', now, network) == FitSet(ms, st, now, network)
    ensures forall m :: Fit(m, st', now, network) == Fit(m, st, now, network)
  {
    forall m ensures Ready(m, st', now) == Ready(m, st, now) { ClearedKeepsReady(st, st', now, m); }
  }

  lemma ClearedReady(ms: seq<Member>, st: seq<NodeState>, st': seq<NodeState>, now: int)
    requires Cleared(st, st', now) && InRange(ms, st)
    ensures forall m :: m in ms ==> Ready(m, st', now) == Ready(m, st, now)
    ensures forall m :: m in ms && !Ready(m, st, now) ==> st'[m.shared].ban == st[m.shared].ban
  {}

  lemma {:induction false} KeepEmpty(ms: seq<Member>, s: set<Member>)
    ensures Keep(ms, s) == [] <==> forall m :: m in ms ==> m !in s
  {
    forall m ensures m in Keep(ms, s) <==> m in ms && m in s { KeepHas(ms, s, m); }
    if Keep(ms, s) != [] {
      assert Keep(ms, s)[0] in Keep(ms, s);
    }
  }

  /** After a release, exactly the unparked capable members can serve. */
  lemma ReleasedFit(ms: seq<Member>, st: seq<NodeState>, st1: seq<NodeState>, st2: seq<NodeState>, now: int,
                    network: Option<Network>)
    requires InRange(ms, st) && |st1| == |st|
    requires forall m :: m in ms ==> !Ready(m, st, now) && st1[m.shared].ban == st[m.shared].ban
    requires Released(ms, st1, st2, now)
    ensures forall m :: m in ms ==>
      (Fit(m, st2, now, network) <==> Capable(m, network) && !Parked(st[m.shared].ban, now))
    ensures (forall m :: m in ms ==> m !in FitSet(ms, st2, now, network)) <==> Hopeless(ms, st, now, network)
  {
    forall m | m in ms
      ensures Fit(m, st2, now, network) <==> Capable(m, network) && !Parked(st[m.shared].ban, now)
    {
      assert UsesState(ms, m.shared);
    }
  }

  lemma NotReleased(ms: seq<Member>, st: seq<NodeState>, st1: seq<NodeState>, st2: seq<NodeState>, now: int,
                    network: Option<Network>)
    requires InRange(ms, st) && |st1| == |st| == |st2|
    requires forall m :: m in ms ==> !Fit(m, st, now, network) && Ready(m, st1, now) == Ready(m, st, now)
    requires forall m :: m in ms && !Ready(m, st, now) ==> st1[m.shared].ban == st[m.shared].ban
    requires if forall m :: m in ms ==> !Ready(m, st1, now)
             then Released(ms, st1, st2, now) && forall m :: m in ms ==> Parked(st1[m.shared].ban, now)
             else Cleared(st1, st2, now)
    ensures Hopeless(ms, st, now, network)
    ensures forall m :: m in ms ==> m !in FitSet(ms, st2, now, network)
  {
    if forall m :: m in ms ==> !Ready(m, st1, now) {
      ReleasedFit(ms, st, st1, st2, now, network);
    } else {
      ClearedFitSet(ms, st1, st2, now, network);
    }
  }

  lemma PinnedIsFit(ms: seq<Member>, st: seq<NodeState>, now: int, network: Option<Network>, tried: set<Tag>, id: Id)
    ensures var p := Pinned(ms, st, now, network, tried, id);
      p != [] ==> p[0] in ms && p[0].identity == id && p[0].tag !in tried && Fit(p[0], st, now, network)
  {
    var s := WithId(ms, id) * (FitSet(ms, st, now, network) * Untried(ms, tried));
    var p := Keep(ms, s);
    if p != [] {
      KeepHas(ms, s, p[0]);
    }
  }

  lemma FitNotHopeless(ms: seq<Member>, st: seq<NodeState>, now: int, network: Option<Network>, m: Member)
    requires m in ms && Fit(m, st, now, network)
    ensures !Hopeless(ms, st, now, network)
  {}

  lemma ClearedHopeless(ms: seq<Member>, st: seq<NodeState>, st': seq<NodeState>, now: int, network: Option<Network>)
    requires Cleared(st, st', now) && InRange(ms, st)
    ensures Hopeless(ms, st', now, network) == Hopeless(ms, st, now, network)
  {
    ClearedReady(ms, st, st', now);
  }

  /** What is left of the candidates once tried members are dropped. */
  lemma TriedCandidates(ms: seq<Member>, fit: set<Member>, all: seq<Member>, tried: set<Tag>, left: seq<Member>)
    requires all == Keep(ms, fit) && all != [] && fit <= set m | m in ms
    requires left == if tried == {} || Keep(all, Untried(all, tried)) == [] then all else Keep(all, Untried(all, tried))
    ensures left != [] && forall m :: m in left ==> m in ms && m in fit
    ensures forall m :: m in left && m.tag in tried ==> forall x :: x in fit ==> x.tag in tried && x in left
    ensures forall m, x :: m in left && x in fit && x.tag !in tried ==> x in left
  {
    var s := Untried(all, tried);
    forall m ensures m in all <==> m in ms && m in fit { KeepHas(ms, fit, m); }
    forall m ensures m in Keep(all, s) <==> m in all && m in s { KeepHas(all, s, m); }
    KeepEmpty(all, s);
  }

  lemma ChoiceFacts(ms: seq<Member>, st: seq<NodeState>, now: int, network: Option<Network>, tried: set<Tag>)
    requires Keep(ms, FitSet(ms, st, now, network)) != []
    ensures var left := ChoiceOf(ms, st, now, network, tried);
      && left != [] && InRange(left, st)
      && (forall m :: m in left ==> m in ms && Fit(m, st, now, network))
      && (forall m :: m in left && m.tag in tried ==>
            forall x :: x in ms && Fit(x, st, now, network) ==> x.tag in tried && x in left)
      && (forall x :: x in ms && Fit(x, st, now, network) && x.tag !in tried ==> x in left)
  {
    var fit := FitSet(ms, st, now, network);
    var all := Keep(ms, fit);
    var left := OrAll(all, tried);
    if tried == {} {
      KeepAll(all, Untried(all, tried));
    }
    TriedCandidates(ms, fit, all, tried, left);
    assert left[0] in left;
    assert forall x :: x in ms && Fit(x, st, now, network) <==> x in fit;
    hide Keep, OrAll, FitSet;
  }

  lemma PickFacts(ms: seq<Member>, st: seq<NodeState>, now: int, network: Option<Network>, tried: set<Tag>, r: Member)
    requires Keep(ms, FitSet(ms, st, now, network)) != [] && r in ChoiceOf(ms, st, now, network, tried)
    ensures r in ms && Fit(r, st, now, network)
    ensures r.tag in tried ==> forall m :: m in ms && Fit(m, st, now, network) ==> m.tag in tried
    ensures LeastLoaded(r, ChoiceOf(ms, st, now, network, tried), st) ==>
      forall m :: m in ms && Fit(m, st, now, network) && (m.tag !in tried || r.tag in tried) ==>
        st[r.shared].active <= st[m.shared].active
  {
    ChoiceFacts(ms, st, now, network, tried);
    hide ChoiceOf, FitSet, Keep;
  }

  // ------------------------------------------------------------------ the pool

  class Pool {
    const registry: Registry
    const mode: Mode
    const members: seq<Member>
    var membersByID: map<Id, seq<Member>>
    var rrCounter: nat
    var stickyMap: map<Client, Tag>

    ghost predicate Valid()
      reads this, registry
    {
      && registry.Valid() && members != [] && InRange(members, registry.states) && rrCounter < WRAP
      && Indexed()
    }

    /** The index lists, for each identity, its members in pool order. */
    ghost predicate Indexed()
      reads this
    {
      forall id :: (if id in membersByID then membersByID[id] else []) == Keep(members, WithId(members, id))
    }

    constructor (registry: Registry, mode: Mode, members: seq<Member>)
      requires registry.Valid() && members != [] && InRange(members, registry.states)
      ensures Valid() && this.registry == registry && this.mode == mode && this.members == members
      ensures rrCounter == 0 && stickyMap == map[]
    {
      this.registry, this.mode, this.members := registry, mode, members;
      membersByID, rrCounter, stickyMap := map[], 0, map[];
      new;
      IndexMembers();
    }

    /** Other requests, through this pool and others, between two selections. */
    method Others()
      requires Valid()
      modifies registry`states, this`rrCounter, this`stickyMap
      ensures Valid() && |old(registry.states)| <= |registry.states|
    {
      registry.Others();
      var counter: int, sticky: map<Client, Tag> := *, *;
      rrCounter, stickyMap := counter % WRAP, sticky;
    }

    method IndexMembers()
      modifies this`membersByID
      ensures Indexed()
    {
      membersByID := map[];
      for i := 0 to |members|
        invariant forall id ::
          (if id in membersByID then membersByID[id] else []) == Keep(members[..i], WithId(members, id))
      {
        var m := members[i];
        membersByID :=
          membersByID[m.identity := (if m.identity in membersByID then membersByID[m.identity] else []) + [m]];
        forall id
          ensures Keep(members[..i + 1], WithId(members, id))
               == Keep(members[..i], WithId(members, id)) + if id == m.identity then [m] else []
        {
          KeepNext(members, WithId(members, id), i);
        }
      }
      assert members[..|members|] == members;
    }

    /** One ban check in a scan that started in state `st`. */
    method CheckBan(m: Member, now: int, ghost st: seq<NodeState>) returns (banned: bool)
      requires registry.Valid() && m.shared < |st| && Cleared(st, registry.states, now)
      modifies registry`states, registry`trail
      ensures registry.Valid() && Cleared(st, registry.states, now)
      ensures banned <==> !Ready(m, st, now)
      ensures banned ==> registry.states == old(registry.states)
      ensures Reports(registry.trail) == Reports(old(registry.trail))
    {
      ReportsSnoc(registry.trail, Note(m.shared, Stamped(now, Check), registry.states[m.shared].ban));
      banned := registry.IsBlacklisted(m.shared, now);
    }

    /** Collects into the buffer the members that can serve the request. */
    method AvailableMembers(now: int, network: Option<Network>, buf: array<Member>) returns (n: nat)
      requires Valid() && buf.Length >= |members|
      modifies registry`states, registry`trail, buf
      ensures Valid() && n <= |members|
      ensures buf[..n] == Keep(members, FitSet(members, old(registry.states), now, network))
      ensures Cleared(old(registry.states), registry.states, now)
      ensures Reports(registry.trail) == Reports(old(registry.trail))
    {
      ghost var st := registry.states;
      ghost var fit := FitSet(members, st, now, network);
      n := 0;
      assert Cleared(st, registry.states, now);
      assert Keep(members[..0], fit) == [];
      hide Indexed, Cleared, Ready, Reports, Keep;
      for i := 0 to |members|
        invariant n <= i && buf[..n] == Keep(members[..i], fit)
        invariant registry.Valid() && Cleared(st, registry.states, now)
        invariant Reports(registry.trail) == Reports(old(registry.trail))
      {
        var m := members[i];
        KeepNext(members, fit, i);
        var banned := CheckBan(m, now, st);
        if !banned && (network.None? || network.value in m.networks) {
          buf[n] := m;
          n := n + 1;
        }
      }
      assert members[..|members|] == members;
    }

    /** When every member is banned, releases those an automatic release may. */
    method ReleaseIfAllBlacklisted(now: int) returns (any: bool)
      requires Valid()
      modifies registry`states, registry`trail
      ensures Valid() && Reports(registry.trail) == Reports(old(registry.trail))
      ensures var st := old(registry.states);
        if forall m :: m in members ==> !Ready(m, st, now)
        then Released(members, st, registry.states, now)
             && (any <==> exists m :: m in members && !Parked(st[m.shared].ban, now))
        else Cleared(st, registry.states, now) && !any
    {
      ghost var st := registry.states;
      for i := 0 to |members|
        invariant registry.Valid() && registry.states == st
        invariant Reports(registry.trail) == Reports(old(registry.trail))
        invariant forall j :: 0 <= j < i ==> !Ready(members[j], st, now)
      {
        var banned := CheckBan(members[i], now, st);
        if !banned {
          return false;
        }
      }
      any := ReleaseAll(now);
    }

    method ReleaseOne(m: Member, now: int) returns (released: bool)
      requires registry.Valid() && m.shared < |registry.states|
      modifies registry`states, registry`trail
      ensures registry.Valid()
      ensures registry.states == old(registry.states)[m.shared :=
        old(registry.states)[m.shared].(ban := AutoRelease(old(registry.states)[m.shared].ban, now))]
      ensures released <==> !Parked(old(registry.states)[m.shared].ban, now)
      ensures Reports(registry.trail) == Reports(old(registry.trail))
    {
      ReportsSnoc(registry.trail, Note(m.shared, Stamped(now, Release), registry.states[m.shared].ban));
      released := registry.ReleaseIfPermanent(m.shared, now);
    }

    method ReleaseAll(now: int) returns (any: bool)
      requires Valid()
      modifies registry`states, registry`trail
      ensures Valid() && Reports(registry.trail) == Reports(old(registry.trail))
      ensures Released(members, old(registry.states), registry.states, now)
      ensures any <==> exists m :: m in members && !Parked(old(registry.states)[m.shared].ban, now)
    {
      ghost var st := registry.states;
      any := false;
      hide Indexed;
      for i := 0 to |members|
        invariant registry.Valid() && Released(members[..i], st, registry.states, now)
        invariant Reports(registry.trail) == Reports(old(registry.trail))
        invariant any <==> exists m :: m in members[..i] && !Parked(st[m.shared].ban, now)
      {
        var m := members[i];
        ReleasedNext(members, st, registry.states, now, i);
        var released := ReleaseOne(m, now);
        any := any || released;
      }
      assert members[..|members|] == members;
    }

    // ------------------------------------------------------------ scheduling

    /** The counter ticks round modulo 2^32. */
    method Tick(n: nat) returns (idx: nat)
      requires 0 < n && rrCounter < WRAP
      modifies this`rrCounter
      ensures idx == old(rrCounter) % n && rrCounter == (old(rrCounter) + 1) % WRAP
    {
      idx := rrCounter % n;
      rrCounter := (rrCounter + 1) % WRAP;
    }

    /** The first pass: the least of the loads read, how often it was read, and where
        first. */
    method LeastActive(first: seq<int>) returns (least: int, tied: nat, selected: nat)
      requires first != []
      ensures forall i :: 0 <= i < |first| ==> least <= first[i]
      ensures tied == |At(first, least)| > 0 && selected == At(first, least)[0]
    {
      least, tied, selected := 0, 0, 0;
      for i := 0 to |first|
        invariant i == 0 <==> tied == 0
        invariant forall j :: 0 <= j < i ==> least <= first[j]
        invariant i > 0 ==> tied == |At(first[..i], least)| && selected == At(first[..i], least)[0]
      {
        var active := first[i];
        AtNext(first, least, i);
        if tied == 0 || active < least {
          AtNone(first[..i], active);
          AtNext(first, active, i);
          least, tied, selected := active, 1, i;
        } else if active == least {
          tied := tied + 1;
        }
      }
      assert first[..|first|] == first;
    }

    /** The second pass: the `n`-th place where that load is read again. */
    method NthAt(second: seq<int>, least: int, n: nat) returns (r: Option<nat>)
      ensures r == if n < |At(second, least)| then Some(At(second, least)[n]) else None
    {
      var choice := n;
      assert second[..|second|] == second;
      for i := 0 to |second|
        invariant 0 <= choice && n == choice + |At(second[..i], least)|
      {
        AtNext(second, least, i);
        if second[i] == least {
          if choice == 0 {
            AtPrefix(second, least, i + 1);
            return Some(i);
          }
          choice := choice - 1;
        }
      }
      r := None;
    }

    /** Rotates among the equally least-loaded candidates. The loads are read once
        in each pass and may move between them; when the turn's place is gone, the
        first least-loaded candidate of the first pass is taken. */
    method SelectBalance(candidates: seq<Member>, first: seq<int>, second: seq<int>) returns (r: Member)
      requires candidates != [] && |first| == |second| == |candidates| && rrCounter < WRAP
      modifies this`rrCounter
      ensures rrCounter == (old(rrCounter) + 1) % WRAP
      ensures InTurn(candidates, r, first, second, old(rrCounter))
    {
      var least, tied, selected := LeastActive(first);
      AtHas(first, least);
      assert first[At(first, least)[0]] == least;
      PlaceIsLeast(first, second, least, rrCounter);
      var choice := Tick(tied);
      var place := NthAt(second, least, choice);
      r := candidates[if place.Some? then place.value else selected];
    }

    /** The candidate with the lowest measured latency, if any was measured. */
    method SelectLatency(candidates: seq<Member>, latency: Tag -> int) returns (r: Option<Member>)
      ensures r.None? <==> forall m :: m in candidates ==> latency(m.tag) <= 0
      ensures r.Some? ==> r.value in candidates && latency(r.value.tag) > 0
      ensures r.Some? ==> forall m :: m in candidates && latency(m.tag) > 0 ==> latency(r.value.tag) <= latency(m.tag)
      ensures r.Some? ==> FirstFastest(candidates, r.value, latency)
    {
      r := None;
      ghost var at := 0;
      for i := 0 to |candidates|
        invariant r.None? <==> forall j :: 0 <= j < i ==> latency(candidates[j].tag) <= 0
        invariant r.Some? ==> at < i && r.value == candidates[at] && latency(r.value.tag) > 0
        invariant r.Some? ==> forall j :: 0 <= j < at && latency(candidates[j].tag) > 0 ==>
          latency(r.value.tag) < latency(candidates[j].tag)
        invariant r.Some? ==> forall j :: 0 <= j < i && latency(candidates[j].tag) > 0 ==>
          latency(r.value.tag) <= latency(candidates[j].tag)
      {
        var l := latency(candidates[i].tag);
        if l > 0 && (r.None? || l < latency(r.value.tag)) {
          r, at := Some(candidates[i]), i;
        }
      }
    }

    /** A candidate by the mode, whatever the loads read in the two passes. */
    method SelectByMode(candidates: seq<Member>, random: nat, latency: Tag -> int, first: seq<int>, second: seq<int>)
      returns (r: Member)
      requires candidates != [] && |first| == |second| == |candidates| && rrCounter < WRAP
      modifies this`rrCounter
      ensures r in candidates && rrCounter < WRAP
      ensures mode.Balance? ==> Balanced(r, candidates, first, second)
      ensures ByMode(mode, candidates, r, random, latency, first, second, old(rrCounter), rrCounter)
      ensures mode.Sequential? ==>
        r == candidates[old(rrCounter) % |candidates|] && rrCounter == (old(rrCounter) + 1) % WRAP
      ensures mode.Latency? ==> forall m :: m in candidates && latency(m.tag) > 0 ==>
        0 < latency(r.tag) <= latency(m.tag)
    {
      match mode
      case Random => r := candidates[random % |candidates|];
      case Balance =>
        ghost var turn := rrCounter;
        r := SelectBalance(candidates, first, second);
        ghost var least, i :|
          LeastIn(first, least) && 0 <= i < |candidates| && r == candidates[i]
          && i == Place(first, second, least, turn);
        PlaceIsLeast(first, second, least, turn);
      case Latency =>
        var best := SelectLatency(candidates, latency);
        if best.Some? {
          r := best.value;
        } else {
          var idx := Tick(|candidates|);
          r := candidates[idx];
        }
      case Sequential =>
        var idx := Tick(|candidates|);
        r := candidates[idx];
    }

    /** A client keeps its member while that member is a candidate. */
    method SelectSticky(candidates: seq<Member>, client: Client, random: nat, latency: Tag -> int, first: seq<int>,
                        second: seq<int>)
      returns (r: Member)
      requires candidates != [] && |first| == |second| == |candidates| && rrCounter < WRAP
      modifies this`rrCounter, this`stickyMap
      ensures r in candidates && rrCounter < WRAP
      ensures stickyMap == old(stickyMap)[client := r.tag]
      ensures client in old(stickyMap) && (exists m :: m in candidates && m.tag == old(stickyMap)[client]) ==>
        r.tag == old(stickyMap)[client] && rrCounter == old(rrCounter)
      ensures !(client in old(stickyMap) && exists m :: m in candidates && m.tag == old(stickyMap)[client]) ==>
        ByMode(mode, candidates, r, random, latency, first, second, old(rrCounter), rrCounter)
    {
      if client in stickyMap {
        for i := 0 to |candidates|
          invariant forall j :: 0 <= j < i ==> candidates[j].tag != stickyMap[client]
          invariant stickyMap == old(stickyMap) && rrCounter == old(rrCounter)
        {
          if candidates[i].tag == stickyMap[client] {
            return candidates[i];
          }
        }
        stickyMap := stickyMap - {client};
      }
      r := SelectByMode(candidates, random, latency, first, second);
      stickyMap := stickyMap[client := r.tag];
    }

    /** Filters the buffer in place, writing over its own front. When every
        candidate was tried nothing is written, so the fallback is intact. */
    method DropTried(buf: array<Member>, n: nat, tried: set<Tag>) returns (k: nat)
      requires n <= buf.Length && n <= |members|
      modifies buf
      ensures 0 < k <= n || (k == n && n == 0)
      ensures var was := old(buf[..n]);
        buf[..k] == if Keep(was, Untried(was, tried)) == [] then was else Keep(was, Untried(was, tried))
    {
      ghost var was := buf[..n];
      ghost var s := Untried(was, tried);
      k := 0;
      for i := 0 to n
        invariant k <= i && buf[..k] == Keep(was[..i], s)
        invariant forall j :: i <= j < n ==> buf[j] == was[j]
        invariant k == 0 ==> forall j :: 0 <= j < n ==> buf[j] == was[j]
      {
        KeepNext(was, s, i);
        if buf[i].tag !in tried {
          buf[k] := buf[i];
          k := k + 1;
        }
      }
      assert was[..n] == was;
      if k == 0 {
        assert buf[..n] == was;
        k := n;
      }
    }

    /** The first member of a list that can serve and was not tried. */
    method FirstFit(list: seq<Member>, now: int, network: Option<Network>, tried: set<Tag>, ghost s: set<Member>)
      returns (r: Option<Member>)
      requires registry.Valid() && InRange(list, registry.states)
      requires forall m :: m in list ==> (m in s <==> Fit(m, registry.states, now, network) && m.tag !in tried)
      modifies registry`states, registry`trail
      ensures registry.Valid() && Cleared(old(registry.states), registry.states, now)
      ensures Reports(registry.trail) == Reports(old(registry.trail))
      ensures r == if Keep(list, s) == [] then None else Some(Keep(list, s)[0])
    {
      ghost var st := registry.states;
      assert list[..|list|] == list;
      assert Cleared(st, registry.states, now);
      hide Cleared, Ready;
      for i := 0 to |list|
        invariant registry.Valid() && Cleared(st, registry.states, now)
        invariant Reports(registry.trail) == Reports(old(registry.trail))
        invariant Keep(list[..i], s) == []
      {
        KeepNext(list, s, i);
        if list[i].tag !in tried && (network.None? || network.value in list[i].networks) {
          var banned := CheckBan(list[i], now, st);
          if !banned {
            KeepPrefix(list, s, i + 1);
            return Some(list[i]);
          }
        }
      }
      r := None;
    }

    /** The pinned node through the index, when one of its members can serve. */
    method PickPinned(now: int, network: Option<Network>, tried: set<Tag>, id: Id) returns (r: Option<Member>)
      requires Valid()
      modifies registry`states, registry`trail
      ensures Valid() && Cleared(old(registry.states), registry.states, now)
      ensures Reports(registry.trail) == Reports(old(registry.trail))
      ensures var p := Pinned(members, old(registry.states), now, network, tried, id);
        r == if p == [] then None else Some(p[0])
    {
      ghost var s := FitSet(members, registry.states, now, network) * Untried(members, tried);
      var list := if id in membersByID then membersByID[id] else [];
      assert list == Keep(members, WithId(members, id));
      KeepKeep(members, WithId(members, id), s);
      forall m | m in list ensures m in members { KeepHas(members, WithId(members, id), m); }
      r := FirstFit(list, now, network, tried, s);
    }

    /** Whom the request can be served by: available members or, when the whole
        pool is banned, those an automatic release frees. */
    method Candidates(now: int, network: Option<Network>, buf: array<Member>) returns (n: nat)
      requires Valid() && buf.Length >= |members|
      modifies registry`states, registry`trail, buf
      ensures Valid() && n <= |members| && SameActive(old(registry.states), registry.states)
      ensures Reports(registry.trail) == Reports(old(registry.trail))
      ensures buf[..n] == Keep(members, FitSet(members, registry.states, now, network))
      ensures n == 0 <==> Hopeless(members, old(registry.states), now, network)
    {
      ghost var st := registry.states;
      n := AvailableMembers(now, network, buf);
      ghost var st1 := registry.states;
      ClearedFitSet(members, st, st1, now, network);
      KeepEmpty(members, FitSet(members, st, now, network));
      if n == 0 {
        ClearedReady(members, st, st1, now);
        var any := ReleaseIfAllBlacklisted(now);
        ghost var st2 := registry.states;
        if any {
          n := AvailableMembers(now, network, buf);
          ClearedFitSet(members, st2, registry.states, now, network);
          KeepEmpty(members, FitSet(members, st2, now, network));
          ReleasedFit(members, st, st1, st2, now, network);
        } else {
          NotReleased(members, st, st1, st2, now, network);
          KeepEmpty(members, FitSet(members, st2, now, network));
        }
      }
    }

    /** The first candidate with the pinned identity. */
    method WithIdentity(candidates: seq<Member>, id: Id) returns (r: Option<Member>)
      ensures r.Some? ==> r.value in candidates && FirstWith(candidates, r.value, id)
      ensures r.None? ==> forall m :: m in candidates ==> m.identity != id
    {
      r := None;
      for i := 0 to |candidates|
        invariant forall j :: 0 <= j < i ==> candidates[j].identity != id
      {
        if candidates[i].identity == id {
          return Some(candidates[i]);
        }
      }
    }

    /** The pinned identity if it is a candidate, else by stickiness and mode. */
    method Choose(candidates: seq<Member>, client: Option<Client>, id: Id, random: nat, latency: Tag -> int,
                  first: seq<int>, second: seq<int>)
      returns (r: Member)
      requires candidates != [] && |first| == |second| == |candidates| && rrCounter < WRAP
      modifies this`rrCounter, this`stickyMap
      ensures r in candidates && rrCounter < WRAP
      ensures mode.Balance? && client.None? && id == NO_ID ==> Balanced(r, candidates, first, second)
      ensures Chosen(mode, candidates, r, client, id, random, latency, first, second, old(rrCounter), rrCounter,
                     old(stickyMap), stickyMap)
    {
      if id != NO_ID {
        var pinned := WithIdentity(candidates, id);
        if pinned.Some? {
          return pinned.value;
        }
      }
      if client.Some? {
        r := SelectSticky(candidates, client.value, random, latency, first, second);
      } else {
        r := SelectByMode(candidates, random, latency, first, second);
      }
    }

    /** A choice made while no load moves. */
    method ChooseNow(candidates: seq<Member>, client: Option<Client>, id: Id, random: nat, latency: Tag -> int)
      returns (r: Member)
      requires candidates != [] && InRange(candidates, registry.states) && rrCounter < WRAP
      modifies this`rrCounter, this`stickyMap
      ensures r in candidates && rrCounter < WRAP
      ensures mode.Balance? && client.None? && id == NO_ID ==> LeastLoaded(r, candidates, registry.states)
      ensures ChosenStill(mode, registry.states, candidates, r, client, id, random, latency, old(rrCounter), rrCounter,
                          old(stickyMap), stickyMap)
    {
      var loads := Loads(candidates, registry.states);
      r := Choose(candidates, client, id, random, latency, loads, loads);
      if mode.Balance? && client.None? && id == NO_ID {
        LeastReading(candidates, registry.states, r);
      }
    }

    method PickAvailable(now: int, network: Option<Network>, tried: set<Tag>, client: Option<Client>, id: Id,
                         random: nat, latency: Tag -> int) returns (r: Option<Member>)
      requires Valid()
      modifies registry`states, registry`trail, this`rrCounter, this`stickyMap
      ensures Valid() && SameActive(old(registry.states), registry.states)
      ensures Reports(registry.trail) == Reports(old(registry.trail))
      ensures r.Some? ==> r.value in members && Fit(r.value, registry.states, now, network)
      ensures r.Some? && r.value.tag in tried ==>
        forall m :: m in members && Fit(m, registry.states, now, network) ==> m.tag in tried
      ensures r.None? <==> Hopeless(members, old(registry.states), now, network)
      ensures r.Some? && mode.Balance? && client.None? && id == NO_ID ==>
        forall m ::
          m in members && Fit(m, registry.states, now, network) && (m.tag !in tried || r.value.tag in tried) ==>
            registry.states[r.value.shared].active <= registry.states[m.shared].active
      ensures var ms := ChoiceOf(members, registry.states, now, network, tried);
        if r.None? then rrCounter == old(rrCounter) && stickyMap == old(stickyMap)
        else ms != [] && ChosenStill(mode, registry.states, ms, r.value, client, id, random, latency, old(rrCounter),
                                     rrCounter, old(stickyMap), stickyMap)
    {
      var buf := new Member[|members|];
      var n := Candidates(now, network, buf);
      if n == 0 {
        return None;
      }
      n := KeepUntried(buf, n, tried);
      hide Hopeless, Indexed, SameActive, Reports, Keep, FitSet, ChosenStill, OrAll;
      var m := PickAmong(buf[..n], now, network, tried, client, id, random, latency);
      r := Some(m);
    }

    /** Drops the tried candidates, unless that leaves nobody. */
    method KeepUntried(buf: array<Member>, n: nat, tried: set<Tag>) returns (k: nat)
      requires 0 < n <= buf.Length && n <= |members|
      modifies buf
      ensures k <= n && buf[..k] == OrAll(old(buf[..n]), tried)
    {
      k := n;
      if tried != {} {
        k := DropTried(buf, n, tried);
      } else {
        KeepAll(buf[..n], Untried(buf[..n], tried));
      }
    }

    method PickAmong(left: seq<Member>, now: int, network: Option<Network>, tried: set<Tag>, client: Option<Client>,
                     id: Id, random: nat, latency: Tag -> int)
      returns (r: Member)
      requires Valid() && Keep(members, FitSet(members, registry.states, now, network)) != []
      requires left == ChoiceOf(members, registry.states, now, network, tried)
      modifies this`rrCounter, this`stickyMap
      ensures Valid()
      ensures r in members && Fit(r, registry.states, now, network)
      ensures r.tag in tried ==> forall m :: m in members && Fit(m, registry.states, now, network) ==> m.tag in tried
      ensures mode.Balance? && client.None? && id == NO_ID ==>
        forall m :: m in members && Fit(m, registry.states, now, network) && (m.tag !in tried || r.tag in tried) ==>
          registry.states[r.shared].active <= registry.states[m.shared].active
      ensures left != []
      ensures ChosenStill(mode, registry.states, left, r, client, id, random, latency, old(rrCounter), rrCounter,
                          old(stickyMap), stickyMap)
    {
      hide Keep, FitSet, ChosenStill, ChoiceOf;
      ChoiceFacts(members, registry.states, now, network, tried);
      r := ChooseNow(left, client, id, random, latency);
      PickFacts(members, registry.states, now, network, tried, r);
    }

    /** Picks a member. In the state it leaves, the pick is not banned, supports
        the network and is untried if any such member is; a pinned node that can
        serve is picked first; and the pick fails exactly when nobody can serve
        and no automatic release would help. */
    method PickMemberFor(now: int, network: Option<Network>, tried: set<Tag>, client: Option<Client>, id: Id,
                         random: nat, latency: Tag -> int) returns (r: Option<Member>)
      requires Valid()
      modifies registry`states, registry`trail, this`rrCounter, this`stickyMap
      ensures Valid() && SameActive(old(registry.states), registry.states)
      ensures Reports(registry.trail) == Reports(old(registry.trail))
      ensures r.Some? ==> r.value in members && Fit(r.value, registry.states, now, network)
      ensures r.Some? && r.value.tag in tried ==>
        forall m :: m in members && Fit(m, registry.states, now, network) ==> m.tag in tried
      ensures var p := Pinned(members, old(registry.states), now, network, tried, id);
        id != NO_ID && p != [] ==> r == Some(p[0]) && rrCounter == old(rrCounter) && stickyMap == old(stickyMap)
      ensures r.None? <==> Hopeless(members, old(registry.states), now, network)
      ensures r.Some? && mode.Balance? && client.None? && id == NO_ID ==>
        forall m ::
          m in members && Fit(m, registry.states, now, network) && (m.tag !in tried || r.value.tag in tried) ==>
            registry.states[r.value.shared].active <= registry.states[m.shared].active
      ensures var ms := ChoiceOf(members, registry.states, now, network, tried);
        if r.None? then rrCounter == old(rrCounter) && stickyMap == old(stickyMap)
        else id == NO_ID || Pinned(members, old(registry.states), now, network, tried, id) == [] ==>
          ms != [] && ChosenStill(mode, registry.states, ms, r.value, client, id, random, latency, old(rrCounter),
                                  rrCounter, old(stickyMap), stickyMap)
    {
      if id != NO_ID {
        ghost var st := registry.states;
        r := PickPinned(now, network, tried, id);
        ClearedHopeless(members, st, registry.states, now, network);
        if r.Some? {
          PinnedIsFit(members, st, now, network, tried, id);
          ClearedFitSet(members, st, registry.states, now, network);
          FitNotHopeless(members, st, now, network, r.value);
          return;
        }
      }
      hide Hopeless, Indexed, Reports, Fit, Pinned;
      r := PickAvailable(now, network, tried, client, id, random, latency);
    }
  }

  // ------------------------------------------------------- places of a reading

  /** Where a load was read, in order. */
  function At(loads: seq<int>, n: int): seq<nat> {
    if loads == [] then []
    else At(loads[..|loads| - 1], n) + if loads[|loads| - 1] == n then [|loads| - 1] else []
  }

  ghost predicate LeastIn(loads: seq<int>, n: int) {
    n in loads && forall i :: 0 <= i < |loads| ==> n <= loads[i]
  }

  /** The place whose turn it is: among the second readings of the least load, or
      the first place that had it when there are too few of them. */
  function Place(first: seq<int>, second: seq<int>, least: int, turn: nat): nat {
    var tied, again := At(first, least), At(second, least);
    if tied == [] then 0
    else if turn % |tied| < |again| then again[turn % |tied|]
    else tied[0]
  }

  /** Wherever the loads move, the pick had the least load when it was read; loads
      that stand still are served in turn. */
  lemma PlaceIsLeast(first: seq<int>, second: seq<int>, least: int, turn: nat)
    requires |first| == |second| && LeastIn(first, least)
    ensures var i := Place(first, second, least, turn);
      i < |first| && (first[i] == least || second[i] == least)
    ensures first == second ==>
      var tied := At(first, least);
      tied != [] && Place(first, second, least, turn) == tied[turn % |tied|]
  {
    AtHas(first, least);
    AtHas(second, least);
    if At(first, least) == [] {
      var i :| 0 <= i < |first| && first[i] == least;
      AtSome(first, least, i);
    }
  }

  lemma {:induction false} AtSome(loads: seq<int>, n: int, i: nat)
    requires i < |loads| && loads[i] == n
    ensures i in At(loads, n)
  {
    if i < |loads| - 1 {
      AtSome(loads[..|loads| - 1], n, i);
    }
  }

  /** The member was read with the least load of the first pass, in either pass. */
  ghost predicate Balanced(m: Member, ms: seq<Member>, first: seq<int>, second: seq<int>)
    requires |first| == |second| == |ms|
  {
    exists i :: 0 <= i < |ms| && m == ms[i] && (LeastIn(first, first[i]) || LeastIn(first, second[i]))
  }

  lemma AtNext(loads: seq<int>, n: int, i: nat)
    requires i < |loads|
    ensures At(loads[..i + 1], n) == At(loads[..i], n) + if loads[i] == n then [i] else []
  {
    assert loads[..i + 1][..i] == loads[..i];
  }

  lemma {:induction false} AtNone(loads: seq<int>, n: int)
    requires forall i :: 0 <= i < |loads| ==> n < loads[i]
    ensures At(loads, n) == []
  {
    if loads != [] {
      AtNone(loads[..|loads| - 1], n);
    }
  }

  lemma {:induction false} AtHas(loads: seq<int>, n: int)
    ensures forall k :: 0 <= k < |At(loads, n)| ==> At(loads, n)[k] < |loads| && loads[At(loads, n)[k]] == n
  {
    if loads != [] {
      AtHas(loads[..|loads| - 1], n);
    }
  }

  lemma {:induction false} AtPrefix(loads: seq<int>, n: int, i: nat)
    requires i <= |loads|
    ensures At(loads[..i], n) <= At(loads, n)
    decreases |loads|
  {
    if i < |loads| {
      AtPrefix(loads[..|loads| - 1], n, i);
      assert loads[..|loads| - 1][..i] == loads[..i];
    } else {
      assert loads[..i] == loads;
    }
  }

  function Loads(ms: seq<Member>, st: seq<NodeState>): seq<int> {
    seq(|ms|, i requires 0 <= i < |ms| => if ms[i].shared < |st| then st[ms[i].shared].active else 0)
  }

  /** Loads that stand still: a least reading is a least load. */
  lemma LeastReading(ms: seq<Member>, st: seq<NodeState>, m: Member)
    requires InRange(ms, st)
    requires Balanced(m, ms, Loads(ms, st), Loads(ms, st))
    ensures LeastLoaded(m, ms, st)
  {
    forall x | x in ms ensures st[m.shared].active <= st[x.shared].active {
      var j :| 0 <= j < |ms| && ms[j] == x;
      assert Loads(ms, st)[j] == st[x.shared].active;
    }
  }
}
