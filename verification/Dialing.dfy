/** One request through a pool: the retry loop, the failed pin it forgets, what it
    reports about each node it dialled, and what it commits for a named session.
    The clock, cancellation and dial outcomes are arbitrary. */
module Dialing {
  import opened Bans
  import opened SharedStates
  import opened PoolSelection
  import Cache = BindingCache
  import SessionStore

  datatype Outcome = Connected | Failed(kind: Kind)

  datatype Call = Call(member: Member, outcome: Outcome)

  datatype Options = Options(retryEnabled: bool, retryAttempts: int, blacklistFailedPin: bool, policy: Policy)

  datatype Result = Conn(member: Member) | Refused | Cancelled

  function MaxAttempts(o: Options): (n: nat)
    ensures n >= 1
    ensures !o.retryEnabled ==> n == 1
    ensures o.retryEnabled ==> n == (if o.retryAttempts >= 1 then o.retryAttempts else 1)
  {
    if !o.retryEnabled || o.retryAttempts < 1 then 1 else o.retryAttempts
  }

  /** The outside: every outbound dial is recorded and ends as it likes, taking
      some time; the clock never runs backwards. */
  class Upstream {
    var calls: seq<Call>
    var clock: int
    /** A context that has ended stays ended. */
    var cancelled: bool

    constructor ()
      ensures calls == []
    {
      calls, clock, cancelled := [], *, *;
    }

    method Now() returns (t: int)
      modifies this`clock
      ensures t == clock && old(clock) <= clock
    {
      var later: int := *;
      if clock < later {
        clock := later;
      }
      t := clock;
    }

    method Dial(m: Member, ghost counts: seq<Count>) returns (outcome: Outcome)
      requires counts != [] && counts[|counts| - 1] == In(m.shared)
      modifies this
      ensures calls == old(calls) + [Call(m, outcome)] && old(clock) <= clock && cancelled == old(cancelled)
    {
      outcome := *;
      calls := calls + [Call(m, outcome)];
      var _ := Now();
    }

    /** The latencies last measured. */
    method Latencies() returns (latency: Tag -> int)
    {
      latency := *;
    }

    method Random() returns (n: nat)
    {
      var any: int := *;
      n := if any < 0 then 0 else any;
    }

    method ContextErr() returns (ended: bool)
      modifies this`cancelled
      ensures ended == cancelled && (old(cancelled) ==> cancelled)
    {
      var now: bool := *;
      cancelled := cancelled || now;
      ended := cancelled;
    }
  }

  // -------------------------------------------- what a request should report

  datatype Saying = Saying(state: nat, event: Event)

  ghost function Sayings(trail: seq<Note>): seq<Saying> {
    var r := Reports(trail);
    seq(|r|, i requires 0 <= i < |r| => Saying(r[i].state, r[i].what.event))
  }

  /** The first failure of the pinned node, on a permanent fault, bans it at once. */
  ghost predicate IsPinFailure(calls: seq<Call>, i: nat, pin: Id, o: Options, packet: bool)
    requires i < |calls|
  {
    && pin != NO_ID && calls[i].member.identity == pin && !packet && o.blacklistFailedPin
    && calls[i].outcome.Failed? && calls[i].outcome.kind.Permanent?
    && (forall j :: 0 <= j < i ==> calls[j].member.identity != pin)
  }

  ghost function Verdict(calls: seq<Call>, i: nat, pin: Id, o: Options, packet: bool): Saying
    requires i < |calls|
  {
    Saying(calls[i].member.shared,
           if calls[i].outcome.Connected? then Success
           else if IsPinFailure(calls, i, pin, o, packet) then PinFailure(o.policy)
           else Failure(calls[i].outcome.kind, o.policy))
  }

  ghost function Verdicts(calls: seq<Call>, pin: Id, o: Options, packet: bool): seq<Saying> {
    seq(|calls|, i requires 0 <= i < |calls| => Verdict(calls, i, pin, o, packet))
  }

  lemma VerdictsSnoc(calls: seq<Call>, c: Call, pin: Id, o: Options, packet: bool)
    ensures Verdicts(calls + [c], pin, o, packet)
         == Verdicts(calls, pin, o, packet) + [Verdict(calls + [c], |calls|, pin, o, packet)]
  {
    var all := calls + [c];
    forall i | 0 <= i < |calls| ensures Verdict(all, i, pin, o, packet) == Verdict(calls, i, pin, o, packet) {
      assert all[i] == calls[i];
      assert forall j :: 0 <= j < i ==> all[j] == calls[j];
    }
  }

  /** What one dial says; `pinned` if it was of the node the session prefers. */
  function SaysOf(m: Member, outcome: Outcome, pinned: bool, o: Options, packet: bool): Saying {
    Saying(m.shared,
           if outcome.Connected? then Success
           else if pinned && !packet && o.blacklistFailedPin && outcome.kind.Permanent? then PinFailure(o.policy)
           else Failure(outcome.kind, o.policy))
  }

  lemma VerdictOfLast(calls: seq<Call>, c: Call, pin: Id, o: Options, packet: bool)
    ensures Verdict(calls + [c], |calls|, pin, o, packet) ==
      SaysOf(c.member, c.outcome, PinAfter(calls, pin) != NO_ID && c.member.identity == pin, o, packet)
  {
    var all := calls + [c];
    assert all[|calls|] == c;
    assert forall i :: 0 <= i < |calls| ==> all[i] == calls[i];
  }

  lemma SayingsSnoc(trail: seq<Note>, n: Note)
    requires !n.what.event.Check? && !n.what.event.Release?
    ensures Sayings(trail + [n]) == Sayings(trail) + [Saying(n.state, n.what.event)]
  {
    ReportsSnoc(trail, n);
  }

  // ------------------------------------------------- how the budget is spent

  /** The pinned node failed, for the first time, on dial `n`. */
  ghost predicate PinFailsAt(calls: seq<Call>, n: nat, pin: Id) {
    && 0 < n <= |calls| && pin != NO_ID && calls[n - 1].member.identity == pin
    && (forall i :: 0 <= i < n - 1 ==> calls[i].member.identity != pin)
  }

  /** One dial more than configured, only in a pool with somewhere else to go and
      only for a pinned node that failed on the last configured attempt. */
  ghost function Budget(calls: seq<Call>, n: nat, pin: Id, members: nat): nat {
    if members > 1 && PinFailsAt(calls, n, pin) then n + 1 else n
  }

  ghost function PinAfter(calls: seq<Call>, pin: Id): Id {
    if exists i :: 0 <= i < |calls| && calls[i].member.identity == pin then NO_ID else pin
  }

  ghost function Tags(calls: seq<Call>): set<Tag> { set i | 0 <= i < |calls| :: calls[i].member.tag }

  /** With a budget of one dial nothing is remembered but a failed pin. */
  ghost predicate Remembers(calls: seq<Call>, n: nat, pin: Id, members: nat) {
    members > 1 && (n > 1 || (calls != [] && pin != NO_ID && calls[0].member.identity == pin))
  }

  ghost function TriedAfter(calls: seq<Call>, n: nat, pin: Id, members: nat): set<Tag> {
    if Remembers(calls, n, pin, members) then Tags(calls) else {}
  }

  /** What a request asks of each selection; a leased request is for no client. */
  datatype Ask = Ask(network: Option<Network>, client: Option<Client>, mode: Mode)

  /** One selection: the states it started from and left, its choice, what it met, and
      the counter and the remembered clients before and after. */
  datatype Pick = Pick(now: int, before: seq<NodeState>, after: seq<NodeState>, choice: Option<Member>,
                       random: nat, latency: Tag -> int, turn: nat, next: nat, sticky: map<Client, Tag>,
                       sticky': map<Client, Tag>)

  /** A pinned member that can serve and was not tried is picked as a matter of
      course; anybody else is chosen. */
  ghost predicate WellChosen(ms: seq<Member>, p: Pick, ask: Ask, tried: set<Tag>, id: Id) {
    var left := ChoiceOf(ms, p.after, p.now, ask.network, tried);
    if p.choice.None? || (id != NO_ID && Pinned(ms, p.before, p.now, ask.network, tried, id) != []) then
      p.next == p.turn && p.sticky' == p.sticky
    else
      left != [] && ChosenStill(ask.mode, p.after, left, p.choice.value, ask.client, id, p.random, p.latency, p.turn,
                                p.next, p.sticky, p.sticky')
  }

  ghost predicate WellPicked(ms: seq<Member>, p: Pick, ask: Ask, tried: set<Tag>, id: Id) {
    && (p.choice.None? <==> Hopeless(ms, p.before, p.now, ask.network))
    && WellChosen(ms, p, ask, tried, id)
    && (p.choice.Some? ==>
          && p.choice.value in ms
          && Fit(p.choice.value, p.after, p.now, ask.network)
          && (p.choice.value.tag in tried ==> forall m :: m in ms && Fit(m, p.after, p.now, ask.network) ==>
            m.tag in tried)
          && (var q := Pinned(ms, p.before, p.now, ask.network, tried, id);
              id != NO_ID && q != [] ==> p.choice.value == q[0]))
  }

  /** Selection `i` of a request whose dials are `calls`. */
  ghost predicate PickedAt(ms: seq<Member>, picks: seq<Pick>, calls: seq<Call>, i: nat, ask: Ask,
                           n: nat, pin: Id)
    requires i < |picks| && i <= |calls|
  {
    WellPicked(ms, picks[i], ask, TriedAfter(calls[..i], n, pin, |ms|), PinAfter(calls[..i], pin))
  }

  ghost predicate AllFailed(calls: seq<Call>) { forall i :: 0 <= i < |calls| ==> calls[i].outcome.Failed? }

  ghost predicate Followed(ms: seq<Member>, picks: seq<Pick>, calls: seq<Call>, ask: Ask, n: nat,
                           pin: Id) {
    && |calls| <= |picks| <= |calls| + 1
    && (forall i :: 0 <= i < |picks| ==> PickedAt(ms, picks, calls, i, ask, n, pin))
    && (forall i :: 0 <= i < |calls| ==> picks[i].choice == Some(calls[i].member))
  }

  lemma FollowedExtends(ms: seq<Member>, picks: seq<Pick>, calls: seq<Call>, ask: Ask, n: nat, pin: Id,
                        p: Pick)
    requires Followed(ms, picks, calls, ask, n, pin) && |picks| == |calls|
    requires WellPicked(ms, p, ask, TriedAfter(calls, n, pin, |ms|), PinAfter(calls, pin))
    ensures Followed(ms, picks + [p], calls, ask, n, pin)
    ensures p.choice.Some? ==> forall o :: Followed(ms, picks + [p], calls + [Call(p.choice.value, o)], ask, n, pin)
  {
    var ps := picks + [p];
    hide WellPicked, TriedAfter, PinAfter;
    assert calls[..|calls|] == calls;
    forall i | 0 <= i < |ps| ensures PickedAt(ms, ps, calls, i, ask, n, pin) {
      if i < |picks| {
        assert PickedAt(ms, picks, calls, i, ask, n, pin);
      }
    }
    if p.choice.Some? {
      forall o ensures Followed(ms, ps, calls + [Call(p.choice.value, o)], ask, n, pin) {
        var cs := calls + [Call(p.choice.value, o)];
        forall i | 0 <= i < |ps| ensures PickedAt(ms, ps, cs, i, ask, n, pin) {
          assert PickedAt(ms, ps, calls, i, ask, n, pin);
          assert cs[..i] == calls[..i];
        }
      }
    }
  }

  /** What a failed dial leaves: its tag is remembered, the pin dropped if it was
      the pin's, and the budget grows if that was the last attempt. */
  lemma AfterFailure(calls: seq<Call>, c: Call, n: nat, pin: Id, members: nat)
    requires n >= 1 && |calls| < Budget(calls, n, pin, members)
    ensures PinAfter(calls + [c], pin) == if c.member.identity == pin then NO_ID else PinAfter(calls, pin)
    ensures Tags(calls + [c]) == Tags(calls) + {c.member.tag}
    ensures Remembers(calls + [c], n, pin, members) <==>
      || Remembers(calls, n, pin, members)
      || (members > 1 && PinAfter(calls, pin) != NO_ID && c.member.identity == pin)
    ensures Budget(calls + [c], n, pin, members) ==
      if PinAfter(calls, pin) != NO_ID && c.member.identity == pin && members > 1
        && Budget(calls, n, pin, members) <= |calls| + 1
      then |calls| + 2 else Budget(calls, n, pin, members)
  {
    var all := calls + [c];
    assert all[|calls|] == c;
    assert forall i :: 0 <= i < |calls| ==> all[i] == calls[i];
    if exists i :: 0 <= i < |calls| && calls[i].member.identity == pin {
      var i :| 0 <= i < |calls| && calls[i].member.identity == pin;
      assert all[i].member.identity == pin;
    }
  }

  ghost predicate Scheduled(ms: seq<Member>, picks: seq<Pick>, calls: seq<Call>, ask: Ask, n: nat,
                            pin: Id) {
    |calls| <= Budget(calls, n, pin, |ms|) && Followed(ms, picks, calls, ask, n, pin)
  }

  /** A connection comes from the last dial; a refusal, from a spent budget or a
      selection that found nobody. */
  ghost predicate Ended(r: Result, picks: seq<Pick>, calls: seq<Call>, n: nat, pin: Id, members: nat) {
    && (r.Conn? ==> calls != [] && calls[|calls| - 1] == Call(r.member, Connected) && AllFailed(calls[..|calls| - 1]))
    && (r.Refused? ==> AllFailed(calls))
    && (r.Refused? && |picks| <= |calls| ==> |calls| == Budget(calls, n, pin, members))
    && (r.Refused? && |picks| > |calls| ==> picks[|calls|].choice.None?)
  }

  /** How many dials a request may make and, when it is refused though every
      selection found a member, must have made. */
  ghost predicate WithinOptions(o: Options, r: Result, picks: seq<Pick>, calls: seq<Call>, pin: Id, members: nat) {
    var k := if o.retryEnabled && 1 <= o.retryAttempts then o.retryAttempts else 1;
    && |calls| <= (if pin == NO_ID || members <= 1 then k else k + 1)
    && (r.Refused? && (forall i :: 0 <= i < |picks| ==> picks[i].choice.Some?) ==> k <= |calls|)
    && (r.Refused? ==> picks != [])
  }

  lemma DialsWithinOptions(ms: seq<Member>, o: Options, r: Result, picks: seq<Pick>, calls: seq<Call>,
                           ask: Ask, pin: Id)
    requires Scheduled(ms, picks, calls, ask, MaxAttempts(o), pin)
    requires Ended(r, picks, calls, MaxAttempts(o), pin, |ms|)
    ensures WithinOptions(o, r, picks, calls, pin, |ms|)
  {
    hide WellPicked;
  }

  /** The uses a request counts: each dial is in use from before it until it has
      ended, and the last one's use passes to the connection, if it gave one. */
  ghost function Uses(calls: seq<Call>, r: Result): seq<Count> {
    if calls == [] then []
    else
      var h := calls[|calls| - 1].member.shared;
      Uses(calls[..|calls| - 1], Refused) + if r.Conn? then [In(h)] else [In(h), Out(h)]
  }

  ghost predicate Told(said: seq<Saying>, says: seq<Saying>, r: Result, calls: seq<Call>, pin: Id, o: Options,
                       packet: bool) {
    || says == said + Verdicts(calls, pin, o, packet)
    || (r.Cancelled? && calls != [] && says == said + Verdicts(calls[..|calls| - 1], pin, o, packet))
  }

  /** Where the loop stands: the pin it still prefers, the tags it avoids (nil when
      it keeps none), its budget and the number of the next attempt. */
  datatype Progress = Progress(pinned: Id, tried: Option<set<Tag>>, maxAttempts: nat, attempt: nat) {
    function Tried(): set<Tag> { if tried.Some? then tried.value else {} }

    /** A failure of the preferred node drops the pin and, when there is somewhere
        else to go, leaves room for one more selection. */
    function DropFailedPin(m: Member, single: bool): Progress {
      if pinned == NO_ID || m.identity != pinned then this
      else if single then this.(pinned := NO_ID)
      else
        var more := if maxAttempts <= attempt then attempt + 1 else maxAttempts;
        Progress(NO_ID, Some(Tried() + {m.tag}), more, attempt)
    }

    function AfterFailure(m: Member, single: bool): Progress {
      var remembered := if tried.Some? then this.(tried := Some(tried.value + {m.tag})) else this;
      var dropped := remembered.DropFailedPin(m, single);
      dropped.(attempt := attempt + 1)
    }
  }

  function Begin(pin: Id, maxAttempts: nat, single: bool): Progress {
    Progress(pin, if !single && maxAttempts > 1 then Some({}) else None, maxAttempts, 1)
  }

  /** How one turn of the loop came out; `cut` when the request was cancelled
      while it dialled. */
  datatype Attempted = Stopped | NoMember | Dialled(member: Member, outcome: Outcome, cut: bool) {
    ghost function Calls(): seq<Call> { if Dialled? then [Call(member, outcome)] else [] }

    ghost function Choice(): Option<Member> { if Dialled? then Some(member) else None }

    predicate Retry() { Dialled? && !cut && outcome.Failed? }

    /** The answer, if this turn is the last. */
    function Answer(): Result {
      if Stopped? || (Dialled? && cut) then Cancelled
      else if NoMember? || outcome.Failed? then Refused
      else Conn(member)
    }

    ghost function Counts(): seq<Count> {
      if !Dialled? then []
      else if Answer().Conn? then [In(member.shared)]
      else [In(member.shared), Out(member.shared)]
    }

    ghost function Says(pinned: Id, o: Options, packet: bool): seq<Saying> {
      if !Dialled? || cut then []
      else [SaysOf(member, outcome, pinned != NO_ID && member.identity == pinned, o, packet)]
    }
  }

  /** The loop's state is a function of the dials made so far. */
  ghost predicate Tracks(g: Progress, calls: seq<Call>, n: nat, pin: Id, members: nat) {
    && g.attempt == |calls| + 1 && g.maxAttempts == Budget(calls, n, pin, members) && |calls| <= g.maxAttempts
    && g.pinned == PinAfter(calls, pin)
    && g.tried == if Remembers(calls, n, pin, members) then Some(Tags(calls)) else None
  }

  ghost predicate Going(ms: seq<Member>, picks: seq<Pick>, calls: seq<Call>, ask: Ask, n: nat, pin: Id,
                        g: Progress) {
    && |picks| == |calls| && Followed(ms, picks, calls, ask, n, pin)
    && AllFailed(calls) && Tracks(g, calls, n, pin, |ms|)
  }

  lemma Tracking(g: Progress, calls: seq<Call>, c: Call, n: nat, pin: Id, members: nat)
    requires n >= 1 && Tracks(g, calls, n, pin, members) && g.attempt <= g.maxAttempts
    ensures Tracks(g.AfterFailure(c.member, members <= 1), calls + [c], n, pin, members)
    ensures g.Tried() == TriedAfter(calls, n, pin, members)
    ensures |calls| + 1 <= Budget(calls + [c], n, pin, members) <= n + 1
  {
    AfterFailure(calls, c, n, pin, members);
    assert Tags([]) == {};
    assert Tags(calls) + {c.member.tag} + {c.member.tag} == Tags(calls + [c]);
  }

  lemma Started(ms: seq<Member>, ask: Ask, n: nat, pin: Id, o: Options, packet: bool)
    requires n >= 1
    ensures Going(ms, [], [], ask, n, pin, Begin(pin, n, |ms| <= 1))
    ensures Begin(pin, n, |ms| <= 1).attempt == 1 && Begin(pin, n, |ms| <= 1).maxAttempts == n
    ensures Verdicts([], pin, o, packet) == []
  {
    assert Tags([]) == {};
  }

  lemma AllFailedSnoc(calls: seq<Call>, c: Call)
    requires AllFailed(calls)
    ensures c.outcome.Failed? ==> AllFailed(calls + [c])
    ensures (calls + [c])[..|calls|] == calls && (calls + [c])[|calls|] == c
  {}

  /** A dial continues the schedule, within the budget. */
  lemma DialTurn(ms: seq<Member>, picks: seq<Pick>, calls: seq<Call>, ask: Ask, n: nat, pin: Id,
                 g: Progress, c: Call, p: Pick)
    requires n >= 1 && Going(ms, picks, calls, ask, n, pin, g) && g.attempt <= g.maxAttempts
    requires p.choice == Some(c.member) && WellPicked(ms, p, ask, g.Tried(), g.pinned)
    ensures Scheduled(ms, picks + [p], calls + [c], ask, n, pin)
    ensures c.outcome.Failed? ==>
      Going(ms, picks + [p], calls + [c], ask, n, pin, g.AfterFailure(c.member, |ms| <= 1))
    ensures AllFailed(calls) && |calls| < n + 1
  {
    hide WellPicked, Followed, AllFailed, Remembers, Tags, PinAfter, TriedAfter, Budget;
    Tracking(g, calls, c, n, pin, |ms|);
    AllFailedSnoc(calls, c);
    FollowedExtends(ms, picks, calls, ask, n, pin, p);
    assert c == Call(p.choice.value, c.outcome);
  }

  lemma ToldSoFar(said: seq<Saying>, says: seq<Saying>, r: Result, calls: seq<Call>, pin: Id, o: Options, packet: bool)
    requires says == said + Verdicts(calls, pin, o, packet)
    ensures Told(said, says, r, calls, pin, o, packet)
  {}

  lemma LastDialEnds(a: Attempted, picks: seq<Pick>, calls: seq<Call>, p: Pick, n: nat, pin: Id, members: nat)
    requires a.Dialled? && !a.Retry() && AllFailed(calls)
    ensures Ended(a.Answer(), picks + [p], calls + a.Calls(), n, pin, members)
  {
    AllFailedSnoc(calls, Call(a.member, a.outcome));
  }

  lemma IdleTurn(ms: seq<Member>, picks: seq<Pick>, calls: seq<Call>, ask: Ask, n: nat, pin: Id,
                 g: Progress, a: Attempted, p: Pick)
    requires n >= 1 && Going(ms, picks, calls, ask, n, pin, g) && g.attempt <= g.maxAttempts
    requires a.NoMember? && p.choice == a.Choice() && WellPicked(ms, p, ask, g.Tried(), g.pinned)
    ensures Scheduled(ms, picks + [p], calls, ask, n, pin)
    ensures Ended(Refused, picks + [p], calls, n, pin, |ms|)
  {
    var m := Member(Tag(""), NO_ID, {}, 0);
    Tracking(g, calls, Call(m, Connected), n, pin, |ms|);
    FollowedExtends(ms, picks, calls, ask, n, pin, p);
  }

  /** Between turns, a request may be cancelled or find its budget spent. */
  lemma BetweenTurns(ms: seq<Member>, picks: seq<Pick>, calls: seq<Call>, ask: Ask, n: nat, pin: Id,
                     g: Progress)
    requires Going(ms, picks, calls, ask, n, pin, g)
    ensures Scheduled(ms, picks, calls, ask, n, pin) && Ended(Cancelled, picks, calls, n, pin, |ms|)
    ensures g.attempt == |calls| + 1 && g.maxAttempts <= n + 1 && |calls| <= n + 1
    ensures g.attempt > g.maxAttempts ==> Ended(Refused, picks, calls, n, pin, |ms|)
  {}

  lemma TurnVerdicts(calls: seq<Call>, a: Attempted, pin: Id, o: Options, packet: bool)
    requires a.Dialled?
    ensures var c := Call(a.member, a.outcome);
      Verdicts(calls + [c], pin, o, packet)
        == Verdicts(calls, pin, o, packet) + a.(cut := false).Says(PinAfter(calls, pin), o, packet)
    ensures (calls + [Call(a.member, a.outcome)])[..|calls|] == calls
  {
    VerdictsSnoc(calls, Call(a.member, a.outcome), pin, o, packet);
    VerdictOfLast(calls, Call(a.member, a.outcome), pin, o, packet);
  }

  lemma TurnUses(calls: seq<Call>, a: Attempted, base: seq<Count>)
    ensures base + Uses(calls, Refused) + a.Counts() == base + Uses(calls + a.Calls(), a.Answer())
  {
    if a.Dialled? {
      assert (calls + a.Calls())[..|calls|] == calls;
    } else {
      assert calls + a.Calls() == calls;
    }
  }

  /** Without a connection, it does not matter how a request ends. */
  lemma UsesWithout(calls: seq<Call>, r: Result)
    requires !r.Conn?
    ensures Uses(calls, r) == Uses(calls, Refused)
    ensures Uses([], r) == []
  {}

  ghost function PicksAfter(picks: seq<Pick>, a: Attempted, p: Pick): seq<Pick> {
    if a.Stopped? then picks else picks + [p]
  }

  /** What a turn adds to the record of a request, and where it leaves it. */
  lemma TurnFacts(ms: seq<Member>, picks: seq<Pick>, calls: seq<Call>, ask: Ask, n: nat, pin: Id,
                  o: Options, packet: bool, g: Progress, a: Attempted, p: Pick, said: seq<Saying>, says: seq<Saying>)
    requires n >= 1 && Going(ms, picks, calls, ask, n, pin, g) && g.attempt <= g.maxAttempts
    requires !a.Stopped? ==> p.choice == a.Choice() && WellPicked(ms, p, ask, g.Tried(), g.pinned)
    requires says == said + Verdicts(calls, pin, o, packet) + a.Says(g.pinned, o, packet)
    ensures Scheduled(ms, PicksAfter(picks, a, p), calls + a.Calls(), ask, n, pin)
    ensures Told(said, says, a.Answer(), calls + a.Calls(), pin, o, packet)
    ensures !a.Retry() ==> Ended(a.Answer(), PicksAfter(picks, a, p), calls + a.Calls(), n, pin, |ms|)
    ensures a.Retry() ==>
      && Going(ms, PicksAfter(picks, a, p), calls + a.Calls(), ask, n, pin, g.AfterFailure(a.member, |ms| <= 1))
      && says == said + Verdicts(calls + a.Calls(), pin, o, packet)
  {
    BetweenTurns(ms, picks, calls, ask, n, pin, g);
    assert calls + [] == calls;
    var v := Verdicts(calls, pin, o, packet);
    assert said + v + [] == said + v;
    assert g.pinned == PinAfter(calls, pin);
    hide Going, Scheduled, Ended, Verdicts, WellPicked, PinAfter;
    if a.Dialled? {
      DialTurn(ms, picks, calls, ask, n, pin, g, Call(a.member, a.outcome), p);
      if !a.Retry() {
        LastDialEnds(a, picks, calls, p, n, pin, |ms|);
      }
      TurnVerdicts(calls, a, pin, o, packet);
      var w := a.(cut := false).Says(g.pinned, o, packet);
      assert said + v + w == said + (v + w);
    } else if a.NoMember? {
      IdleTurn(ms, picks, calls, ask, n, pin, g, a, p);
    }
  }

  function PinOf(b: Cache.Option<Cache.Binding>): Id {
    if b.Some? then Id(b.value.nodeID) else NO_ID
  }

  function Committed(m: Member, failed: bool, nodeName: Tag -> string): Cache.Pin {
    Cache.Pin(m.identity.name, m.tag.name, nodeName(m.tag), if failed then "dial_failed" else "node_unavailable")
  }

  predicate LivePin(c: Cache.Cache, k: Cache.Key, now: int) { k in c.entries && now < c.entries[k].expiresAt }

  ghost function Committing(c: Cache.Cache, commits: bool, r: Result, now: int, k: Cache.Key, failed: bool,
                            nodeName: Tag -> string): Cache.Cache
    requires Cache.Linked(c)
  {
    if commits && r.Conn? then Cache.Commit(c, now, k, Committed(r.member, failed, nodeName)) else c
  }

  // ------------------------------------------------------------------ the loop

  class Dialer {
    const pool: Pool
    const upstream: Upstream
    const options: Options

    constructor (pool: Pool, upstream: Upstream, options: Options)
      ensures this.pool == pool && this.upstream == upstream && this.options == options
    {
      this.pool, this.upstream, this.options := pool, upstream, options;
    }

    /** Records one failed dial; a fault of the pin may ban its node at once. */
    method Report(m: Member, kind: Kind, pinned: bool, packet: bool, now: int)
      requires pool.registry.Valid() && m.shared < |pool.registry.states|
      modifies pool.registry`states, pool.registry`trail
      ensures pool.registry.Valid() && |pool.registry.states| == |old(pool.registry.states)|
      ensures Sayings(pool.registry.trail) == Sayings(old(pool.registry.trail))
        + [Saying(m.shared, if pinned && !packet && options.blacklistFailedPin && kind.Permanent?
                            then PinFailure(options.policy) else Failure(kind, options.policy))]
    {
      if pinned && !packet && options.blacklistFailedPin && kind.Permanent? {
        SayingsSnoc(pool.registry.trail,
          Note(m.shared, Stamped(now, PinFailure(options.policy)), pool.registry.states[m.shared].ban));
        var _ := pool.registry.BlacklistNow(m.shared, options.policy, now);
      } else {
        SayingsSnoc(pool.registry.trail,
          Note(m.shared, Stamped(now, Failure(kind, options.policy)), pool.registry.states[m.shared].ban));
        var _, _, _ := pool.registry.RecordFailure(m.shared, kind, options.policy, now);
      }
    }

    /** Picks for one attempt, stating the choice as a step of the schedule. */
    method PickFor(ask: Ask, tried: set<Tag>, id: Id) returns (r: Option<Member>, ghost p: Pick)
      requires pool.Valid() && ask.mode == pool.mode
      modifies pool.registry`states, pool.registry`trail, pool`rrCounter, pool`stickyMap, upstream`clock
      ensures pool.Valid() && SameActive(p.before, p.after)
      ensures Sayings(pool.registry.trail) == Sayings(old(pool.registry.trail))
      ensures p.choice == r && old(upstream.clock) <= p.now <= upstream.clock
      ensures p.after == pool.registry.states && p.next == pool.rrCounter && p.sticky' == pool.stickyMap
      ensures WellPicked(pool.members, p, ask, tried, id)
      ensures r.Some? ==> r.value in pool.members && r.value.shared < |pool.registry.states|
    {
      pool.Others();
      ghost var before, turn, sticky := pool.registry.states, pool.rrCounter, pool.stickyMap;
      var now := upstream.Now();
      var random := upstream.Random();
      var latency := upstream.Latencies();
      hide Hopeless, Fit, Pinned, ChosenStill, ChoiceOf;
      r := pool.PickMemberFor(now, ask.network, tried, ask.client, id, random, latency);
      p := Pick(now, before, pool.registry.states, r, random, latency, turn, pool.rrCounter, sticky, pool.stickyMap);
    }

    /** One outbound dial of a picked member, counted while it runs and, if it
        gives a connection, beyond. Others are served meanwhile. */
    method DialOnce(m: Member, pinned: bool, packet: bool) returns (outcome: Outcome, cancelled: bool)
      requires pool.Valid() && m.shared < |pool.registry.states|
      modifies pool.registry`states, pool.registry`trail, pool.registry`counts, pool`rrCounter, pool`stickyMap, upstream
      ensures pool.Valid() && upstream.calls == old(upstream.calls) + [Call(m, outcome)]
      ensures old(upstream.clock) <= upstream.clock
      ensures pool.registry.counts == old(pool.registry.counts) + Dialled(m, outcome, cancelled).Counts()
      ensures Sayings(pool.registry.trail) ==
        old(Sayings(pool.registry.trail)) + if cancelled then [] else [SaysOf(m, outcome, pinned, options, packet)]
      ensures cancelled == upstream.cancelled && (old(upstream.cancelled) ==> cancelled)
    {
      hide Pool.Valid, Sayings;
      BeginUse(m);
      outcome := upstream.Dial(m, pool.registry.counts);
      pool.Others();
      cancelled := Conclude(m, outcome, pinned, packet);
    }

    method BeginUse(m: Member)
      requires pool.Valid() && m.shared < |pool.registry.states|
      modifies pool.registry`states, pool.registry`counts
      ensures pool.Valid() && |pool.registry.states| == |old(pool.registry.states)|
      ensures pool.registry.counts == old(pool.registry.counts) + [In(m.shared)]
    {
      pool.registry.IncActive(m.shared);
    }

    method EndUse(m: Member)
      requires pool.Valid() && m.shared < |pool.registry.states|
      modifies pool.registry`states, pool.registry`counts
      ensures pool.Valid() && |pool.registry.states| == |old(pool.registry.states)|
      ensures pool.registry.counts == old(pool.registry.counts) + [Out(m.shared)]
    {
      pool.registry.DecActive(m.shared);
    }

    /** What follows a dial: its use ends unless it gave a connection in time, and it
        is reported unless the request was cancelled. */
    method Conclude(m: Member, outcome: Outcome, pinned: bool, packet: bool) returns (cancelled: bool)
      requires pool.Valid() && m.shared < |pool.registry.states|
      modifies pool.registry`states, pool.registry`trail, pool.registry`counts, upstream`clock,
        upstream`cancelled
      ensures pool.Valid() && old(upstream.clock) <= upstream.clock
      ensures pool.registry.counts ==
        old(pool.registry.counts) + if outcome.Connected? && !cancelled then [] else [Out(m.shared)]
      ensures Sayings(pool.registry.trail) ==
        old(Sayings(pool.registry.trail)) + if cancelled then [] else [SaysOf(m, outcome, pinned, options, packet)]
      ensures cancelled == upstream.cancelled && (old(upstream.cancelled) ==> cancelled)
    {
      hide Sayings;
      if outcome.Failed? {
        EndUse(m);
        cancelled := upstream.ContextErr();
        if !cancelled {
          var now := upstream.Now();
          Report(m, outcome.kind, pinned, packet, now);
        }
      } else {
        cancelled := upstream.ContextErr();
        if cancelled {
          EndUse(m);
        } else {
          var now := upstream.Now();
          SayingsSnoc(pool.registry.trail, Note(m.shared, Stamped(now, Success), pool.registry.states[m.shared].ban));
          pool.registry.RecordSuccess(m.shared, now);
        }
      }
    }

    /** One turn of the loop: nobody is dialled when the request was cancelled or
        nobody could be picked. */
    method Attempt(ask: Ask, packet: bool, g: Progress)
      returns (a: Attempted, ghost p: Pick)
      requires pool.Valid() && ask.mode == pool.mode
      modifies pool.registry`states, pool.registry`trail, pool.registry`counts, pool`rrCounter, pool`stickyMap, upstream
      ensures pool.Valid() && old(upstream.clock) <= upstream.clock
      ensures upstream.calls == old(upstream.calls) + a.Calls()
      ensures pool.registry.counts == old(pool.registry.counts) + a.Counts()
      ensures Sayings(pool.registry.trail) == old(Sayings(pool.registry.trail)) + a.Says(g.pinned, options, packet)
      ensures !a.Stopped? ==> p.choice == a.Choice() && WellPicked(pool.members, p, ask, g.Tried(), g.pinned)
      ensures !a.Stopped? ==> old(upstream.clock) <= p.now
      ensures (old(upstream.cancelled) ==> a.Stopped?) && (a.Answer().Cancelled? <==> upstream.cancelled)
    {
      a, p := Stopped, *;
      hide Pool.Valid, Sayings, WellPicked;
      var cancelled := upstream.ContextErr();
      if !cancelled {
        var member;
        member, p := PickFor(ask, g.Tried(), g.pinned);
        a := NoMember;
        if member.Some? {
          var m := member.value;
          var outcome, cut := DialOnce(m, g.pinned != NO_ID && m.identity == g.pinned, packet);
          a := Dialled(m, outcome, cut);
        }
      }
    }

    /** A turn, with what it adds to the record of the request. */
    method Turn(ask: Ask, packet: bool, pin: Id, g: Progress, ghost base: seq<Count>, ghost said: seq<Saying>,
                failed: bool,
                ghost calls: seq<Call>, ghost picks: seq<Pick>)
      returns (a: Attempted, ghost made: seq<Call>, ghost picked: seq<Pick>)
      requires pool.Valid() && ask.mode == pool.mode && g.attempt <= g.maxAttempts
      requires Underway(g, failed, calls, picks, ask, packet, pin, base, said)
      modifies pool.registry`states, pool.registry`trail, pool.registry`counts, pool`rrCounter, pool`stickyMap, upstream
      ensures pool.Valid() && old(upstream.clock) <= upstream.clock
      ensures calls <= made && upstream.calls == old(upstream.calls) + made[|calls|..]
      ensures picks <= picked && (picks == [] && picked != [] ==> old(upstream.clock) <= picked[0].now)
      ensures |made| <= MaxAttempts(options) + 1 && (a.Retry() ==> |made| > |calls|)
      ensures a.Retry() ==>
        Underway(g.AfterFailure(a.member, |pool.members| <= 1), true, made, picked, ask, packet, pin, base, said)
      ensures a.Answer().Cancelled? <==> upstream.cancelled
      ensures old(upstream.cancelled) ==> a.Stopped? && made == calls && picked == picks
      ensures !a.Retry() ==> Finished(a.Answer(), failed, made, picked, ask, packet, pin, base, said)
    {
      ghost var p;
      hide Pool.Valid, Going, Scheduled, Ended, Uses, Told, Verdicts, Sayings, WellPicked;
      a, p := Attempt(ask, packet, g);
      TurnFacts(pool.members, picks, calls, ask, MaxAttempts(options), pin, options, packet, g, a, p, said,
        Sayings(pool.registry.trail));
      TurnUses(calls, a, base);
      BetweenTurns(pool.members, picks, calls, ask, MaxAttempts(options), pin, g);
      made, picked := calls + a.Calls(), PicksAfter(picks, a, p);
    }

    /** Serves one request among others. The dials follow the schedule of selections;
        the node states are told exactly what each dial said, except that a
        cancelled request may leave its last dial unreported; and all it leaves
        counted is the use of the connection it returns. */
    method Dial(network: Option<Network>, packet: bool, client: Option<Client>, pin: Id)
      returns (r: Result, failed: bool, ghost made: seq<Call>, ghost picks: seq<Pick>)
      requires pool.Valid()
      modifies pool.registry`states, pool.registry`trail, pool.registry`counts, pool`rrCounter, pool`stickyMap, upstream
      ensures pool.Valid() && upstream.calls == old(upstream.calls) + made && old(upstream.clock) <= upstream.clock
      ensures Scheduled(pool.members, picks, made, Ask(network, client, pool.mode), MaxAttempts(options), pin)
      ensures Ended(r, picks, made, MaxAttempts(options), pin, |pool.members|)
      ensures pool.registry.counts == old(pool.registry.counts) + Uses(made, r)
      ensures Told(old(Sayings(pool.registry.trail)), Sayings(pool.registry.trail), r, made, pin, options, packet)
      ensures r.Conn? ==> (failed <==> |made| > 1)
      ensures picks != [] ==> old(upstream.clock) <= picks[0].now
      // as many dials as the options allow, and, for a refusal, as they ask for
      ensures WithinOptions(options, r, picks, made, pin, |pool.members|)
      ensures (r.Cancelled? ==> upstream.cancelled) && (old(upstream.cancelled) ==> r.Cancelled? && picks == [])
    {
      var ask := Ask(network, client, pool.mode);
      ghost var base, said := pool.registry.counts, Sayings(pool.registry.trail);
      var g := Begin(pin, MaxAttempts(options), |pool.members| <= 1);
      Started(pool.members, ask, MaxAttempts(options), pin, options, packet);
      hide Going, Scheduled, Ended, Told, Uses, Verdicts, Sayings, Begin, Pool.Valid;
      r, failed, made, picks := Attempts(ask, packet, pin, g, base, said);
      hide Followed;
      DialsWithinOptions(pool.members, options, r, picks, made, ask, pin);
    }

    /** Attempt after attempt, while the budget lasts. */
    method Attempts(ask: Ask, packet: bool, pin: Id, begin: Progress, ghost base: seq<Count>, ghost said: seq<Saying>)
      returns (r: Result, failed: bool, ghost made: seq<Call>, ghost picks: seq<Pick>)
      requires pool.Valid() && ask.mode == pool.mode && Underway(begin, false, [], [], ask, packet, pin, base, said)
      modifies pool.registry`states, pool.registry`trail, pool.registry`counts, pool`rrCounter, pool`stickyMap, upstream
      ensures pool.Valid() && upstream.calls == old(upstream.calls) + made && old(upstream.clock) <= upstream.clock
      ensures picks != [] ==> old(upstream.clock) <= picks[0].now
      ensures Finished(r, failed, made, picks, ask, packet, pin, base, said)
      ensures r.Cancelled? ==> upstream.cancelled
      ensures old(upstream.cancelled) && begin.attempt <= begin.maxAttempts ==> r.Cancelled? && picks == []
    {
      var g, over := begin, false;
      r, failed, made, picks := Refused, false, [], [];
      hide Underway, Finished, Pool.Valid;
      while !over && g.attempt <= g.maxAttempts
        invariant pool.Valid() && upstream.calls == old(upstream.calls) + made && old(upstream.clock) <= upstream.clock
        invariant picks != [] ==> old(upstream.clock) <= picks[0].now
        invariant if over then Finished(r, failed, made, picks, ask, packet, pin, base, said)
                  else Underway(g, failed, made, picks, ask, packet, pin, base, said)
        invariant over && r.Cancelled? ==> upstream.cancelled
        invariant old(upstream.cancelled) && begin.attempt <= begin.maxAttempts ==>
          picks == [] && if over then r.Cancelled? else g == begin && upstream.cancelled
        invariant |made| <= MaxAttempts(options) + 1
        decreases !over, MaxAttempts(options) + 1 - |made|
      {
        over, g, r, failed, made, picks :=
          Advance(ask, packet, pin, g, base, said, failed, made, picks);
      }
      if !over {
        r := Refused;
        BudgetSpent(g, failed, made, picks, ask, packet, pin, base, said);
      }
    }

    /** A spent budget is a refusal. */
    lemma BudgetSpent(g: Progress, failed: bool, made: seq<Call>, picks: seq<Pick>, ask: Ask,
                      packet: bool, pin: Id, base: seq<Count>, said: seq<Saying>)
      requires Underway(g, failed, made, picks, ask, packet, pin, base, said) && g.attempt > g.maxAttempts
      ensures Finished(Refused, failed, made, picks, ask, packet, pin, base, said)
    {
      hide Going, Scheduled, Ended, Told, Uses, Verdicts, Sayings;
      BetweenTurns(pool.members, picks, made, ask, MaxAttempts(options), pin, g);
      ToldSoFar(said, Sayings(pool.registry.trail), Refused, made, pin, options, packet);
    }

    /** The request is over, with all it promises of its answer. */
    ghost predicate Finished(r: Result, failed: bool, made: seq<Call>, picks: seq<Pick>, ask: Ask,
                             packet: bool, pin: Id, base: seq<Count>, said: seq<Saying>)
      reads pool.registry
    {
      && Scheduled(pool.members, picks, made, ask, MaxAttempts(options), pin)
      && Ended(r, picks, made, MaxAttempts(options), pin, |pool.members|)
      && Told(said, Sayings(pool.registry.trail), r, made, pin, options, packet)
      && pool.registry.counts == base + Uses(made, r) && (r.Conn? ==> (failed <==> |made| > 1))
    }

    /** The request goes on. */
    ghost predicate Underway(g: Progress, failed: bool, made: seq<Call>, picks: seq<Pick>, ask: Ask,
                             packet: bool, pin: Id, base: seq<Count>, said: seq<Saying>)
      reads pool.registry
    {
      && Going(pool.members, picks, made, ask, MaxAttempts(options), pin, g)
      && Sayings(pool.registry.trail) == said + Verdicts(made, pin, options, packet)
      && pool.registry.counts == base + Uses(made, Refused) && (failed <==> made != [])
    }

    /** One turn and, after a failed dial with attempts left, one look at the
        context. */
    method Advance(ask: Ask, packet: bool, pin: Id, g: Progress, ghost base: seq<Count>, ghost said: seq<Saying>,
                   failed0: bool,
                   ghost calls: seq<Call>, ghost picks: seq<Pick>)
      returns (over: bool, next: Progress, r: Result, failed: bool, ghost made: seq<Call>, ghost picked: seq<Pick>)
      requires pool.Valid() && ask.mode == pool.mode && g.attempt <= g.maxAttempts
      requires Underway(g, failed0, calls, picks, ask, packet, pin, base, said)
      modifies pool.registry`states, pool.registry`trail, pool.registry`counts, pool`rrCounter, pool`stickyMap, upstream
      ensures pool.Valid() && old(upstream.clock) <= upstream.clock
      ensures calls <= made && upstream.calls == old(upstream.calls) + made[|calls|..]
      ensures picks <= picked && (picks == [] && picked != [] ==> old(upstream.clock) <= picked[0].now)
      ensures |made| <= MaxAttempts(options) + 1 && (!over ==> |made| > |calls|)
      ensures old(upstream.cancelled) ==> over && r.Cancelled? && made == calls && picked == picks
      ensures if over then r.Cancelled? <==> upstream.cancelled else !upstream.cancelled
      ensures if over then Finished(r, failed, made, picked, ask, packet, pin, base, said)
              else Underway(next, failed, made, picked, ask, packet, pin, base, said)
    {
      hide Underway, Finished, Pool.Valid, Progress.AfterFailure;
      var a;
      a, made, picked := Turn(ask, packet, pin, g, base, said, failed0, calls, picks);
      over, next, r, failed := !a.Retry(), g, a.Answer(), failed0;
      if !over {
        next, failed := g.AfterFailure(a.member, |pool.members| <= 1), true;
        if next.attempt <= next.maxAttempts {
          over := CheckContext(next, failed, made, picked, ask, packet, pin, base, said);
          r := Cancelled;
        }
      }
    }

    /** Before another attempt, a cancelled request ends here. */
    method CheckContext(ghost g: Progress, ghost failed: bool, ghost made: seq<Call>, ghost picks: seq<Pick>,
                        ghost ask: Ask, ghost packet: bool, ghost pin: Id, ghost base: seq<Count>,
                        ghost said: seq<Saying>)
      returns (over: bool)
      requires Underway(g, failed, made, picks, ask, packet, pin, base, said)
      modifies upstream`cancelled
      ensures over == upstream.cancelled
      ensures over ==> Finished(Cancelled, failed, made, picks, ask, packet, pin, base, said)
    {
      hide Going, Scheduled, Ended, Told, Uses, Verdicts, Sayings;
      over := upstream.ContextErr();
      BetweenTurns(pool.members, picks, made, ask, MaxAttempts(options), pin, g);
      UsesWithout(made, Cancelled);
      ToldSoFar(said, Sayings(pool.registry.trail), Cancelled, made, pin, options, packet);
    }

    /** A request of a named session, from its lease to its answer, among others. The
        pin is read first, a TCP connection commits the node that gave it if the
        lease is still live then, and the lease is released whatever happens.
        `read` is the cache after the read, `mid` what others have made of it by
        the end. */
    method ServeSession(store: SessionStore.Store, lease: SessionStore.Lease, network: Option<Network>, packet: bool,
                        nodeName: Tag -> string)
      returns (r: Result, ghost made: seq<Call>, ghost picks: seq<Pick>, ghost pin: Id, ghost t0: int, ghost t1: int,
               ghost read: Cache.Cache, ghost mid: Cache.Cache, ghost live: bool)
      requires pool.Valid() && store.Valid() && store.Issued(lease) && !lease.done
      modifies pool.registry`states, pool.registry`trail, pool.registry`counts, pool`rrCounter, pool`stickyMap, upstream
      modifies store`entries, store`lru, store`max, store`ttl, store`epoch, store`gates, lease, lease.gate
      ensures pool.Valid() && store.Valid() && upstream.calls == old(upstream.calls) + made
      ensures old(upstream.clock) <= t0 <= t1 <= upstream.clock
      ensures lease.released && lease.gate.token == old(lease.gate.token) + 1
      // the read: it sees the live pin, and takes no live pin away
      ensures pin == if old(store.Live(lease)) && old(LivePin(store.View(), lease.key, t0))
                     then Id(old(store.entries)[lease.key].nodeID) else NO_ID
      ensures forall x :: old(LivePin(store.View(), x, t0)) ==>
        LivePin(read, x, t0) && read.entries[x] == old(store.entries)[x]
      // meanwhile: nobody else pins this session
      ensures Cache.Linked(mid) && (live ==> old(store.Live(lease)))
      ensures lease.key in mid.entries ==>
        lease.key in read.entries && SessionStore.SameButDeadline(mid.entries[lease.key], read.entries[lease.key])
      // the end: only a TCP connection under a live lease changes anything
      ensures store.View() ==
        Committing(mid, live && network == Some(TCP) && !packet, r, t1, lease.key, |made| > 1, nodeName)
      ensures !(r.Conn? && network == Some(TCP) && !packet && live) ==> store.View() == mid
      ensures r.Conn? && network == Some(TCP) && !packet && live ==>
        lease.key in store.entries && store.entries[lease.key].nodeID == r.member.identity.name
      ensures Scheduled(pool.members, picks, made, Ask(network, None, pool.mode), MaxAttempts(options), pin)
      ensures Ended(r, picks, made, MaxAttempts(options), pin, |pool.members|)
      ensures pool.registry.counts == old(pool.registry.counts) + Uses(made, r)
      ensures Told(old(Sayings(pool.registry.trail)), Sayings(pool.registry.trail), r, made, pin, options, packet)
      ensures picks != [] ==> t0 <= picks[0].now
      ensures WithinOptions(options, r, picks, made, pin, |pool.members|)
      ensures (r.Cancelled? ==> upstream.cancelled) && (old(upstream.cancelled) ==> r.Cancelled?)
    {
      var binding;
      binding, t0, read := ReadPin(store, lease);
      t1, pin := t0, PinOf(binding);
      var failed;
      hide Scheduled, Ended, Told, Uses, Sayings, Pool.Valid, Cache.Linked, Cache.Commit, Cache.Remove;
      r, failed, made, picks := Dial(network, packet, None, PinOf(binding));
      store.Others(lease);
      mid, live := store.View(), store.Live(lease);
      t1 := Settle(store, lease, network == Some(TCP) && !packet, r, failed, nodeName);
    }

    /** Reads the pin under the lease. */
    method ReadPin(store: SessionStore.Store, lease: SessionStore.Lease)
      returns (binding: Cache.Option<Cache.Binding>, ghost t: int, ghost read: Cache.Cache)
      requires store.Valid()
      modifies upstream`clock, store`entries, store`lru
      ensures store.Valid() && old(upstream.clock) <= t <= upstream.clock && read == store.View()
      ensures PinOf(binding) == if old(store.Live(lease)) && old(LivePin(store.View(), lease.key, t))
                                then Id(old(store.entries)[lease.key].nodeID) else NO_ID
      ensures forall x :: old(LivePin(store.View(), x, t)) ==>
        LivePin(read, x, t) && read.entries[x] == old(store.entries)[x]
    {
      var start := upstream.Now();
      t := start;
      hide Cache.Linked;
      binding := store.Binding(lease, start);
      read := store.View();
    }

    /** Commits a TCP connection under the lease and gives the lease back. */
    method Settle(store: SessionStore.Store, lease: SessionStore.Lease, tcp: bool, r: Result, failed: bool,
                  nodeName: Tag -> string)
      returns (ghost t: int)
      requires store.Valid() && !lease.done
      modifies upstream`clock, store`entries, store`lru, store`gates, lease, lease.gate
      ensures store.Valid() && old(upstream.clock) <= t <= upstream.clock
      ensures lease.released && lease.gate.token == old(lease.gate.token) + 1
      ensures store.View() ==
        Committing(old(store.View()), old(store.Live(lease)) && tcp, r, t, lease.key, failed, nodeName)
      ensures r.Conn? && tcp && old(store.Live(lease)) ==>
        lease.key in store.entries && store.entries[lease.key].nodeID == r.member.identity.name
    {
      var end := upstream.Now();
      t := end;
      hide Cache.Linked, Cache.Commit;
      if r.Conn? && tcp {
        Cache.CommitKeepsKey(store.View(), end, lease.key, Committed(r.member, failed, nodeName));
        store.Bind(lease, end, Committed(r.member, failed, nodeName));
      }
      store.Release(lease);
    }
  }

  // ---------------------------------------------------------------- affinity

  /** A pinned node that can serve is dialled first, whatever else could. */
  lemma PinnedNodeGoesFirst(ms: seq<Member>, picks: seq<Pick>, calls: seq<Call>, ask: Ask, n: nat,
                            pin: Id)
    requires Scheduled(ms, picks, calls, ask, n, pin) && picks != [] && pin != NO_ID
    requires Pinned(ms, picks[0].before, picks[0].now, ask.network, {}, pin) != []
    ensures picks[0].choice.Some? && picks[0].choice.value.identity == pin
    ensures calls != [] ==> calls[0].member.identity == pin
    ensures picks[0].choice == Some(Pinned(ms, picks[0].before, picks[0].now, ask.network, {}, pin)[0])
  {
    PinnedIsFit(ms, picks[0].before, picks[0].now, ask.network, {}, pin);
    var p := picks[0];
    assert calls[..0] == [];
    assert PickedAt(ms, picks, calls, 0, ask, n, pin);
    assert Tags([]) == {} && PinAfter([], pin) == pin;
    FitNotHopeless(ms, p.before, p.now, ask.network, Pinned(ms, p.before, p.now, ask.network, {}, pin)[0]);
  }

  /** A node is dialled twice in one request only when every member that can serve
      was already tried, or when the budget is a single dial. */
  lemma RepeatsOnlyWhenAllTried(ms: seq<Member>, picks: seq<Pick>, calls: seq<Call>, ask: Ask, n: nat,
                                pin: Id, i: nat, j: nat)
    requires Scheduled(ms, picks, calls, ask, n, pin) && |ms| > 1 && n > 1
    requires i < j < |calls| && calls[i].member.tag == calls[j].member.tag
    ensures forall m :: m in ms && Fit(m, picks[j].after, picks[j].now, ask.network) ==>
      exists x :: 0 <= x < j && calls[x].member.tag == m.tag
  {
    assert PickedAt(ms, picks, calls, j, ask, n, pin);
    assert calls[..j][i] == calls[i];
    forall m | m in ms && Fit(m, picks[j].after, picks[j].now, ask.network)
      ensures exists x :: 0 <= x < j && calls[x].member.tag == m.tag
    {
      assert m.tag in Tags(calls[..j]);
      var x :| 0 <= x < j && calls[..j][x].member.tag == m.tag;
      assert calls[x].member.tag == m.tag;
    }
  }

  /** The one dial beyond the configured budget follows a first failure of the
      pinned node on the last configured attempt of a pool with other members,
      and it avoids every member tried so far while another can serve. */
  lemma ExtraDialReroutes(ms: seq<Member>, picks: seq<Pick>, calls: seq<Call>, ask: Ask, n: nat,
                          pin: Id)
    requires n >= 1 && Scheduled(ms, picks, calls, ask, n, pin) && |calls| > n
    ensures |calls| == n + 1 && |ms| > 1 && PinFailsAt(calls, n, pin)
    ensures var m := calls[n].member;
      m.tag in Tags(calls[..n]) ==> forall x :: x in ms && Fit(x, picks[n].after, picks[n].now, ask.network) ==>
        x.tag in Tags(calls[..n])
  {
    assert PickedAt(ms, picks, calls, n, ask, n, pin);
    assert calls[..n][0] == calls[0];
  }

  /** A connection over TCP under a live lease pins the node that was dialled. The
      switch is counted exactly when a live pin named another node, with the
      reason the request gave. `c` is the cache it commits to, `mid` of the request
      that did. */
  lemma SuccessPinsDialled(c: Cache.Cache, clock: int, r: Result, t: int, k: Cache.Key, failed: bool,
                           nodeName: Tag -> string)
    requires Cache.Wf(c, clock) && clock <= t && r.Conn?
    ensures var d := Committing(c, true, r, t, k, failed, nodeName);
      && k in d.entries
      && d.entries[k].nodeID == r.member.identity.name && d.entries[k].expiresAt == t + c.ttl
      && (if LivePin(c, k, t) then
            if c.entries[k].nodeID == r.member.identity.name
            then d.entries[k].switchCount == c.entries[k].switchCount
                 && d.entries[k].lastReason == c.entries[k].lastReason
            else d.entries[k].switchCount == c.entries[k].switchCount + 1
                 && d.entries[k].lastReason == (if failed then "dial_failed" else "node_unavailable")
          else d.entries[k].switchCount == 0)
  {
    hide Cache.Wf, Cache.Commit, Cache.Linked;
    Cache.CommitPins(c, clock, t, k, Committed(r.member, failed, nodeName));
  }
}
