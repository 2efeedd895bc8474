/** The failure and ban state of one upstream node, as values. Several pools
    share it; every transition is one critical section. Zero is the zero time. */
module Bans {

  datatype Kind = Permanent | Transient | RateLimit

  datatype Policy = Policy(threshold: int, blacklist: int, transientCooldown: int, rateLimitCooldown: int)

  const DEFAULT_TRANSIENT_COOLDOWN: int := 60 * 1_000_000_000

  function CooldownFor(p: Policy, kind: Kind): (d: int)
    ensures d > 0
    ensures kind.RateLimit? && p.rateLimitCooldown > 0 ==> d == p.rateLimitCooldown
    ensures !(kind.RateLimit? && p.rateLimitCooldown > 0) ==>
      d == if p.transientCooldown > 0 then p.transientCooldown else 60_000_000_000
  {
    var transient := if p.transientCooldown <= 0 then DEFAULT_TRANSIENT_COOLDOWN else p.transientCooldown;
    if kind.RateLimit? && p.rateLimitCooldown > 0 then p.rateLimitCooldown else transient
  }

  datatype Ban = Ban(failures: int, blacklisted: bool, until: int, cooldown: bool, manualUntil: int)

  const CLEAN := Ban(0, false, 0, false, 0)

  // -------------------------------------------------------------- transitions

  /** The later of a new ban and one already running; a running ban that ends
      strictly later keeps its own nature. */
  function Impose(b: Ban, until: int, cooldown: bool): Ban {
    if b.blacklisted && b.until > until then b
    else b.(blacklisted := true, until := until, cooldown := cooldown)
  }

  function RecordFailure(b: Ban, kind: Kind, p: Policy, now: int): Ban {
    if kind.Permanent? then
      if b.failures + 1 >= p.threshold then Impose(b.(failures := 0), now + p.blacklist, false)
      else b.(failures := b.failures + 1)
    else Impose(b, now + CooldownFor(p, kind), true)
  }

  function BlacklistNow(b: Ban, p: Policy, now: int): Ban {
    Impose(b, now + p.blacklist, false).(cooldown := false, failures := 0)
  }

  function RecordSuccess(b: Ban): Ban { b.(failures := 0) }

  predicate Expired(b: Ban, now: int) { b.blacklisted && now >= b.until }

  /** Checking for a ban clears one that has run out. */
  function Settle(b: Ban, now: int): Ban {
    if Expired(b, now) then b.(blacklisted := false, until := 0, cooldown := false, manualUntil := 0) else b
  }

  predicate Banned(b: Ban, now: int) { b.blacklisted && now < b.until }

  /** An automatic release is refused by an operator ban and by a cooldown. */
  predicate Parked(b: Ban, now: int) {
    now < b.manualUntil || (b.blacklisted && b.cooldown && now < b.until)
  }

  function AutoRelease(b: Ban, now: int): Ban { if Parked(b, now) then b else CLEAN }

  function ManualBan(b: Ban, now: int, duration: int): Ban {
    Ban(0, true, now + duration, false, now + duration)
  }

  // --------------------------------------------------------------------- runs

  datatype Event =
    | Failure(kind: Kind, policy: Policy)
    | PinFailure(policy: Policy)
    | Success
    | Check
    | Release
    | ForceRelease
    | Manual(duration: int)

  /** `now` is the clock reading the transition used. */
  datatype Stamped = Stamped(now: int, event: Event)

  function Apply(b: Ban, s: Stamped): Ban {
    match s.event
    case Failure(kind, policy) => RecordFailure(b, kind, policy, s.now)
    case PinFailure(policy) => BlacklistNow(b, policy, s.now)
    case Success => RecordSuccess(b)
    case Check => Settle(b, s.now)
    case Release => AutoRelease(b, s.now)
    case ForceRelease => CLEAN
    case Manual(duration) => ManualBan(b, s.now, duration)
  }

  function After(b: Ban, run: seq<Stamped>): Ban
    decreases |run|
  {
    if run == [] then b else Apply(After(b, run[..|run| - 1]), run[|run| - 1])
  }

  predicate Automatic(e: Event) { !e.ForceRelease? && !e.Manual? }

  /** An operator ban does not end at the zero time or before. */
  predicate Sane(s: Stamped) { s.event.Manual? ==> 0 < s.now + s.event.duration }

  /** An operator ban is never weaker than the ban in force, and a cleared state
      is clean. */
  predicate BanOk(b: Ban) {
    && (b.manualUntil != 0 ==> b.blacklisted && 0 < b.manualUntil <= b.until)
    && (!b.blacklisted ==> b.until == 0 && !b.cooldown && b.manualUntil == 0)
  }

  lemma {:induction false} BanOkForever(run: seq<Stamped>)
    requires forall i :: 0 <= i < |run| ==> Sane(run[i])
    ensures BanOk(After(CLEAN, run))
    decreases |run|
  {
    if run != [] {
      BanOkForever(run[..|run| - 1]);
    }
  }

  /** Whatever failures, checks, successes and automatic releases follow, in any
      order and with any clock readings before its end, an operator ban stays. */
  lemma {:induction false} ManualBanOutlives(b: Ban, now: int, duration: int, run: seq<Stamped>, t: int)
    requires 0 < now + duration
    requires forall i :: 0 <= i < |run| ==> Automatic(run[i].event) && run[i].now < now + duration
    ensures var r := After(ManualBan(b, now, duration), run);
      && r.manualUntil == now + duration && r.blacklisted && r.until >= now + duration
      && (t < now + duration ==> Banned(r, t) && Parked(r, t))
    decreases |run|
  {
    if run != [] {
      ManualBanOutlives(b, now, duration, run[..|run| - 1], t);
    }
  }

  /** The count of permanent failures stays below the threshold. */
  lemma {:induction false} FailuresBelowThreshold(run: seq<Stamped>, threshold: int)
    requires 1 <= threshold
    requires forall i :: 0 <= i < |run| && run[i].event.Failure? ==> run[i].event.policy.threshold <= threshold
    ensures 0 <= After(CLEAN, run).failures < threshold
    decreases |run|
  {
    if run != [] {
      FailuresBelowThreshold(run[..|run| - 1], threshold);
    }
  }

  // --------------------------------------- the ban in force, from the history

  datatype Proposal = Proposal(end: int, cooldown: bool)

  function Demoted(ps: seq<Proposal>): seq<Proposal> {
    seq(|ps|, i requires 0 <= i < |ps| => ps[i].(cooldown := false))
  }

  predicate IsPermanent(s: Stamped) { s.event.Failure? && s.event.kind.Permanent? }

  /** Permanent failures from place `from` of the run on. */
  function Permanents(run: seq<Stamped>, from: nat): nat {
    if |run| <= from then 0
    else Permanents(run[..|run| - 1], from) + if IsPermanent(run[|run| - 1]) then 1 else 0
  }

  /** The place from which permanent failures count: after the last success, pin
      failure, operator ban, forced release or release that freed the node, and
      after the last failure that reached its threshold. */
  function CountedFrom(run: seq<Stamped>): (n: nat)
    ensures n <= |run|
    decreases |run|, 1
  {
    if run == [] then 0
    else
      var before, s := run[..|run| - 1], run[|run| - 1];
      match s.event
      case Failure(kind, policy) => if ReachesThreshold(before, s) then |run| else CountedFrom(before)
      case Check => CountedFrom(before)
      case Release => if Spared(before, s.now) then CountedFrom(before) else |run|
      case _ => |run|
  }

  predicate ReachesThreshold(before: seq<Stamped>, s: Stamped)
    decreases |before|, 2
  {
    IsPermanent(s) && Permanents(before, CountedFrom(before)) + 1 >= s.event.policy.threshold
  }

  /** The bans proposed since the state was last cleared, oldest first. A pin
      failure counts every running ban as a plain one from then on; an operator
      ban starts over; a check clears what has run out. */
  function Proposals(run: seq<Stamped>): seq<Proposal>
    decreases |run|, 1
  {
    if run == [] then []
    else
      var before, s := run[..|run| - 1], run[|run| - 1];
      var ps := Proposals(before);
      match s.event
      case Failure(kind, policy) =>
        if !kind.Permanent? then ps + [Proposal(s.now + CooldownFor(policy, kind), true)]
        else if ReachesThreshold(before, s) then ps + [Proposal(s.now + policy.blacklist, false)]
        else ps
      case PinFailure(policy) => Demoted(ps) + [Proposal(s.now + policy.blacklist, false)]
      case Manual(duration) => [Proposal(s.now + duration, false)]
      case Success => ps
      case Check => if AllOver(ps, s.now) then [] else ps
      case Release => if Spared(before, s.now) then ps else []
      case ForceRelease => []
  }

  predicate AllOver(ps: seq<Proposal>, now: int) { forall i :: 0 <= i < |ps| ==> ps[i].end <= now }

  /** The end of the operator ban in force; 0 if there is none. */
  function OperatorEnd(run: seq<Stamped>): int
    decreases |run|, 1
  {
    if run == [] then 0
    else
      var before, s := run[..|run| - 1], run[|run| - 1];
      match s.event
      case Manual(duration) => s.now + duration
      case ForceRelease => 0
      case Release => if Spared(before, s.now) then OperatorEnd(before) else 0
      case Check =>
        if Proposals(before) != [] && AllOver(Proposals(before), s.now) then 0 else OperatorEnd(before)
      case _ => OperatorEnd(before)
  }

  /** An automatic release spares a running operator ban and a running cooldown. */
  predicate Spared(run: seq<Stamped>, now: int)
    decreases |run|, 2
  {
    || now < OperatorEnd(run)
    || (var ps := Proposals(run); exists g :: 0 <= g < |ps| && Governs(ps, g) && ps[g].cooldown && now < ps[g].end)
  }

  /** No proposal ends later, and none after it ends as late. */
  predicate Governs(ps: seq<Proposal>, g: int) {
    && 0 <= g < |ps|
    && (forall j :: 0 <= j < |ps| ==> ps[j].end <= ps[g].end)
    && (forall j :: g < j < |ps| ==> ps[j].end < ps[g].end)
  }

  ghost predicate Explains(ps: seq<Proposal>, b: Ban) {
    if b.blacklisted then exists g :: Governs(ps, g) && b.until == ps[g].end && b.cooldown == ps[g].cooldown
    else ps == []
  }

  lemma ImposeExplained(ps: seq<Proposal>, b: Ban, end: int, cooldown: bool)
    requires Explains(ps, b)
    ensures Explains(ps + [Proposal(end, cooldown)], Impose(b, end, cooldown))
  {
    var ps' := ps + [Proposal(end, cooldown)];
    if b.blacklisted {
      var g :| Governs(ps, g) && b.until == ps[g].end && b.cooldown == ps[g].cooldown;
      assert Governs(ps', if b.until > end then g else |ps|);
    } else {
      assert Governs(ps', |ps|);
    }
  }

  lemma DemotedExplained(ps: seq<Proposal>, b: Ban)
    requires Explains(ps, b)
    ensures Explains(Demoted(ps), b.(cooldown := false))
  {
    if b.blacklisted {
      var g :| Governs(ps, g) && b.until == ps[g].end && b.cooldown == ps[g].cooldown;
      assert Governs(Demoted(ps), g);
    }
  }

  /** In every run, the ban in force ends at the latest end proposed since the
      last clear, and it is a cooldown exactly if the last proposal with that end
      is one. */
  lemma BanIsLatestProposal(run: seq<Stamped>)
    ensures Explains(Proposals(run), After(CLEAN, run))
  {
    HistoryExplains(run);
  }

  /** In every run, the count is that of the permanent failures since the place where
      counting last began. */
  lemma CountIsExact(run: seq<Stamped>)
    ensures After(CLEAN, run).failures == Permanents(run, CountedFrom(run))
  {
    HistoryExplains(run);
  }

  /** In every run, the node is banned exactly while some proposed ban still runs, and
      the operator's exactly until its end. */
  lemma BannedExactly(run: seq<Stamped>, t: int)
    ensures Banned(After(CLEAN, run), t) <==> !AllOver(Proposals(run), t)
    ensures After(CLEAN, run).manualUntil == OperatorEnd(run)
    ensures Parked(After(CLEAN, run), t) <==> Spared(run, t)
  {
    HistoryExplains(run);
    var ps, b := Proposals(run), After(CLEAN, run);
    if b.blacklisted {
      var g :| Governs(ps, g) && b.until == ps[g].end && b.cooldown == ps[g].cooldown;
    }
    SparedIsParked(run, b, t);
  }

  lemma SparedIsParked(run: seq<Stamped>, b: Ban, now: int)
    requires Explains(Proposals(run), b) && b.manualUntil == OperatorEnd(run)
    ensures Parked(b, now) <==> Spared(run, now)
  {
    var ps := Proposals(run);
    if b.blacklisted {
      var g :| Governs(ps, g) && b.until == ps[g].end && b.cooldown == ps[g].cooldown;
      forall h | Governs(ps, h) ensures h == g { GoverningIsUnique(ps, g, h); }
    }
  }

  ghost predicate Explained(run: seq<Stamped>, b: Ban) {
    && Explains(Proposals(run), b) && b.manualUntil == OperatorEnd(run)
    && b.failures == Permanents(run, CountedFrom(run))
  }

  lemma {:induction false} HistoryExplains(run: seq<Stamped>)
    ensures Explained(run, After(CLEAN, run))
    decreases |run|
  {
    if run != [] {
      var before := run[..|run| - 1];
      HistoryExplains(before);
      EventExplained(before, After(CLEAN, before), run[|run| - 1]);
      assert before + [run[|run| - 1]] == run;
    }
  }

  lemma PermanentsSnoc(run: seq<Stamped>, s: Stamped, from: nat)
    requires from <= |run|
    ensures Permanents(run + [s], from) == Permanents(run, from) + if IsPermanent(s) then 1 else 0
    ensures Permanents(run + [s], |run| + 1) == 0
  {
    assert (run + [s])[..|run|] == run;
  }

  lemma EventExplained(before: seq<Stamped>, b: Ban, s: Stamped)
    requires Explained(before, b)
    ensures Explained(before + [s], Apply(b, s))
  {
    hide Explained;
    if s.event.Failure? {
      FailureExplained(before, b, s);
    } else if s.event.Check? || s.event.Release? {
      ClearingExplained(before, b, s);
    } else {
      OtherExplained(before, b, s);
    }
  }

  lemma FailureExplained(before: seq<Stamped>, b: Ban, s: Stamped)
    requires Explained(before, b) && s.event.Failure?
    ensures Explained(before + [s], Apply(b, s))
  {
    var run, ps, policy := before + [s], Proposals(before), s.event.policy;
    assert run[..|before|] == before && run[|before|] == s;
    PermanentsSnoc(before, s, CountedFrom(before));
    if !IsPermanent(s) {
      ImposeExplained(ps, b, s.now + CooldownFor(policy, s.event.kind), true);
    } else if ReachesThreshold(before, s) {
      ImposeExplained(ps, b.(failures := 0), s.now + policy.blacklist, false);
    }
  }

  lemma ClearingExplained(before: seq<Stamped>, b: Ban, s: Stamped)
    requires Explained(before, b) && (s.event.Check? || s.event.Release?)
    ensures Explained(before + [s], Apply(b, s))
  {
    var run, ps := before + [s], Proposals(before);
    assert run[..|before|] == before && run[|before|] == s;
    PermanentsSnoc(before, s, CountedFrom(before));
    if s.event.Release? {
      SparedIsParked(before, b, s.now);
      assert Parked(b, s.now) ==> Proposals(run) == ps && OperatorEnd(run) == OperatorEnd(before);
      assert !Parked(b, s.now) ==> Proposals(run) == [] && OperatorEnd(run) == 0;
    } else {
      if b.blacklisted {
        var g :| Governs(ps, g) && b.until == ps[g].end && b.cooldown == ps[g].cooldown;
      }
      assert Expired(b, s.now) <==> ps != [] && AllOver(ps, s.now);
    }
  }

  lemma OtherExplained(before: seq<Stamped>, b: Ban, s: Stamped)
    requires Explained(before, b) && !s.event.Failure? && !s.event.Check? && !s.event.Release?
    ensures Explained(before + [s], Apply(b, s))
  {
    var run, ps := before + [s], Proposals(before);
    assert run[..|before|] == before && run[|before|] == s;
    PermanentsSnoc(before, s, CountedFrom(before));
    if s.event.PinFailure? {
      DemotedExplained(ps, b);
      ImposeExplained(Demoted(ps), b.(cooldown := false), s.now + s.event.policy.blacklist, false);
      hide Demoted, Explains, Permanents;
    } else if s.event.Manual? {
      assert Governs([Proposal(s.now + s.event.duration, false)], 0);
      hide Permanents;
    }
  }

  /** As many permanent failures in a row as the threshold asks for end in a ban for
      the whole duration, counted from the last one; with fewer there is none, and a
      success among them starts the count again. */
  lemma {:induction false} FailuresInARow(ns: seq<int>, p: Policy)
    requires 0 < |ns| <= p.threshold
    ensures var b := After(CLEAN, Row(ns, p));
      if |ns| < p.threshold then b == CLEAN.(failures := |ns|)
      else b == Ban(0, true, ns[|ns| - 1] + p.blacklist, false, 0)
    ensures var succeeded := After(CLEAN, Row(ns, p) + [Stamped(ns[|ns| - 1], Success)]);
      succeeded.failures == 0
    decreases |ns|
  {
    var front := ns[..|ns| - 1];
    if front != [] {
      FailuresInARow(front, p);
    }
    assert Row(ns, p)[..|ns| - 1] == Row(front, p);
    var all := Row(ns, p) + [Stamped(ns[|ns| - 1], Success)];
    assert all[..|ns|] == Row(ns, p);
  }

  function Row(ns: seq<int>, p: Policy): seq<Stamped> {
    seq(|ns|, i requires 0 <= i < |ns| => Stamped(ns[i], Failure(Permanent, p)))
  }

  lemma GoverningIsUnique(ps: seq<Proposal>, g: int, h: int)
    requires Governs(ps, g) && Governs(ps, h)
    ensures g == h
  {
    assert ps[h].end <= ps[g].end && ps[g].end <= ps[h].end;
  }

  /** When an automatic release leaves a running ban in place: exactly while an
      operator ban runs or the governing proposal is a cooldown. */
  lemma ReleaseSparesExactly(run: seq<Stamped>, now: int, g: int)
    requires Governs(Proposals(run), g)
    ensures var b := After(CLEAN, run);
      && b.blacklisted
      && (now < b.until ==>
            (AutoRelease(b, now).blacklisted <==> now < b.manualUntil || Proposals(run)[g].cooldown))
  {
    BanIsLatestProposal(run);
    hide After, Proposals;
    var b := After(CLEAN, run);
    var h :| Governs(Proposals(run), h) && b.until == Proposals(run)[h].end && b.cooldown == Proposals(run)[h].cooldown;
    GoverningIsUnique(Proposals(run), g, h);
  }

  /** A running cooldown is not always spared: here a pin failure during a rate
      limit of 500 lets an automatic release free the node after 20. */
  lemma CooldownCanBeReleased()
    ensures var p := Policy(3, 100, 60, 500);
      var limited := Stamped(1, Failure(RateLimit, p));
      var pinned := Stamped(10, PinFailure(p));
      && Parked(After(CLEAN, [limited]), 20)
      && After(CLEAN, [limited, pinned]).until == 501
      && AutoRelease(After(CLEAN, [limited, pinned]), 20) == CLEAN
  {
    var p := Policy(3, 100, 60, 500);
    var limited := Stamped(1, Failure(RateLimit, p));
    var pinned := Stamped(10, PinFailure(p));
    assert [limited, pinned][..1] == [limited];
    assert [limited][..0] == [];
    assert After(CLEAN, [limited]) == Ban(0, true, 501, true, 0);
  }
}
