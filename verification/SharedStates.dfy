/** The registry of per-node state that every pool shares. A state is a record
    named by its position, which stands for the pointer a member keeps: two
    members with one position share one state, and resetting the registry leaves
    the states that are still referred to untouched. */
module SharedStates {
  import opened Bans

  datatype Tag = Tag(name: string)

  datatype NodeState = NodeState(ban: Ban, active: int)

  /** One ban transition of one state, with the ban it found there. */
  datatype Note = Note(state: nat, what: Stamped, found: Ban)

  /** One change of a node's load. */
  datatype Count = In(state: nat) | Out(state: nat)

  class Registry {
    var byTag: map<Tag, nat>
    var states: seq<NodeState>
    /** What the requests modelled here did, next to all the others: the ban
        transitions they asked for, and the uses they counted in and out. */
    ghost var trail: seq<Note>
    ghost var counts: seq<Count>

    ghost predicate Valid()
      reads this
    {
      forall t :: t in byTag ==> byTag[t] < |states|
    }

    /** State `h` took transition `what`; nothing else changed. */
    twostate predicate Took(h: nat, what: Stamped)
      reads this
    {
      && h < |old(states)|
      && byTag == old(byTag)
      && states == old(states)[h := old(states)[h].(ban := Apply(old(states)[h].ban, what))]
      && trail == old(trail) + [Note(h, what, old(states)[h].ban)]
    }

    constructor ()
      ensures Valid() && byTag == map[] && states == [] && trail == [] && counts == []
    {
      byTag, states, trail, counts := map[], [], [], [];
    }

    /** The state of a tag, created clean when the tag is new. */
    method Acquire(tag: Tag) returns (h: nat)
      requires Valid()
      modifies this`byTag, this`states
      ensures Valid() && h < |states| && byTag == old(byTag)[tag := h]
      ensures if tag in old(byTag) then h == old(byTag)[tag] && states == old(states)
              else h == |old(states)| && states == old(states) + [NodeState(CLEAN, 0)]
    {
      if tag in byTag {
        h := byTag[tag];
      } else {
        h := |states|;
        states := states + [NodeState(CLEAN, 0)];
        byTag := byTag[tag := h];
      }
    }

    method Reset()
      modifies this`byTag
      ensures Valid() && byTag == map[]
    {
      byTag := map[];
    }

    /** Returns the failure count, whether the threshold was reached, and the end
        of the ban in force if one was imposed. */
    method RecordFailure(h: nat, kind: Kind, policy: Policy, now: int) returns (count: int, triggered: bool, until: int)
      requires h < |states|
      modifies this`states, this`trail
      ensures Took(h, Stamped(now, Failure(kind, policy)))
      ensures triggered <==> kind.Permanent? && count >= policy.threshold
      ensures count == old(states)[h].ban.failures + (if kind.Permanent? then 1 else 0)
      ensures until == if kind.Permanent? && !triggered then 0 else states[h].ban.until
    {
      trail := trail + [Note(h, Stamped(now, Failure(kind, policy)), states[h].ban)];
      var s := states[h].ban;
      triggered, until := false, 0;
      var imposed := false;
      if kind.Permanent? {
        s := s.(failures := s.failures + 1);
        count := s.failures;
        if s.failures >= policy.threshold {
          triggered, imposed, until := true, true, now + policy.blacklist;
          s := s.(failures := 0);
        }
      } else {
        count := s.failures;
        imposed, until := true, now + CooldownFor(policy, kind);
      }
      if imposed {
        var cooldown := !kind.Permanent?;
        if s.blacklisted && s.until > until {
          until, cooldown := s.until, s.cooldown;
        }
        s := s.(blacklisted := true, until := until, cooldown := cooldown);
      }
      states := states[h := states[h].(ban := s)];
    }

    method BlacklistNow(h: nat, policy: Policy, now: int) returns (until: int)
      requires h < |states|
      modifies this`states, this`trail
      ensures Took(h, Stamped(now, PinFailure(policy))) && until == states[h].ban.until
    {
      trail := trail + [Note(h, Stamped(now, PinFailure(policy)), states[h].ban)];
      until := now + policy.blacklist;
      var s := states[h].ban;
      if s.blacklisted && s.until > until {
        until := s.until;
      }
      s := s.(blacklisted := true, until := until, cooldown := false, failures := 0);
      states := states[h := states[h].(ban := s)];
    }

    method RecordSuccess(h: nat, now: int)
      requires h < |states|
      modifies this`states, this`trail
      ensures Took(h, Stamped(now, Success))
    {
      trail := trail + [Note(h, Stamped(now, Success), states[h].ban)];
      states := states[h := states[h].(ban := states[h].ban.(failures := 0))];
    }

    /** Answers whether the node is banned at `now`, clearing a ban that ran out. */
    method IsBlacklisted(h: nat, now: int) returns (banned: bool)
      requires h < |states|
      modifies this`states, this`trail
      ensures Took(h, Stamped(now, Check))
      ensures banned <==> Banned(old(states)[h].ban, now)
    {
      trail := trail + [Note(h, Stamped(now, Check), states[h].ban)];
      var s := states[h].ban;
      if s.blacklisted && now >= s.until {
        s := s.(blacklisted := false, until := 0, cooldown := false, manualUntil := 0);
      }
      states := states[h := states[h].(ban := s)];
      banned := s.blacklisted;
    }

    method ReleaseIfPermanent(h: nat, now: int) returns (released: bool)
      requires h < |states|
      modifies this`states, this`trail
      ensures Took(h, Stamped(now, Release))
      ensures released <==> !Parked(old(states)[h].ban, now)
    {
      trail := trail + [Note(h, Stamped(now, Release), states[h].ban)];
      var s := states[h].ban;
      released := !(now < s.manualUntil || (s.blacklisted && s.cooldown && now < s.until));
      if released {
        s := Ban(0, false, 0, false, 0);
      }
      states := states[h := states[h].(ban := s)];
    }

    method ForceRelease(h: nat, now: int)
      requires h < |states|
      modifies this`states, this`trail
      ensures Took(h, Stamped(now, Bans.ForceRelease))
    {
      trail := trail + [Note(h, Stamped(now, Bans.ForceRelease), states[h].ban)];
      states := states[h := states[h].(ban := Ban(0, false, 0, false, 0))];
    }

    /** An operator ban by tag; an unknown tag is ignored. */
    method BlacklistTag(tag: Tag, duration: int, now: int)
      requires Valid()
      modifies this`states, this`trail
      ensures if tag in byTag then Took(byTag[tag], Stamped(now, Manual(duration))) else unchanged(this)
    {
      if tag in byTag {
        var h := byTag[tag];
        trail := trail + [Note(h, Stamped(now, Manual(duration)), states[h].ban)];
        var until := now + duration;
        var s := states[h].ban;
        s := s.(blacklisted := true, until := until, cooldown := false, manualUntil := until, failures := 0);
        states := states[h := states[h].(ban := s)];
      }
    }

    method IncActive(h: nat)
      requires h < |states|
      modifies this`states, this`counts
      ensures states == old(states)[h := old(states)[h].(active := old(states)[h].active + 1)]
      ensures counts == old(counts) + [In(h)]
    {
      states := states[h := states[h].(active := states[h].active + 1)];
      counts := counts + [In(h)];
    }

    method DecActive(h: nat)
      requires h < |states|
      modifies this`states, this`counts
      ensures states == old(states)[h := old(states)[h].(active := old(states)[h].active - 1)]
      ensures counts == old(counts) + [Out(h)]
    {
      states := states[h := states[h].(active := states[h].active - 1)];
      counts := counts + [Out(h)];
    }

    /** Other requests and pools, between two critical sections: bans, releases and
        loads of any states change, and states are added. */
    method Others()
      requires Valid()
      modifies this`states
      ensures Valid() && |old(states)| <= |states|
    {
      var now: seq<NodeState> := *;
      if |states| <= |now| {
        states := now;
      }
    }
  }
}
