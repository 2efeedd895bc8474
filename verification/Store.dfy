/** The session store as the object it is: a map and a recency list updated in
    place, one gate object per key with in-flight dials, and leases that name
    their gate. Each method is one critical section (or, for `Release`, the
    three that run in sequence), proved against the values of BindingCache. */
module SessionStore {
  import opened BindingCache
  import opened TextOrder

  class SessionGate {
    /** Tokens in the one-slot channel. */
    var token: nat
    var refs: int
    var version: nat

    constructor ()
      ensures token == 1 && refs == 0 && version == 0
    {
      token, refs, version := 1, 0, 0;
    }
  }

  class Lease {
    const key: Key
    const gate: SessionGate
    const version: nat
    const epoch: nat
    /** The `once` of `Release`. */
    var done: bool
    var released: bool

    constructor (key: Key, gate: SessionGate, version: nat, epoch: nat)
      ensures this.key == key && this.gate == gate && this.version == version && this.epoch == epoch
      ensures !done && !released
    {
      this.key, this.gate, this.version, this.epoch := key, gate, version, epoch;
      done, released := false, false;
    }
  }

  class Store {
    var entries: map<Key, Binding>
    var lru: seq<Key>
    var gates: map<Key, SessionGate>
    var max: nat
    var ttl: int
    var epoch: nat

    ghost function View(): Cache
      reads this
    {
      Cache(entries, lru, max, ttl)
    }

    ghost predicate Valid()
      reads this
    {
      Linked(View()) && 0 < max && 0 < ttl
    }

    constructor (max: int, ttl: int)
      ensures Valid() && View() == Cache(map[], [], Limits(max, ttl).0, Limits(max, ttl).1)
      ensures gates == map[] && epoch == 0
      ensures this.max == (if 0 < max then max else 10000) && this.ttl == if 0 < ttl then ttl else 86_400_000_000_000
    {
      entries, lru, gates, epoch := map[], [], map[], 0;
      this.max, this.ttl := DEFAULT_MAX_BINDINGS, DEFAULT_IDLE_TTL;
      new;
      Configure(0, max, ttl);
    }

    method RemoveLocked(key: Key)
      requires Valid()
      modifies this`entries, this`lru
      ensures Valid() && View() == Remove(old(View()), key)
    {
      WithoutIsLinked(View(), key);
      entries, lru := entries - {key}, Without(lru, key);
    }

    method PruneLocked(now: int)
      requires Valid()
      modifies this`entries, this`lru
      ensures Valid() && View() == Prune(old(View()), now)
    {
      hide Linked, Prune, Remove;
      PruneTurn(View(), now);
      while lru != []
        invariant Valid() && Prune(View(), now) == Prune(old(View()), now)
        decreases |lru|
      {
        PruneTurn(View(), now);
        var key := lru[|lru| - 1];
        if now < entries[key].expiresAt {
          return;
        }
        RemoveLocked(key);
      }
      PruneTurn(View(), now);
    }

    method EnforceCapacityLocked()
      requires Valid()
      modifies this`entries, this`lru
      ensures Valid() && View() == EnforceCapacity(old(View()))
    {
      hide Linked, EnforceCapacity, Remove;
      CapacityTurn(View());
      while |entries| > max
        invariant Valid() && EnforceCapacity(View()) == EnforceCapacity(old(View())) && |entries| == |lru|
        decreases |lru|
      {
        CapacityTurn(View());
        RemoveLocked(lru[|lru| - 1]);
        CapacityTurn(View());
      }
      CapacityTurn(View());
    }

    method RebaseLocked()
      modifies this`entries
      ensures entries == Rebase(old(entries), ttl)
    {
      ghost var was := entries;
      var todo := entries.Keys;
      while todo != {}
        invariant todo <= was.Keys && entries.Keys == was.Keys
        invariant forall k :: k in was ==>
          entries[k] == if k in todo then was[k] else was[k].(expiresAt := was[k].lastSeen + ttl)
        decreases |todo|
      {
        var k :| k in todo;
        entries := entries[k := entries[k].(expiresAt := entries[k].lastSeen + ttl)];
        todo := todo - {k};
      }
    }

    method Configure(now: int, max: int, ttl: int)
      requires Valid()
      modifies this`entries, this`lru, this`max, this`ttl
      ensures Valid() && View() == BindingCache.Configure(old(View()), now, max, ttl)
      ensures this.max == (if 0 < max then max else 10000) && this.ttl == if 0 < ttl then ttl else 86_400_000_000_000
    {
      var max' := if max <= 0 then DEFAULT_MAX_BINDINGS else max;
      var ttl' := if ttl <= 0 then DEFAULT_IDLE_TTL else ttl;
      PruneLocked(now);
      this.max, this.ttl := max', ttl';
      RebaseLocked();
      assert Valid();
      PruneLocked(now);
      EnforceCapacityLocked();
    }

    /** The snapshot holds every binding that is live, in the order of their session
        names, and extends none. */
    method List(now: int) returns (bindings: seq<BindingCache.Binding>, ghost keys: seq<Key>)
      requires Valid()
      modifies this`entries, this`lru
      ensures Valid() && View() == Prune(old(View()), now)
      ensures Ascending(keys) && (forall k :: k in keys <==> k in entries)
      ensures |bindings| == |keys| && forall i :: 0 <= i < |keys| ==>
        keys[i] in entries && bindings[i] == entries[keys[i]]
    {
      hide Linked, Prune;
      PruneLocked(now);
      bindings, keys := [], [];
      var todo := entries.Keys;
      while todo != {}
        invariant Valid() && View() == Prune(old(View()), now)
        invariant Ascending(keys) && todo <= entries.Keys && (forall k :: k in keys <==> k in entries.Keys - todo)
        invariant |bindings| == |keys| && forall i :: 0 <= i < |keys| ==>
          keys[i] in entries && bindings[i] == entries[keys[i]]
        invariant forall i, k :: 0 <= i < |keys| && k in todo ==> Ahead(keys[i], k)
        decreases |todo|
      {
        ghost var least := SomeLeast(todo, (k: Key) => k.name);
        var k :| k in todo && forall x :: x in todo ==> Leq(k.name, x.name);
        hide Leq;
        bindings, keys, todo := bindings + [entries[k]], keys + [k], todo - {k};
      }
    }

    /** Unbinding drops the entry and makes every lease on the key's gate stale. */
    method Delete(now: int, key: Key) returns (existed: bool)
      requires Valid()
      modifies this`entries, this`lru, if key in gates then {gates[key]} else {}
      ensures Valid() && View() == BindingCache.Delete(old(View()), now, key)
      ensures existed == (key in Prune(old(View()), now).entries)
      ensures key in gates ==> gates[key].version == old(gates[key].version) + 1
      ensures key in gates ==> gates[key].refs == old(gates[key].refs) && gates[key].token == old(gates[key].token)
      ensures forall l: Lease | old(allocated(l)) ::
        old(Issued(l)) && key in gates && l.gate == gates[key] ==> !Live(l)
    {
      PruneLocked(now);
      if key in gates {
        gates[key].version := gates[key].version + 1;
      }
      existed := key in entries;
      RemoveLocked(key);
    }

    method Clear()
      requires Valid()
      modifies this`entries, this`lru, this`epoch
      ensures Valid() && View() == BindingCache.Clear(old(View())) && epoch == old(epoch) + 1
      ensures forall l: Lease | old(allocated(l)) :: old(Issued(l)) ==> !Live(l)
    {
      entries, lru := map[], [];
      epoch := epoch + 1;
    }

    /** Everybody else, between two critical sections of a lease: limits change,
        entries expire, sessions are unbound or all are cleared, and other sessions
        commit. Nobody else commits this lease's key, as
        `LeaseProtocol.NobodyElseCommits` shows of every interleaving; and unbinding
        it ends the lease. */
    method Others(lease: Lease)
      requires Valid() && Issued(lease)
      modifies this`entries, this`lru, this`max, this`ttl, this`epoch, lease.gate`version
      ensures Valid() && Issued(lease) && (Live(lease) ==> old(Live(lease)))
      ensures lease.key in entries ==>
        lease.key in old(entries) && SameButDeadline(entries[lease.key], old(entries)[lease.key])
    {
      var steps: int := *;
      steps := if steps < 0 then 0 else steps;
      hide Linked, BindingCache.Configure, Prune, Remove, EnforceCapacity, Push;
      for i := 0 to steps
        invariant Valid() && old(epoch) <= epoch && old(lease.gate.version) <= lease.gate.version
        invariant lease.key in entries ==>
          lease.key in old(entries) && SameButDeadline(entries[lease.key], old(entries)[lease.key])
      {
        OtherStep(lease);
      }
    }

    method OtherStep(lease: Lease)
      requires Valid()
      modifies this`entries, this`lru, this`max, this`ttl, this`epoch, lease.gate`version
      ensures Valid() && old(epoch) <= epoch && old(lease.gate.version) <= lease.gate.version
      ensures lease.key in entries ==>
        lease.key in old(entries) && SameButDeadline(entries[lease.key], old(entries)[lease.key])
    {
      var choice: int, now: int, key: Key := *, *, *;
      hide Linked;
      if choice == 0 {
        OtherLimits(now);
      } else if choice == 1 {
        Clear();
      } else if choice == 2 {
        if key == lease.key {
          lease.gate.version := lease.gate.version + 1;
        }
        OtherPrune(now);
        OtherRemove(key);
      } else if choice == 3 && key != lease.key {
        OtherCommit(now, key, lease.key);
      } else {
        OtherPrune(now);
      }
    }

    method OtherLimits(now: int)
      requires Valid()
      modifies this`entries, this`lru, this`max, this`ttl
      ensures Valid() && forall k :: k in entries ==> k in old(entries) && SameButDeadline(entries[k], old(entries)[k])
    {
      var newMax: int, newTtl: int := *, *;
      ConfigureIsLinked(View(), now, newMax, newTtl);
      hide Linked;
      Configure(now, newMax, newTtl);
    }

    method OtherPrune(now: int)
      requires Valid()
      modifies this`entries, this`lru
      ensures Valid() && forall k :: k in entries ==> k in old(entries) && entries[k] == old(entries)[k]
    {
      PruneIsLinked(View(), now);
      hide Linked;
      PruneLocked(now);
    }

    method OtherRemove(key: Key)
      requires Valid()
      modifies this`entries, this`lru
      ensures Valid() && entries == old(entries) - {key}
    {
      hide Linked;
      RemoveLocked(key);
    }

    /** A commit of another session's key. */
    method OtherCommit(now: int, key: Key, mine: Key)
      requires Valid() && key != mine
      modifies this`entries, this`lru
      ensures Valid() && (mine in entries ==> mine in old(entries) && entries[mine] == old(entries)[mine])
    {
      var pin: Pin := *;
      CommitIsLinked(View(), now, key, pin);
      hide Linked, Prune, Push, EnforceCapacity;
      PruneLocked(now);
      PushLocked(key, now, pin);
      EnforceCapacityLocked();
    }

    // ------------------------------------------------------------- leases

    /** First half of `Acquire`: find or create the gate and count a reference. */
    method BeginAcquire(key: Key) returns (gate: SessionGate)
      modifies this`gates, if key in gates then {gates[key]} else {}
      ensures key in gates && gates[key] == gate && gates == old(gates)[key := gate]
      ensures if key in old(gates)
              then gate == old(gates)[key] && gate.refs == old(gates[key].refs) + 1
                   && gate.token == old(gates[key].token) && gate.version == old(gates[key].version)
              else fresh(gate) && gate.refs == 1 && gate.token == 1 && gate.version == 0
    {
      if key in gates {
        gate := gates[key];
      } else {
        gate := new SessionGate();
        gates := gates[key := gate];
      }
      gate.refs := gate.refs + 1;
    }

    /** Second half of `Acquire`, after the token was received. */
    method FinishAcquire(key: Key, gate: SessionGate) returns (lease: Lease)
      ensures fresh(lease) && lease.key == key && lease.gate == gate
      ensures lease.version == gate.version && lease.epoch == epoch && !lease.done && !lease.released
      ensures Live(lease) && Issued(lease)
    {
      lease := new Lease(key, gate, gate.version, epoch);
    }

    /** `Acquire` of a session whose token is free. */
    method Acquire(key: Key) returns (lease: Lease)
      requires key in gates ==> gates[key].token > 0
      modifies this`gates, if key in gates then {gates[key]} else {}
      ensures fresh(lease) && lease.key == key && Live(lease) && Issued(lease) && !lease.done
      ensures key in gates && gates[key] == lease.gate && gates == old(gates)[key := lease.gate]
      ensures if key in old(gates)
              then lease.gate == old(gates)[key] && lease.gate.refs == old(gates[key].refs) + 1
                   && lease.gate.token == old(gates[key].token) - 1
              else fresh(lease.gate) && lease.gate.refs == 1 && lease.gate.token == 0
    {
      var gate := BeginAcquire(key);
      gate.token := gate.token - 1;
      lease := FinishAcquire(key, gate);
    }

    /** One session alone, from its lease to its release: the lease reads what the
        session is bound to, and what it commits binds it. */
    method UseSession(key: Key, now: int, commit: Option<Pin>) returns (was: Option<BindingCache.Binding>)
      requires Valid() && (key in gates ==> gates[key].token > 0)
      modifies this`gates, this`entries, this`lru, if key in gates then {gates[key]} else {}
      ensures Valid() && (key in gates ==> gates[key].token > 0)
      ensures key in gates ==> key in old(gates) && gates[key] == old(gates)[key]
      ensures was == if key in old(entries) && now < old(entries)[key].expiresAt then Some(old(entries)[key]) else None
      ensures commit.Some? ==>
        && key in entries && entries[key].nodeID == commit.value.nodeID && entries[key].expiresAt == now + ttl
      ensures commit.None? && was.Some? ==> View() == old(View())
    {
      hide Linked, BindingCache.Commit, Remove;
      var lease := Acquire(key);
      was := Binding(lease, now);
      if commit.Some? {
        CommitKeepsKey(View(), now, key, commit.value);
        Bind(lease, now, commit.value);
      }
      Release(lease);
    }

    /** What one lease of a session committed, the next one reads until it expires. */
    method PinAndReadBack(key: Key, now: int, pin: Pin, later: int) returns (bound: Option<BindingCache.Binding>)
      requires Valid() && (key in gates ==> gates[key].token > 0)
      modifies this`gates, this`entries, this`lru, if key in gates then {gates[key]} else {}
      ensures Valid()
      ensures bound.Some? <==> later < now + ttl
      ensures bound.Some? ==> bound.value.nodeID == pin.nodeID && bound.value.expiresAt == now + ttl
    {
      hide Linked;
      var _ := UseSession(key, now, Some(pin));
      bound := UseSession(key, later, None);
    }

    method ReleaseReference(key: Key, gate: SessionGate)
      modifies this`gates, gate`refs
      ensures gate.refs == old(gate.refs) - 1
      ensures gates == if gate.refs == 0 && key in old(gates) && old(gates)[key] == gate
                       then old(gates) - {key} else old(gates)
    {
      gate.refs := gate.refs - 1;
      if gate.refs == 0 && key in gates && gates[key] == gate {
        gates := gates - {key};
      }
    }

    /** Gives the lease back once; every further call changes nothing. */
    method Release(lease: Lease)
      modifies this`gates, lease, lease.gate`refs, lease.gate`token
      ensures lease.done && (lease.released == if old(lease.done) then old(lease.released) else true)
      ensures old(lease.done) ==> unchanged(this`gates, lease, lease.gate)
      ensures !old(lease.done) ==> !Live(lease)
      ensures !old(lease.done) ==>
        && lease.gate.refs == old(lease.gate.refs) - 1
        && lease.gate.token == old(lease.gate.token) + 1
        && gates == if lease.gate.refs == 0 && lease.key in old(gates) && old(gates)[lease.key] == lease.gate
                    then old(gates) - {lease.key} else old(gates)
    {
      if lease.done {
        return;
      }
      lease.done := true;
      lease.released := true;
      ReleaseReference(lease.key, lease.gate);
      lease.gate.token := lease.gate.token + 1;
    }

    /** A lease that may still read and commit. */
    predicate Live(lease: Lease)
      reads this, lease, lease.gate
    {
      !lease.released && lease.epoch == epoch && lease.version == lease.gate.version
    }

    /** A lease knows no later version or epoch than the store does. */
    predicate Issued(lease: Lease)
      reads this, lease, lease.gate
    {
      lease.epoch <= epoch && lease.version <= lease.gate.version
    }

    method Binding(lease: Lease, now: int) returns (b: Option<BindingCache.Binding>)
      requires Valid()
      modifies this`entries, this`lru
      ensures Valid()
      ensures if Live(lease) then (View(), b) == ReadPin(old(View()), now, lease.key)
              else View() == old(View()) && b == None
    {
      if !Live(lease) {
        return None;
      }
      if lease.key !in entries {
        return None;
      }
      if now >= entries[lease.key].expiresAt {
        RemoveLocked(lease.key);
        return None;
      }
      return Some(entries[lease.key]);
    }

    method Bind(lease: Lease, now: int, pin: Pin)
      requires Valid()
      modifies this`entries, this`lru
      ensures Valid()
      ensures View() == if Live(lease) then Commit(old(View()), now, lease.key, pin) else old(View())
    {
      if !Live(lease) {
        return;
      }
      PruneLocked(now);
      PushLocked(lease.key, now, pin);
      EnforceCapacityLocked();
    }

    method PushLocked(key: Key, now: int, pin: Pin)
      requires Valid()
      modifies this`entries, this`lru
      ensures View() == Push(old(View()), now, key, pin)
      ensures Valid()
    {
      PushIsLinked(View(), now, key, pin);
      ghost var pruned := lru;
      var entry;
      if key !in entries {
        entry := BindingCache.Binding(key, "", "", "", now, now, now, 0, "initial");
        lru := [key] + lru;
      } else {
        entry := entries[key];
        if entry.nodeID != pin.nodeID {
          var reason := if pin.reason == "" then "node_unavailable" else pin.reason;
          entry := entry.(switchCount := entry.switchCount + 1, lastReason := reason);
        }
      }
      entry := entry.(nodeID := pin.nodeID, nodeTag := pin.nodeTag, nodeName := pin.nodeName,
                      lastSeen := now, expiresAt := now + ttl);
      assert entry == Renewed(Lookup(entries, key), key, now, ttl, pin);
      entries := entries[key := entry];
      MoveToFront(lru, key, pruned);
      lru := [key] + Without(lru, key);
    }
  }

  /** Another session whose name comes first. */
  predicate Ahead(a: Key, b: Key) { a != b && Leq(a.name, b.name) }

  ghost predicate Ascending(keys: seq<Key>) {
    forall i, j :: 0 <= i < j < |keys| ==> Ahead(keys[i], keys[j])
  }

  ghost predicate SameButDeadline(a: BindingCache.Binding, b: BindingCache.Binding) {
    a == b.(expiresAt := a.expiresAt)
  }

  /** Moving a key to the front gives the same list whether it was just pushed
      or was already somewhere in it. */
  lemma MoveToFront(lru: seq<Key>, key: Key, pruned: seq<Key>)
    requires (key in pruned && lru == pruned) || (key !in pruned && lru == [key] + pruned)
    ensures Without(lru, key) == Without(pruned, key)
  {
    if key !in pruned {
      assert lru[0] == key && IndexOf(lru, key) == 0;
    }
  }
}
