/** The binding cache of the session store as values: a map of bindings and the
    recency list that orders its keys, most recently committed first. Every
    operation here is the effect of one critical section of the store. */
module BindingCache {

  /** A session name. */
  datatype Key = Key(name: string)

  const DEFAULT_MAX_BINDINGS: nat := 10000
  const DEFAULT_IDLE_TTL: int := 24 * 3600 * 1_000_000_000

  datatype Option<+T> = None | Some(value: T)

  datatype Binding = Binding(
    id: Key, nodeID: string, nodeTag: string, nodeName: string,
    createdAt: int, lastSeen: int, expiresAt: int,
    switchCount: nat, lastReason: string)

  datatype Cache = Cache(entries: map<Key, Binding>, lru: seq<Key>, max: nat, ttl: int)

  /** What a successful dial commits. */
  datatype Pin = Pin(nodeID: string, nodeTag: string, nodeName: string, reason: string)

  // ---------------------------------------------------------------- structure

  ghost predicate NoDup(s: seq<Key>) {
    forall i, j :: 0 <= i < j < |s| ==> s[i] != s[j]
  }

  /** The list and the map hold the same keys, each key once. */
  ghost predicate Linked(c: Cache) {
    && NoDup(c.lru)
    && (forall i :: 0 <= i < |c.lru| ==> c.lru[i] in c.entries)
    && (forall k :: k in c.entries ==> k in c.lru)
  }

  ghost predicate Sorted(lru: seq<Key>, entries: map<Key, Binding>) {
    forall i, j :: 0 <= i < j < |lru| && lru[i] in entries && lru[j] in entries ==>
      entries[lru[i]].lastSeen >= entries[lru[j]].lastSeen
  }

  ghost predicate Stamped(entries: map<Key, Binding>, ttl: int, clock: int) {
    forall k :: k in entries ==>
      && entries[k].id == k
      && entries[k].createdAt <= entries[k].lastSeen <= clock
      && entries[k].expiresAt == entries[k].lastSeen + ttl
  }

  /** What every operation keeps under a monotone clock, capacity aside. */
  ghost predicate Ordered(c: Cache, clock: int) {
    && Linked(c) && 0 < c.max && 0 < c.ttl
    && Stamped(c.entries, c.ttl, clock) && Sorted(c.lru, c.entries)
  }

  ghost predicate Wf(c: Cache, clock: int) {
    Ordered(c, clock) && |c.lru| <= c.max
  }

  function IndexOf(s: seq<Key>, k: Key): (i: nat)
    requires k in s
    ensures i < |s| && s[i] == k
  {
    if s[0] == k then 0 else 1 + IndexOf(s[1..], k)
  }

  function Without(s: seq<Key>, k: Key): seq<Key> {
    if k in s then s[..IndexOf(s, k)] + s[IndexOf(s, k) + 1..] else s
  }

  function Remove(c: Cache, k: Key): Cache {
    c.(entries := c.entries - {k}, lru := Without(c.lru, k))
  }

  /** The cache with only its `n` front keys. */
  function Keep(c: Cache, n: nat): Cache
    requires n <= |c.lru|
  {
    c.(entries := map k | k in c.entries && k in c.lru[..n] :: c.entries[k], lru := c.lru[..n])
  }

  // --------------------------------------------------------------- operations

  /** How many front keys the tail-only prune leaves: it removes expired entries
      from the tail and stops at the first live one. */
  function LiveCount(lru: seq<Key>, entries: map<Key, Binding>, now: int): (n: nat)
    requires forall i :: 0 <= i < |lru| ==> lru[i] in entries
    ensures n <= |lru|
    ensures n > 0 ==> now < entries[lru[n - 1]].expiresAt
    ensures forall i :: n <= i < |lru| ==> entries[lru[i]].expiresAt <= now
  {
    if lru == [] || now < entries[lru[|lru| - 1]].expiresAt then |lru|
    else LiveCount(lru[..|lru| - 1], entries, now)
  }

  function Prune(c: Cache, now: int): Cache
    requires Linked(c)
  {
    Keep(c, LiveCount(c.lru, c.entries, now))
  }

  function EnforceCapacity(c: Cache): Cache {
    Keep(c, Least(|c.lru|, c.max))
  }

  function Least(a: nat, b: nat): nat { if a <= b then a else b }

  function Rebase(entries: map<Key, Binding>, ttl: int): map<Key, Binding> {
    map k | k in entries :: entries[k].(expiresAt := entries[k].lastSeen + ttl)
  }

  /** Non-positive limits select the defaults. */
  function Limits(max: int, ttl: int): (nat, int) {
    (if max <= 0 then DEFAULT_MAX_BINDINGS else max, if ttl <= 0 then DEFAULT_IDLE_TTL else ttl)
  }

  function Configure(c: Cache, now: int, max: int, ttl: int): Cache
    requires Linked(c)
  {
    var (max', ttl') := Limits(max, ttl);
    var p := Prune(c, now);
    KeepIsLinked(c, |p.lru|);
    EnforceCapacity(Prune(Cache(Rebase(p.entries, ttl'), p.lru, max', ttl'), now))
  }

  function Delete(c: Cache, now: int, k: Key): Cache
    requires Linked(c)
  {
    Remove(Prune(c, now), k)
  }

  function Clear(c: Cache): Cache {
    c.(entries := map[], lru := [])
  }

  /** A lease's read: an expired entry of this key is dropped, nothing else moves. */
  function ReadPin(c: Cache, now: int, k: Key): (Cache, Option<Binding>) {
    if k !in c.entries then (c, None)
    else if now < c.entries[k].expiresAt then (c, Some(c.entries[k]))
    else (Remove(c, k), None)
  }

  function Renewed(prior: Option<Binding>, k: Key, now: int, ttl: int, pin: Pin): Binding {
    var base :=
      match prior
      case None => Binding(k, "", "", "", now, now, now, 0, "initial")
      case Some(b) =>
        if b.nodeID == pin.nodeID then b
        else b.(switchCount := b.switchCount + 1,
                lastReason := if pin.reason == "" then "node_unavailable" else pin.reason);
    base.(nodeID := pin.nodeID, nodeTag := pin.nodeTag, nodeName := pin.nodeName,
          lastSeen := now, expiresAt := now + ttl)
  }

  function Lookup(entries: map<Key, Binding>, k: Key): Option<Binding> {
    if k in entries then Some(entries[k]) else None
  }

  /** The list and map right after a commit, before the capacity check. */
  function Push(p: Cache, now: int, k: Key, pin: Pin): Cache {
    p.(entries := p.entries[k := Renewed(Lookup(p.entries, k), k, now, p.ttl, pin)],
       lru := [k] + Without(p.lru, k))
  }

  function Commit(c: Cache, now: int, k: Key, pin: Pin): Cache
    requires Linked(c)
  {
    EnforceCapacity(Push(Prune(c, now), now, k, pin))
  }

  // ------------------------------------------------------------ list lemmas

  lemma KeepIsLinked(c: Cache, n: nat)
    requires Linked(c) && n <= |c.lru|
    ensures Linked(Keep(c, n))
  {}

  lemma TakeLess(lru: seq<Key>, n: nat)
    requires NoDup(lru) && 0 < n <= |lru|
    ensures forall k :: k in lru[..n] <==> k in lru[..n - 1] || k == lru[n - 1]
    ensures lru[n - 1] !in lru[..n - 1]
  {
    assert lru[..n] == lru[..n - 1] + [lru[n - 1]];
  }

  /** Dropping one more key from the tail. */
  lemma KeepLess(c: Cache, n: nat)
    requires NoDup(c.lru) && 0 < n <= |c.lru|
    ensures Keep(c, n - 1).entries == Keep(c, n).entries - {c.lru[n - 1]}
    ensures Keep(c, n - 1).lru == Keep(c, n).lru[..n - 1]
  {
    TakeLess(c.lru, n);
    hide NoDup;
  }

  /** Removing the tail key is dropping one key from the tail. */
  lemma RemoveTail(c: Cache, n: nat)
    requires Linked(c) && 0 < n <= |c.lru|
    ensures |Keep(c, n).lru| == n && Keep(c, n).lru[n - 1] == c.lru[n - 1]
    ensures Remove(Keep(c, n), c.lru[n - 1]) == Keep(c, n - 1) && |Keep(c, n - 1).lru| == n - 1
  {
    KeepLess(c, n);
    var l := c.lru[..n];
    assert l[n - 1] == c.lru[n - 1] && l[..n - 1] == c.lru[..n - 1];
    assert IndexOf(l, l[n - 1]) == n - 1;
    assert Without(l, l[n - 1]) == l[..n - 1];
  }

  lemma KeepAll(c: Cache)
    requires Linked(c)
    ensures Keep(c, |c.lru|) == c
  {
    assert c.lru[..|c.lru|] == c.lru;
  }

  /** `r` holds some of the keys of `c`, front first, with the same content. */
  ghost predicate PartOf(r: Cache, c: Cache) {
    && r.lru <= c.lru
    && (forall k :: k in r.entries ==>
          && k in c.entries
          && r.entries[k] == c.entries[k].(expiresAt := r.entries[k].expiresAt))
  }

  lemma PartOfTrans(a: Cache, b: Cache, c: Cache)
    requires PartOf(a, b) && PartOf(b, c)
    ensures PartOf(a, c)
  {}

  lemma PruneIsLinked(c: Cache, now: int)
    requires Linked(c)
    ensures Linked(Prune(c, now)) && PartOf(Prune(c, now), c)
    ensures forall k :: k in Prune(c, now).entries ==> Prune(c, now).entries[k] == c.entries[k]
  {
    KeepIsLinked(c, LiveCount(c.lru, c.entries, now));
  }

  lemma CapacityIsLinked(c: Cache)
    requires Linked(c)
    ensures Linked(EnforceCapacity(c)) && PartOf(EnforceCapacity(c), c)
    ensures forall k :: k in EnforceCapacity(c).entries ==> EnforceCapacity(c).entries[k] == c.entries[k]
  {
    KeepIsLinked(c, Least(|c.lru|, c.max));
  }

  lemma RebaseIsLinked(p: Cache, max: nat, ttl: int)
    requires Linked(p)
    ensures Linked(Cache(Rebase(p.entries, ttl), p.lru, max, ttl))
    ensures PartOf(Cache(Rebase(p.entries, ttl), p.lru, max, ttl), p)
  {}

  /** Neither limits nor prunes add a key or change what an entry holds, its
      deadline aside. */
  lemma ConfigureIsLinked(c: Cache, now: int, max: int, ttl: int)
    requires Linked(c)
    ensures Linked(Configure(c, now, max, ttl)) && PartOf(Configure(c, now, max, ttl), c)
  {
    var max', ttl' := Limits(max, ttl).0, Limits(max, ttl).1;
    var p := Prune(c, now);
    PruneIsLinked(c, now);
    var q := Cache(Rebase(p.entries, ttl'), p.lru, max', ttl');
    RebaseIsLinked(p, max', ttl');
    var r := Prune(q, now);
    PruneIsLinked(q, now);
    CapacityIsLinked(r);
    assert Configure(c, now, max, ttl) == EnforceCapacity(r);
    hide *;
    PartOfTrans(EnforceCapacity(r), r, q);
    PartOfTrans(EnforceCapacity(r), q, p);
    PartOfTrans(EnforceCapacity(r), p, c);
  }

  lemma CommitIsLinked(c: Cache, now: int, k: Key, pin: Pin)
    requires Linked(c)
    ensures var r, p := Commit(c, now, k, pin), Prune(c, now);
      && Linked(r)
      && (forall x :: x in r.entries && x != k ==> x in c.entries && r.entries[x] == c.entries[x])
      && (k in r.entries ==> r.entries[k] == Renewed(Lookup(p.entries, k), k, now, c.ttl, pin))
  {
    var p := Prune(c, now);
    PruneIsLinked(c, now);
    PushIsLinked(p, now, k, pin);
    CapacityIsLinked(Push(p, now, k, pin));
  }

  /** The map and the list have the same size. */
  lemma {:induction false} SizesAgree(c: Cache)
    requires Linked(c)
    ensures |c.entries| == |c.lru|
  {
    assert c.entries.Keys == set k | k in c.lru;
    DistinctSize(c.lru);
  }

  lemma {:induction false} DistinctSize(lru: seq<Key>)
    requires NoDup(lru)
    ensures |set k | k in lru| == |lru|
  {
    if lru != [] {
      var n := |lru| - 1;
      TakeLess(lru, n + 1);
      DistinctSize(lru[..n]);
      assert lru[..n + 1] == lru;
      assert (set k | k in lru) == (set k | k in lru[..n]) + {lru[n]};
    }
  }

  function Last(c: Cache): Key
    requires c.lru != []
  {
    c.lru[|c.lru| - 1]
  }

  lemma KeepKeep(c: Cache, n: nat, m: nat)
    requires m <= n <= |c.lru|
    ensures Keep(Keep(c, n), m) == Keep(c, m)
  {
    assert c.lru[..n][..m] == c.lru[..m];
    assert forall k :: k in c.lru[..m] ==> k in c.lru[..n];
  }

  lemma LiveCountTake(lru: seq<Key>, n: nat, e: map<Key, Binding>, e': map<Key, Binding>, now: int)
    requires n <= |lru| && forall i :: 0 <= i < |lru| ==> lru[i] in e
    requires forall i :: 0 <= i < n ==> lru[i] in e' && e'[lru[i]] == e[lru[i]]
    requires forall i :: n <= i < |lru| ==> e[lru[i]].expiresAt <= now
    ensures LiveCount(lru[..n], e', now) == LiveCount(lru, e, now)
  {
    var m := LiveCount(lru[..n], e', now);
    LiveCountUnique(lru, e, now, m);
  }

  /** Dropping an expired tail does not change what a prune leaves. */
  lemma PruneOfKept(c: Cache, n: nat, now: int)
    requires Linked(c) && n <= |c.lru|
    requires forall i :: n <= i < |c.lru| ==> c.entries[c.lru[i]].expiresAt <= now
    ensures Linked(Keep(c, n)) && Prune(Keep(c, n), now) == Prune(c, now)
  {
    KeepIsLinked(c, n);
    LiveCountTake(c.lru, n, c.entries, Keep(c, n).entries, now);
    KeepKeep(c, n, LiveCount(c.lru, c.entries, now));
  }

  /** One turn of the prune loop. */
  lemma PruneTurn(c: Cache, now: int)
    requires Linked(c)
    ensures c.lru == [] ==> Prune(c, now) == c
    ensures c.lru != [] ==> Last(c) in c.entries && |Remove(c, Last(c)).lru| < |c.lru|
    ensures c.lru != [] && now < c.entries[Last(c)].expiresAt ==> Prune(c, now) == c
    ensures c.lru != [] && c.entries[Last(c)].expiresAt <= now ==>
      Linked(Remove(c, Last(c))) && Prune(Remove(c, Last(c)), now) == Prune(c, now)
  {
    KeepAll(c);
    if c.lru != [] {
      RemoveTail(c, |c.lru|);
      hide NoDup, Keep, Remove;
      if c.entries[Last(c)].expiresAt <= now {
        PruneOfKept(c, |c.lru| - 1, now);
      }
    }
  }

  /** One turn of the eviction loop. */
  lemma CapacityTurn(c: Cache)
    requires Linked(c)
    ensures |c.entries| == |c.lru|
    ensures |c.lru| <= c.max ==> EnforceCapacity(c) == c
    ensures |c.lru| > c.max ==>
      && Linked(Remove(c, Last(c))) && |Remove(c, Last(c)).lru| < |c.lru|
      && EnforceCapacity(Remove(c, Last(c))) == EnforceCapacity(c)
  {
    hide Linked, Remove, Without;
    SizesAgree(c);
    KeepAll(c);
    if |c.lru| > c.max {
      RemoveTail(c, |c.lru|);
      KeepIsLinked(c, |c.lru| - 1);
      KeepKeep(c, |c.lru| - 1, c.max);
    }
  }

  lemma LiveCountUnique(lru: seq<Key>, entries: map<Key, Binding>, now: int, n: nat)
    requires forall i :: 0 <= i < |lru| ==> lru[i] in entries
    requires n <= |lru| && (n > 0 ==> now < entries[lru[n - 1]].expiresAt)
    requires forall i :: n <= i < |lru| ==> entries[lru[i]].expiresAt <= now
    ensures n == LiveCount(lru, entries, now)
  {}

  lemma WithoutSplits(s: seq<Key>, k: Key)
    requires NoDup(s) && k in s
    ensures var w, i := Without(s, k), IndexOf(s, k);
      && |w| == |s| - 1
      && (forall j :: 0 <= j < |w| ==> w[j] == if j < i then s[j] else s[j + 1])
  {}

  lemma WithoutNoDup(s: seq<Key>, k: Key)
    requires NoDup(s)
    ensures NoDup(Without(s, k)) && k !in Without(s, k)
    ensures forall x :: x in Without(s, k) ==> x in s
  {
    if k in s {
      WithoutSplits(s, k);
      var w := Without(s, k);
      forall j | 0 <= j < |w| ensures w[j] != k && w[j] in s {
        assert s[IndexOf(s, k)] == k;
      }
    }
  }

  lemma WithoutKeeps(s: seq<Key>, k: Key, x: Key)
    requires NoDup(s) && x in s && x != k
    ensures x in Without(s, k)
  {
    if k in s {
      WithoutSplits(s, k);
      var j :| 0 <= j < |s| && s[j] == x;
      var w := Without(s, k);
      assert x == if j < IndexOf(s, k) then w[j] else w[j - 1];
    }
  }

  lemma WithoutIsLinked(c: Cache, k: Key)
    requires Linked(c)
    ensures Linked(Remove(c, k))
    ensures k !in Without(c.lru, k) && NoDup([k] + Without(c.lru, k))
  {
    WithoutNoDup(c.lru, k);
    forall x | x in c.entries && x != k ensures x in Without(c.lru, k) { WithoutKeeps(c.lru, k, x); }
  }

  /** The reference for pruning: scan every entry, front to back. */
  function KeepLive(lru: seq<Key>, entries: map<Key, Binding>, now: int): seq<Key> {
    if lru == [] then []
    else if lru[0] in entries && now < entries[lru[0]].expiresAt
    then [lru[0]] + KeepLive(lru[1..], entries, now)
    else KeepLive(lru[1..], entries, now)
  }

  function LiveEntries(entries: map<Key, Binding>, now: int): map<Key, Binding> {
    map k | k in entries && now < entries[k].expiresAt :: entries[k]
  }

  lemma {:induction false} KeepLiveSplit(lru: seq<Key>, n: nat, entries: map<Key, Binding>, now: int)
    requires n <= |lru| && forall i :: 0 <= i < |lru| ==> lru[i] in entries
    requires forall i :: 0 <= i < |lru| ==> (i < n <==> now < entries[lru[i]].expiresAt)
    ensures KeepLive(lru, entries, now) == lru[..n]
  {
    if n > 0 {
      KeepLiveSplit(lru[1..], n - 1, entries, now);
      assert lru[..n] == [lru[0]] + lru[1..][..n - 1];
    } else if lru != [] {
      KeepLiveSplit(lru[1..], 0, entries, now);
    }
  }

  predicate LiveAt(c: Cache, now: int, i: nat)
    requires i < |c.lru|
  {
    c.lru[i] in c.entries && now < c.entries[c.lru[i]].expiresAt
  }

  /** No expired entry stands in front of a live one. */
  predicate LiveInFront(c: Cache, now: int) {
    forall i, j :: 0 <= i < j < |c.lru| && LiveAt(c, now, j) ==> LiveAt(c, now, i)
  }

  lemma FrontIsLive(c: Cache, now: int)
    requires Linked(c) && LiveInFront(c, now)
    ensures Prune(c, now).entries == LiveEntries(c.entries, now)
    ensures Prune(c, now).lru == KeepLive(c.lru, c.entries, now)
  {
    var n := LiveCount(c.lru, c.entries, now);
    assert n > 0 ==> LiveAt(c, now, n - 1);
    forall i | 0 <= i < |c.lru| ensures i < n <==> now < c.entries[c.lru[i]].expiresAt {
      assert i < n ==> LiveAt(c, now, i);
    }
    KeepLiveSplit(c.lru, n, c.entries, now);
    PrunedEntries(c, n, now);
  }

  /** The prune that stops at the first live tail entry removes exactly the expired
      entries if, and only if, none of them stands in front of a live one. */
  lemma PruneIsFilterExactly(c: Cache, now: int)
    requires Linked(c)
    ensures Prune(c, now).entries == LiveEntries(c.entries, now) <==> LiveInFront(c, now)
    ensures LiveInFront(c, now) ==> Prune(c, now).lru == KeepLive(c.lru, c.entries, now)
  {
    if LiveInFront(c, now) {
      FrontIsLive(c, now);
    } else {
      var i, j :| 0 <= i < j < |c.lru| && LiveAt(c, now, j) && !LiveAt(c, now, i);
      var n := LiveCount(c.lru, c.entries, now);
      assert j < n && c.lru[..n][i] == c.lru[i];
      assert c.lru[i] in Prune(c, now).entries && c.lru[i] !in LiveEntries(c.entries, now);
    }
  }

  /** In the store as it is kept, recency order is deadline order, so that holds. */
  lemma PruneIsFilter(c: Cache, clock: int, now: int)
    requires Ordered(c, clock)
    ensures Prune(c, now).entries == LiveEntries(c.entries, now)
    ensures Prune(c, now).lru == KeepLive(c.lru, c.entries, now)
  {
    forall i, j | 0 <= i < j < |c.lru| && LiveAt(c, now, j) ensures LiveAt(c, now, i) {
      assert c.entries[c.lru[i]].lastSeen >= c.entries[c.lru[j]].lastSeen;
    }
    FrontIsLive(c, now);
  }

  lemma PrunedEntries(c: Cache, n: nat, now: int)
    requires Linked(c) && n <= |c.lru|
    requires forall i :: 0 <= i < |c.lru| ==> (i < n <==> now < c.entries[c.lru[i]].expiresAt)
    ensures Keep(c, n).entries == LiveEntries(c.entries, now)
  {
    forall k | k in c.entries ensures k in c.lru[..n] <==> now < c.entries[k].expiresAt {
      var i :| 0 <= i < |c.lru| && c.lru[i] == k;
      if i < n {
        assert c.lru[..n][i] == k;
      }
    }
  }

  /** It is the recency order that makes it hold: here only that is missing, and
      the expired entry in front of a live one survives. */
  lemma PruneNeedsOrder()
    ensures
      var a, b := Key("a"), Key("b");
      var dead := Binding(a, "n", "n", "n", 0, 0, 9, 0, "initial");
      var live := Binding(b, "n", "n", "n", 5, 5, 14, 0, "initial");
      var c := Cache(map[a := dead, b := live], [a, b], 9, 9);
      Linked(c) && Stamped(c.entries, c.ttl, 10) && !LiveInFront(c, 10)
        && Prune(c, 10).entries != LiveEntries(c.entries, 10)
  {
    var a, b := Key("a"), Key("b");
    assert a.name[0] != b.name[0];
    var dead := Binding(a, "n", "n", "n", 0, 0, 9, 0, "initial");
    var live := Binding(b, "n", "n", "n", 5, 5, 14, 0, "initial");
    var c := Cache(map[a := dead, b := live], [a, b], 9, 9);
    assert c.lru[0] == a && c.lru[1] == b;
    assert LiveAt(c, 10, 1) && !LiveAt(c, 10, 0);
    PruneIsFilterExactly(c, 10);
  }

  // ------------------------------------------------------- what stays true

  /** Dropping entries from the tail keeps the order. */
  lemma KeepIsOrdered(c: Cache, n: nat, clock: int)
    requires Ordered(c, clock) && n <= |c.lru|
    ensures Ordered(Keep(c, n), clock)
  {
    KeepIsLinked(c, n);
    var r := Keep(c, n);
    forall i, j | 0 <= i < j < |r.lru| && r.lru[i] in r.entries && r.lru[j] in r.entries
      ensures r.entries[r.lru[i]].lastSeen >= r.entries[r.lru[j]].lastSeen
    {
      assert r.lru[i] == c.lru[i] && r.lru[j] == c.lru[j];
    }
  }

  lemma PruneIsOrdered(c: Cache, clock: int, now: int)
    requires Ordered(c, clock)
    ensures Ordered(Prune(c, now), clock) && |Prune(c, now).lru| <= |c.lru|
  {
    KeepIsOrdered(c, LiveCount(c.lru, c.entries, now), clock);
  }

  lemma CapacityGivesWf(c: Cache, clock: int)
    requires Ordered(c, clock)
    ensures Wf(EnforceCapacity(c), clock)
  {
    KeepIsOrdered(c, Least(|c.lru|, c.max), clock);
  }

  lemma LaterClock(c: Cache, clock: int, now: int)
    requires Ordered(c, clock) && clock <= now
    ensures Ordered(c, now)
  {}

  /** Where position `i` of the shorter list was. */
  function Was(x: nat, i: nat): nat { if i < x then i else i + 1 }

  lemma WithoutAt(s: seq<Key>, k: Key, i: nat)
    requires NoDup(s) && k in s && i < |Without(s, k)|
    ensures Was(IndexOf(s, k), i) < |s| && Without(s, k)[i] == s[Was(IndexOf(s, k), i)]
  {
    WithoutSplits(s, k);
  }

  lemma SortedPair(lru: seq<Key>, k: Key, entries: map<Key, Binding>, i: nat, j: nat)
    requires NoDup(lru) && Sorted(lru, entries) && k in lru && i < j < |Without(lru, k)|
    requires Without(lru, k)[i] in entries && Without(lru, k)[j] in entries
    ensures entries[Without(lru, k)[i]].lastSeen >= entries[Without(lru, k)[j]].lastSeen
  {
    WithoutAt(lru, k, i);
    WithoutAt(lru, k, j);
    hide NoDup, Without, IndexOf;
    var x := IndexOf(lru, k);
    assert Was(x, i) < Was(x, j);
  }

  lemma WithoutKeepsSorted(c: Cache, k: Key)
    requires Linked(c) && Sorted(c.lru, c.entries)
    ensures Sorted(Without(c.lru, k), c.entries)
  {
    if k in c.lru {
      var w := Without(c.lru, k);
      assert NoDup(c.lru);
      hide Linked, NoDup, Without;
      forall i, j | 0 <= i < j < |w| && w[i] in c.entries && w[j] in c.entries
        ensures c.entries[w[i]].lastSeen >= c.entries[w[j]].lastSeen
      {
        SortedPair(c.lru, k, c.entries, i, j);
      }
    }
  }

  lemma RemoveIsWf(c: Cache, clock: int, k: Key)
    requires Wf(c, clock)
    ensures Wf(Remove(c, k), clock)
  {
    WithoutIsLinked(c, k);
    WithoutKeepsSorted(c, k);
  }

  lemma PruneIsWf(c: Cache, clock: int, now: int)
    requires Wf(c, clock) && clock <= now
    ensures Wf(Prune(c, now), now)
  {
    PruneIsOrdered(c, clock, now);
  }

  lemma DeleteIsWf(c: Cache, clock: int, now: int, k: Key)
    requires Wf(c, clock) && clock <= now
    ensures Wf(Delete(c, now, k), now)
  {
    PruneIsWf(c, clock, now);
    RemoveIsWf(Prune(c, now), now, k);
  }

  lemma ReadPinIsWf(c: Cache, clock: int, now: int, k: Key)
    requires Wf(c, clock) && clock <= now
    ensures Wf(ReadPin(c, now, k).0, now)
  {
    RemoveIsWf(c, clock, k);
  }

  lemma RebaseIsOrdered(p: Cache, clock: int, max: nat, ttl: int)
    requires Ordered(p, clock) && 0 < ttl && 0 < max
    ensures Ordered(Cache(Rebase(p.entries, ttl), p.lru, max, ttl), clock)
  {}

  lemma ConfigureIsWf(c: Cache, clock: int, now: int, max: int, ttl: int)
    requires Ordered(c, clock) && clock <= now
    ensures Wf(Configure(c, now, max, ttl), now)
  {
    var max', ttl' := Limits(max, ttl).0, Limits(max, ttl).1;
    var p := Prune(c, now);
    PruneIsOrdered(c, clock, now);
    LaterClock(p, clock, now);
    RebaseIsOrdered(p, now, max', ttl');
    var q := Cache(Rebase(p.entries, ttl'), p.lru, max', ttl');
    PruneIsOrdered(q, now, now);
    CapacityGivesWf(Prune(q, now), now);
  }

  /** What a change of limits leaves, before the capacity check: every entry
      that is alive both under the old idle time and under the new one. */
  function Survivors(c: Cache, now: int, ttl: int): map<Key, Binding> {
    LiveEntries(Rebase(LiveEntries(c.entries, now), ttl), now)
  }

  function SurvivorList(c: Cache, now: int, ttl: int): seq<Key> {
    KeepLive(KeepLive(c.lru, c.entries, now), Rebase(LiveEntries(c.entries, now), ttl), now)
  }

  /** A change of limits keeps the newest `max` survivors, and nothing else. */
  lemma ConfigureKeepsSurvivors(c: Cache, clock: int, now: int, max: int, ttl: int)
    requires Wf(c, clock)
    ensures var (max', ttl') := Limits(max, ttl);
      Configure(c, now, max, ttl)
      == EnforceCapacity(Cache(Survivors(c, now, ttl'), SurvivorList(c, now, ttl'), max', ttl'))
  {
    var max', ttl' := Limits(max, ttl).0, Limits(max, ttl).1;
    PruneIsFilter(c, clock, now);
    var p := Prune(c, now);
    PruneIsOrdered(c, clock, now);
    RebaseIsOrdered(p, clock, max', ttl');
    PruneIsFilter(Cache(Rebase(p.entries, ttl'), p.lru, max', ttl'), clock, now);
  }

  lemma SurvivorEntry(c: Cache, now: int, ttl: int, k: Key)
    requires k in Survivors(c, now, ttl)
    ensures k in c.entries && now < c.entries[k].expiresAt && now < c.entries[k].lastSeen + ttl
    ensures Survivors(c, now, ttl)[k] == c.entries[k].(expiresAt := c.entries[k].lastSeen + ttl)
  {}

  /** Changing the limits never revives an entry that had already expired. */
  lemma ConfigureNeverRevives(c: Cache, clock: int, now: int, max: int, ttl: int, k: Key)
    requires Wf(c, clock) && k in Configure(c, now, max, ttl).entries
    ensures k in c.entries && now < c.entries[k].expiresAt
    ensures var ttl' := Limits(max, ttl).1;
      && now < c.entries[k].lastSeen + ttl'
      && Configure(c, now, max, ttl).entries[k] == c.entries[k].(expiresAt := c.entries[k].lastSeen + ttl')
  {
    hide Configure, Wf, KeepLive, Survivors, Limits, SurvivorList;
    ConfigureKeepsSurvivors(c, clock, now, max, ttl);
    SurvivorEntry(c, now, Limits(max, ttl).1, k);
  }

  lemma PushIsLinked(p: Cache, now: int, k: Key, pin: Pin)
    requires Linked(p)
    ensures Linked(Push(p, now, k, pin))
  {
    hide Without, Renewed;
    WithoutIsLinked(p, k);
    var q, w := Push(p, now, k, pin), Without(p.lru, k);
    assert forall x :: x in w ==> x in Remove(p, k).entries;
    forall x | x in q.entries ensures x in q.lru {
      if x == k {
        assert q.lru[0] == k;
      } else {
        assert x in Remove(p, k).entries && x in w;
        var i :| 0 <= i < |w| && w[i] == x;
        assert q.lru[i + 1] == x;
      }
    }
  }

  /** What was just committed is never what the capacity check evicts. */
  lemma CommitKeepsKey(c: Cache, now: int, k: Key, pin: Pin)
    requires Linked(c) && 0 < c.max
    ensures var r := Commit(c, now, k, pin);
      k in r.entries && r.entries[k].nodeID == pin.nodeID && r.entries[k].expiresAt == now + c.ttl
  {
    var q := Push(Prune(c, now), now, k, pin);
    hide Linked, Prune, Without;
    assert q.lru[..Least(|q.lru|, q.max)][0] == k;
  }

  lemma FrontPair(w: seq<Key>, k: Key, was: map<Key, Binding>, entries: map<Key, Binding>, now: int, i: nat, j: nat)
    requires Sorted(w, was) && k in entries && entries[k].lastSeen == now
    requires forall x :: x in w && x in entries ==> x in was && entries[x] == was[x] && was[x].lastSeen <= now
    requires i < j <= |w| && ([k] + w)[i] in entries && ([k] + w)[j] in entries
    ensures entries[([k] + w)[i]].lastSeen >= entries[([k] + w)[j]].lastSeen
  {
    assert ([k] + w)[j] == w[j - 1];
    assert i > 0 ==> ([k] + w)[i] == w[i - 1];
  }

  lemma PushIsSorted(p: Cache, now: int, k: Key, pin: Pin)
    requires Ordered(p, now)
    ensures Sorted(Push(p, now, k, pin).lru, Push(p, now, k, pin).entries)
  {
    WithoutIsLinked(p, k);
    WithoutKeepsSorted(p, k);
    var w, q := Without(p.lru, k), Push(p, now, k, pin);
    assert q.entries[k].lastSeen == now;
    hide Linked, NoDup, Without, Renewed;
    forall i, j | 0 <= i < j < |q.lru| && q.lru[i] in q.entries && q.lru[j] in q.entries
      ensures q.entries[q.lru[i]].lastSeen >= q.entries[q.lru[j]].lastSeen
    {
      hide Sorted;
      FrontPair(w, k, p.entries, q.entries, now, i, j);
    }
  }

  lemma PushIsOrdered(p: Cache, now: int, k: Key, pin: Pin)
    requires Ordered(p, now)
    ensures Ordered(Push(p, now, k, pin), now)
  {
    PushIsLinked(p, now, k, pin);
    PushIsSorted(p, now, k, pin);
  }

  lemma CommitIsWf(c: Cache, clock: int, now: int, k: Key, pin: Pin)
    requires Wf(c, clock) && clock <= now
    ensures Wf(Commit(c, now, k, pin), now)
  {
    var p := Prune(c, now);
    PruneIsOrdered(c, clock, now);
    LaterClock(p, clock, now);
    PushIsOrdered(p, now, k, pin);
    CapacityGivesWf(Push(p, now, k, pin), now);
  }

  lemma TakeCons(k: Key, w: seq<Key>, n: nat)
    requires 0 < n
    ensures ([k] + w)[..Least(1 + |w|, n)] == [k] + w[..Least(|w|, n - 1)]
  {}

  /** A commit puts the key in front of the live ones and evicts only the least
      recently committed. */
  lemma CommitOrder(c: Cache, clock: int, now: int, k: Key, pin: Pin)
    requires Wf(c, clock)
    ensures
      var rest := Without(KeepLive(c.lru, c.entries, now), k);
      Commit(c, now, k, pin).lru == [k] + rest[..Least(|rest|, c.max - 1)]
  {
    PruneIsFilter(c, clock, now);
    TakeCons(k, Without(Prune(c, now).lru, k), c.max);
  }

  /** A commit pins what was dialled and leaves every other binding it keeps
      unchanged. */
  lemma CommitPins(c: Cache, clock: int, now: int, k: Key, pin: Pin)
    requires Wf(c, clock)
    ensures
      var r := Commit(c, now, k, pin);
      && k in r.entries
      && r.entries[k] == Renewed(Lookup(LiveEntries(c.entries, now), k), k, now, c.ttl, pin)
      && (forall x :: x in r.entries && x != k ==> x in LiveEntries(c.entries, now) && r.entries[x] == c.entries[x])
    ensures
      var b := Commit(c, now, k, pin).entries[k];
      && b.id == k && b.nodeID == pin.nodeID && b.nodeTag == pin.nodeTag && b.nodeName == pin.nodeName
      && b.lastSeen == now && b.expiresAt == now + c.ttl
      && (if k in c.entries && now < c.entries[k].expiresAt then
            var was := c.entries[k];
            && b.createdAt == was.createdAt
            && (if was.nodeID == pin.nodeID then b.switchCount == was.switchCount && b.lastReason == was.lastReason
                else b.switchCount == was.switchCount + 1
                     && b.lastReason == (if pin.reason != "" then pin.reason else "node_unavailable"))
          else b.createdAt == now && b.switchCount == 0 && b.lastReason == "initial")
  {
    PruneIsFilter(c, clock, now);
    CommitOrder(c, clock, now, k, pin);
    var r := Commit(c, now, k, pin);
    assert r.lru[0] == k;
  }
}
