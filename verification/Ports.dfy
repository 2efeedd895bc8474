/** Port assignment: which ports the other listeners hold, and the three passes
    that give every node its saved, its explicit or a fresh port. Node keys are
    opaque, and whether a port can be bound is an oracle asked once per port. */
module Ports {
  import opened TextOrder

  datatype Option<+T> = None | Some(value: T)

  datatype Key = Key(name: string)

  datatype Mode = PoolMode | MultiPort | Hybrid

  datatype Node = Node(key: Key, missingUri: bool, port: nat)

  const MAX_PORT := 65535
  const CLASH_PORT := 9092
  const GEOIP_PORT := 1221

  /** `managementPort` is what the management address says, 0 if it says none. */
  datatype Listeners = Listeners(mode: Mode, listener: nat, stickyEnabled: bool, sticky: nat,
                                 management: bool, managementPort: nat, geoip: bool, geoipPort: nat)

  // --------------------------------------------------------- reserved ports

  /** The sticky entry's port, as the final check fills it in; 0 when that fails. */
  function StickyPort(l: Listeners): nat {
    if l.sticky == 0 && l.listener < 65535 then l.listener + 1 else l.sticky
  }

  /** The port the GeoIP router will really listen on. */
  function RouterPort(l: Listeners): nat {
    var port := if l.geoipPort == 0 then 1221 else l.geoipPort;
    if port != l.listener then port
    else if l.listener != 1221 then 1221
    else l.listener + 1
  }

  /** The router and an unset sticky entry never share the listener's port; a port that
      was set and is not the listener's is kept. */
  lemma OtherPortsAreTheirOwn(l: Listeners)
    ensures RouterPort(l) != l.listener && (l.geoipPort !in {0, l.listener} ==> RouterPort(l) == l.geoipPort)
    ensures l.geoipPort in {0, l.listener} ==> RouterPort(l) == if l.listener == 1221 then 1222 else 1221
    ensures l.sticky != 0 ==> StickyPort(l) == l.sticky
    ensures l.sticky == 0 ==> StickyPort(l) == if l.listener < 65535 then l.listener + 1 else 0
  {}

  predicate Shared(m: Mode) { m.PoolMode? || m.Hybrid? }

  predicate PerNode(m: Mode) { m.MultiPort? || m.Hybrid? }

  /** Port `p` belongs to a listener that is not a node's. */
  predicate Bound(l: Listeners, p: nat) {
    || (Shared(l.mode) && p == l.listener)
    || (Shared(l.mode) && l.stickyEnabled && p == StickyPort(l) && p > 0)
    || (l.management && (p == 9092 || (p == l.managementPort && 0 < p <= 65535)))
    || (l.geoip && p == RouterPort(l))
  }

  method ReservedListenerPorts(l: Listeners) returns (ports: set<nat>)
    ensures forall p :: p in ports <==> Bound(l, p)
  {
    ports := {};
    if l.mode.PoolMode? || l.mode.Hybrid? {
      ports := ports + {l.listener};
      if l.stickyEnabled {
        var port := l.sticky;
        if port == 0 && l.listener < MAX_PORT {
          port := l.listener + 1;
        }
        if port > 0 {
          ports := ports + {port};
        }
      }
    }
    if l.management {
      if 0 < l.managementPort <= MAX_PORT {
        ports := ports + {l.managementPort};
      }
      ports := ports + {CLASH_PORT};
    }
    if l.geoip {
      var port := l.geoipPort;
      if port == 0 {
        port := GEOIP_PORT;
      }
      if port == l.listener {
        port := GEOIP_PORT;
        if port == l.listener && port < MAX_PORT {
          port := port + 1;
        }
      }
      ports := ports + {port};
    }
  }

  // ------------------------------------------------- what an assignment is

  predicate Hit(ns: seq<Node>, saved: map<Key, nat>, i: nat)
    requires i < |ns|
  {
    ns[i].key in saved && saved[ns[i].key] > 0
  }

  /** The first node with this saved port, which no other listener holds. */
  predicate Claims(ns: seq<Node>, saved: map<Key, nat>, reserved: set<nat>, i: nat)
    requires i < |ns|
  {
    && Hit(ns, saved, i) && saved[ns[i].key] !in reserved
    && (forall j :: 0 <= j < i && Hit(ns, saved, j) ==> saved[ns[j].key] != saved[ns[i].key])
  }

  predicate Explicit(ns: seq<Node>, saved: map<Key, nat>, i: nat)
    requires i < |ns|
  {
    !Hit(ns, saved, i) && ns[i].port != 0
  }

  predicate IsFresh(ns: seq<Node>, saved: map<Key, nat>, reserved: set<nat>, i: nat)
    requires i < |ns|
  {
    !Claims(ns, saved, reserved, i) && !Explicit(ns, saved, i)
  }

  /** The port a node has before fresh ports are handed out; 0 if it needs one. */
  function Fixed(ns: seq<Node>, saved: map<Key, nat>, reserved: set<nat>, i: nat): nat
    requires i < |ns|
  {
    if Claims(ns, saved, reserved, i) then saved[ns[i].key]
    else if Explicit(ns, saved, i) then ns[i].port
    else 0
  }

  /** No explicit port is another listener's, a claimed one, or an earlier
      explicit one. */
  predicate Clashes(ns: seq<Node>, saved: map<Key, nat>, reserved: set<nat>, i: nat)
    requires i < |ns|
  {
    && Explicit(ns, saved, i)
    && (ns[i].port in reserved
        || exists j :: 0 <= j < |ns| && ns[i].port == Fixed(ns, saved, reserved, j)
                       && (Claims(ns, saved, reserved, j) || (j < i && Explicit(ns, saved, j))))
  }

  predicate Held(ns: seq<Node>, saved: map<Key, nat>, reserved: set<nat>, p: nat) {
    p in reserved || exists i :: 0 <= i < |ns| && Fixed(ns, saved, reserved, i) == p && p != 0
  }

  /** Ports a fresh node may get. */
  ghost function Free(ns: seq<Node>, saved: map<Key, nat>, reserved: set<nat>, available: nat -> bool,
                      low: nat): set<nat> {
    set p | low <= p <= 65535 && available(p) && !Held(ns, saved, reserved, p)
  }

  ghost function FreshNodes(ns: seq<Node>, saved: map<Key, nat>, reserved: set<nat>): set<nat> {
    set i | 0 <= i < |ns| && IsFresh(ns, saved, reserved, i)
  }

  /** Every fresh node, in order, got the least free port no earlier one got. */
  ghost predicate Assigned(ns: seq<Node>, saved: map<Key, nat>, reserved: set<nat>, available: nat -> bool, low: nat,
                           fs: seq<Node>) {
    && |fs| == |ns|
    && (forall i :: 0 <= i < |ns| ==> fs[i].key == ns[i].key && fs[i].missingUri == ns[i].missingUri)
    && (forall i :: 0 <= i < |ns| && !IsFresh(ns, saved, reserved, i) ==> fs[i].port == Fixed(ns, saved, reserved, i))
    && (forall i :: 0 <= i < |ns| && IsFresh(ns, saved, reserved, i) ==>
          && fs[i].port in Free(ns, saved, reserved, available, low)
          && (forall p :: p in Free(ns, saved, reserved, available, low) && p < fs[i].port ==>
            GivenBefore(ns, saved, reserved, fs, i, p)))
    && (forall i, j :: 0 <= i < j < |ns| && IsFresh(ns, saved, reserved, i) && IsFresh(ns, saved, reserved, j) ==>
          fs[i].port < fs[j].port)
  }

  ghost predicate GivenBefore(ns: seq<Node>, saved: map<Key, nat>, reserved: set<nat>, fs: seq<Node>, i: nat, p: nat)
    requires i <= |ns| <= |fs|
  {
    exists j :: 0 <= j < i && IsFresh(ns, saved, reserved, j) && fs[j].port == p
  }

  // ------------------------------------------------------------- the passes

  datatype Result = Ok | NoNodes | MissingUri(node: nat) | Conflict(node: nat) | Exhausted

  /** Port `p` was claimed by one of the first `n` nodes. */
  predicate Claimed(ns: seq<Node>, saved: map<Key, nat>, reserved: set<nat>, n: nat, p: nat)
    requires n <= |ns|
  {
    exists j :: 0 <= j < n && Claims(ns, saved, reserved, j) && saved[ns[j].key] == p
  }

  /** If some node's saved port is `p`, the first such node claims it. */
  lemma {:induction false} SomeoneClaims(ns: seq<Node>, saved: map<Key, nat>, reserved: set<nat>, i: nat, j: nat)
    requires j < i <= |ns| && Hit(ns, saved, j) && saved[ns[j].key] !in reserved
    ensures Claimed(ns, saved, reserved, i, saved[ns[j].key])
    decreases j
  {
    if !Claims(ns, saved, reserved, j) {
      var k :| 0 <= k < j && Hit(ns, saved, k) && saved[ns[k].key] == saved[ns[j].key];
      SomeoneClaims(ns, saved, reserved, i, k);
    }
  }

  lemma ClaimTest(ns: seq<Node>, saved: map<Key, nat>, reserved: set<nat>, i: nat)
    requires i < |ns| && Hit(ns, saved, i)
    ensures var p := saved[ns[i].key];
      Claims(ns, saved, reserved, i) <==> p !in reserved && !Claimed(ns, saved, reserved, i, p)
  {
    var p := saved[ns[i].key];
    if p !in reserved && !Claims(ns, saved, reserved, i) {
      var j :| 0 <= j < i && Hit(ns, saved, j) && saved[ns[j].key] == p;
      SomeoneClaims(ns, saved, reserved, i, j);
    }
  }

  function AfterSaved(ns: seq<Node>, saved: map<Key, nat>, reserved: set<nat>, i: nat): nat
    requires i < |ns|
  {
    if Hit(ns, saved, i) then if Claims(ns, saved, reserved, i) then saved[ns[i].key] else 0 else ns[i].port
  }

  /** First pass: saved ports, each to its first claimant. */
  method RestoreSaved(nodes: array<Node>, saved: map<Key, nat>, reserved: set<nat>)
    returns (missing: int, used: set<nat>, preserved: set<nat>)
    modifies nodes
    ensures missing >= 0 ==> missing < nodes.Length && old(nodes[..])[missing].missingUri
    ensures forall j :: 0 <= j < (if missing >= 0 then missing else nodes.Length) ==> !old(nodes[..])[j].missingUri
    ensures missing < 0 ==> forall i :: 0 <= i < nodes.Length ==>
      nodes[i] == old(nodes[..])[i].(port := AfterSaved(old(nodes[..]), saved, reserved, i))
    ensures missing < 0 ==> forall p :: p in used <==>
      p in reserved || Claimed(old(nodes[..]), saved, reserved, nodes.Length, p)
    ensures missing < 0 ==> forall i :: i in preserved <==>
      0 <= i < nodes.Length && Claims(old(nodes[..]), saved, reserved, i)
  {
    ghost var ns := nodes[..];
    missing, used, preserved := -1, reserved, {};
    for i := 0 to nodes.Length
      invariant missing < 0
      invariant forall j :: 0 <= j < i ==> !ns[j].missingUri
      invariant forall j :: 0 <= j < i ==> nodes[j] == ns[j].(port := AfterSaved(ns, saved, reserved, j))
      invariant forall j :: i <= j < nodes.Length ==> nodes[j] == ns[j]
      invariant forall p :: p in used <==> p in reserved || Claimed(ns, saved, reserved, i, p)
      invariant forall j :: j in preserved <==> 0 <= j < i && Claims(ns, saved, reserved, j)
    {
      if nodes[i].missingUri {
        missing := i;
        return;
      }
      if nodes[i].key in saved && saved[nodes[i].key] > 0 {
        var port := saved[nodes[i].key];
        ClaimTest(ns, saved, reserved, i);
        if port in used {
          nodes[i] := nodes[i].(port := 0);
        } else {
          nodes[i] := nodes[i].(port := port);
          used, preserved := used + {port}, preserved + {i};
        }
      }
    }
  }

  predicate ExplicitBefore(ns: seq<Node>, saved: map<Key, nat>, n: nat, p: nat)
    requires n <= |ns|
  {
    exists j :: 0 <= j < n && Explicit(ns, saved, j) && ns[j].port == p
  }

  lemma ClashTest(ns: seq<Node>, saved: map<Key, nat>, reserved: set<nat>, i: nat)
    requires i < |ns| && Explicit(ns, saved, i)
    ensures var p := ns[i].port;
      Clashes(ns, saved, reserved, i) <==>
        p in reserved || Claimed(ns, saved, reserved, |ns|, p) || ExplicitBefore(ns, saved, i, p)
  {
    var p := ns[i].port;
    if Claimed(ns, saved, reserved, |ns|, p) {
      var j :| 0 <= j < |ns| && Claims(ns, saved, reserved, j) && saved[ns[j].key] == p;
      assert Fixed(ns, saved, reserved, j) == p;
    }
    if ExplicitBefore(ns, saved, i, p) {
      var j :| 0 <= j < i && Explicit(ns, saved, j) && ns[j].port == p;
      assert Fixed(ns, saved, reserved, j) == p;
    }
  }

  /** Second pass: explicit ports, refused when they clash with anything. */
  method AcceptExplicit(nodes: array<Node>, ghost ns: seq<Node>, ghost saved: map<Key, nat>, ghost reserved: set<nat>,
                        used0: set<nat>, preserved: set<nat>)
    returns (conflict: int, used: set<nat>)
    requires |ns| == nodes.Length
    requires forall i :: 0 <= i < nodes.Length ==> nodes[i] == ns[i].(port := AfterSaved(ns, saved, reserved, i))
    requires forall p :: p in used0 <==> p in reserved || Claimed(ns, saved, reserved, |ns|, p)
    requires forall i :: i in preserved <==> 0 <= i < |ns| && Claims(ns, saved, reserved, i)
    ensures conflict >= 0 ==> conflict < |ns| && Clashes(ns, saved, reserved, conflict)
    ensures forall i :: 0 <= i < (if conflict >= 0 then conflict else |ns|) ==> !Clashes(ns, saved, reserved, i)
    ensures conflict < 0 ==> forall p :: p in used <==>
      p in reserved || Claimed(ns, saved, reserved, |ns|, p) || ExplicitBefore(ns, saved, |ns|, p)
  {
    conflict, used := -1, used0;
    for i := 0 to nodes.Length
      invariant conflict < 0 && forall j :: 0 <= j < i ==> !Clashes(ns, saved, reserved, j)
      invariant forall p :: p in used <==>
        p in reserved || Claimed(ns, saved, reserved, |ns|, p) || ExplicitBefore(ns, saved, i, p)
    {
      if i !in preserved && nodes[i].port != 0 {
        ClashTest(ns, saved, reserved, i);
        if nodes[i].port in used {
          conflict := i;
          return;
        }
        used := used + {nodes[i].port};
      }
    }
  }

  lemma HeldTest(ns: seq<Node>, saved: map<Key, nat>, reserved: set<nat>, p: nat)
    ensures Held(ns, saved, reserved, p) <==>
      p in reserved || Claimed(ns, saved, reserved, |ns|, p) || ExplicitBefore(ns, saved, |ns|, p)
  {
    if Claimed(ns, saved, reserved, |ns|, p) {
      var j :| 0 <= j < |ns| && Claims(ns, saved, reserved, j) && saved[ns[j].key] == p;
      assert Fixed(ns, saved, reserved, j) == p;
    }
    if ExplicitBefore(ns, saved, |ns|, p) {
      var j :| 0 <= j < |ns| && Explicit(ns, saved, j) && ns[j].port == p;
      assert Fixed(ns, saved, reserved, j) == p;
    }
  }

  /** Ports below the cursor are spent, and the given ones are all below it. */
  ghost predicate Progress(ns: seq<Node>, saved: map<Key, nat>, reserved: set<nat>, available: nat -> bool, low: nat,
                           fs: seq<Node>, i: nat, cursor: nat)
    requires i <= |ns| == |fs|
  {
    && (forall p :: p in Free(ns, saved, reserved, available, low) && p < cursor ==>
      GivenBefore(ns, saved, reserved, fs, i, p))
    && (forall j :: 0 <= j < i && IsFresh(ns, saved, reserved, j) ==>
      FreshOk(ns, saved, reserved, available, low, fs, j) && fs[j].port < cursor)
    && (forall j, k :: 0 <= j < k < i && IsFresh(ns, saved, reserved, j) && IsFresh(ns, saved, reserved, k) ==>
      fs[j].port < fs[k].port)
  }

  ghost predicate FreshOk(ns: seq<Node>, saved: map<Key, nat>, reserved: set<nat>, available: nat -> bool, low: nat,
                          fs: seq<Node>, j: nat)
    requires j < |ns| == |fs|
  {
    && fs[j].port in Free(ns, saved, reserved, available, low)
    && (forall p :: p in Free(ns, saved, reserved, available, low) && p < fs[j].port ==>
      GivenBefore(ns, saved, reserved, fs, j, p))
  }

  lemma GivenFrame(ns: seq<Node>, saved: map<Key, nat>, reserved: set<nat>, fs: seq<Node>, gs: seq<Node>, i: nat,
                   p: nat)
    requires i <= |ns| == |fs| == |gs| && fs[..i] == gs[..i]
    ensures GivenBefore(ns, saved, reserved, fs, i, p) <==> GivenBefore(ns, saved, reserved, gs, i, p)
  {
    assert forall j :: 0 <= j < i ==> fs[j] == fs[..i][j] && gs[j] == gs[..i][j];
  }

  lemma GivenNext(ns: seq<Node>, saved: map<Key, nat>, reserved: set<nat>, fs: seq<Node>, gs: seq<Node>, i: nat, p: nat)
    requires i < |ns| == |fs| == |gs| && fs[..i] == gs[..i]
    ensures GivenBefore(ns, saved, reserved, gs, i + 1, p) <==>
      GivenBefore(ns, saved, reserved, fs, i, p) || (IsFresh(ns, saved, reserved, i) && gs[i].port == p)
  {
    GivenFrame(ns, saved, reserved, fs, gs, i, p);
    hide IsFresh;
  }

  /** One node's turn: `gs` is `fs` with a port for node `i`, if it needs one. */
  lemma ProgressNext(ns: seq<Node>, saved: map<Key, nat>, reserved: set<nat>, available: nat -> bool, low: nat,
                     fs: seq<Node>, gs: seq<Node>, i: nat, cursor: nat, cursor': nat)
    requires i < |ns| == |fs| == |gs| && fs[..i] == gs[..i]
    requires Progress(ns, saved, reserved, available, low, fs, i, cursor)
    requires !IsFresh(ns, saved, reserved, i) ==> cursor' == cursor
    requires IsFresh(ns, saved, reserved, i) ==>
      && gs[i].port in Free(ns, saved, reserved, available, low) && cursor <= gs[i].port && cursor' == gs[i].port + 1
      && (forall p :: p in Free(ns, saved, reserved, available, low) && p < gs[i].port ==>
        GivenBefore(ns, saved, reserved, fs, i, p))
    ensures Progress(ns, saved, reserved, available, low, gs, i + 1, cursor')
  {
    hide IsFresh, Free, GivenBefore, FreshOk;
    assert forall j :: 0 <= j < i ==> gs[j] == gs[..i][j] && fs[j] == fs[..i][j];
    forall p | p in Free(ns, saved, reserved, available, low) && p < cursor'
      ensures GivenBefore(ns, saved, reserved, gs, i + 1, p) {
      GivenNext(ns, saved, reserved, fs, gs, i, p);
      assert p < cursor || (IsFresh(ns, saved, reserved, i) && p <= gs[i].port);
    }
    forall j, k | 0 <= j < k < i + 1 && IsFresh(ns, saved, reserved, j) && IsFresh(ns, saved, reserved, k)
      ensures gs[j].port < gs[k].port {
      assert fs[j] == gs[j];
      assert k < i ==> fs[k] == gs[k];
    }
    forall j | 0 <= j <= i && IsFresh(ns, saved, reserved, j)
      ensures FreshOk(ns, saved, reserved, available, low, gs, j) {
      FreshNext(ns, saved, reserved, available, low, fs, gs, i, j);
    }
  }

  lemma FreshNext(ns: seq<Node>, saved: map<Key, nat>, reserved: set<nat>, available: nat -> bool, low: nat,
                  fs: seq<Node>, gs: seq<Node>, i: nat, j: nat)
    requires j <= i < |ns| == |fs| == |gs| && fs[..i] == gs[..i]
    requires j < i ==> FreshOk(ns, saved, reserved, available, low, fs, j)
    requires j == i ==> gs[i].port in Free(ns, saved, reserved, available, low)
    requires j == i ==> forall p :: p in Free(ns, saved, reserved, available, low) && p < gs[i].port ==>
      GivenBefore(ns, saved, reserved, fs, i, p)
    ensures FreshOk(ns, saved, reserved, available, low, gs, j)
  {
    assert fs[..j] == fs[..i][..j] && gs[..j] == gs[..i][..j];
    if j < i {
      assert fs[j] == fs[..i][j] && gs[j] == gs[..i][j];
    }
    hide Free, IsFresh, GivenBefore;
    assert gs[j].port in Free(ns, saved, reserved, available, low);
    forall p | p in Free(ns, saved, reserved, available, low) && p < gs[j].port
      ensures GivenBefore(ns, saved, reserved, gs, j, p)
    {
      assert GivenBefore(ns, saved, reserved, fs, j, p);
      GivenFrame(ns, saved, reserved, fs, gs, j, p);
    }
  }

  /** The next port nobody holds and that can be bound; past the last port when
      there is none. */
  method NextFree(ghost ns: seq<Node>, ghost saved: map<Key, nat>, ghost reserved: set<nat>, low: nat,
                  available: nat -> bool,
                  ghost fs: seq<Node>, ghost i: nat, used: set<nat>, start: nat)
    returns (cursor: nat)
    requires i < |ns| == |fs| && low <= start
    requires forall p :: p in used <==> Held(ns, saved, reserved, p) || GivenBefore(ns, saved, reserved, fs, i, p)
    requires forall p :: p in Free(ns, saved, reserved, available, low) && p < start ==>
      GivenBefore(ns, saved, reserved, fs, i, p)
    ensures start <= cursor
    ensures forall p :: p in Free(ns, saved, reserved, available, low) && p < cursor ==>
      GivenBefore(ns, saved, reserved, fs, i, p)
    ensures cursor <= MAX_PORT ==> cursor in Free(ns, saved, reserved, available, low) && cursor !in used
  {
    cursor := start;
    hide Held, GivenBefore;
    while cursor <= MAX_PORT && (cursor in used || !available(cursor))
      invariant start <= cursor
      invariant forall p :: p in Free(ns, saved, reserved, available, low) && p < cursor ==>
        GivenBefore(ns, saved, reserved, fs, i, p)
      decreases MAX_PORT + 1 - cursor
    {
      cursor := cursor + 1;
    }
  }

  /** What holds when the first `i` nodes have their ports. */
  ghost predicate Assigning(ns: seq<Node>, saved: map<Key, nat>, reserved: set<nat>, available: nat -> bool, low: nat,
                            fs: seq<Node>, i: nat, cursor: nat, used: set<nat>)
    requires i <= |ns| == |fs|
  {
    && low <= cursor && Progress(ns, saved, reserved, available, low, fs, i, cursor)
    && (forall p :: p in used <==> Held(ns, saved, reserved, p) || GivenBefore(ns, saved, reserved, fs, i, p))
    && (forall j :: i <= j < |ns| ==> fs[j] == ns[j].(port := AfterSaved(ns, saved, reserved, j)))
    && (forall j :: 0 <= j < i ==> Given(ns, saved, reserved, fs, j))
  }

  ghost predicate Given(ns: seq<Node>, saved: map<Key, nat>, reserved: set<nat>, fs: seq<Node>, j: nat)
    requires j < |ns| == |fs|
  {
    fs[j] == ns[j].(port := if IsFresh(ns, saved, reserved, j) then fs[j].port else Fixed(ns, saved, reserved, j))
  }

  lemma AssigningNext(ns: seq<Node>, saved: map<Key, nat>, reserved: set<nat>, available: nat -> bool, low: nat,
                      fs: seq<Node>, i: nat, cursor: nat, used: set<nat>, p: nat)
    requires i < |ns| == |fs| && Assigning(ns, saved, reserved, available, low, fs, i, cursor, used)
    requires fs[i].port == 0 ==> cursor <= p && p in Free(ns, saved, reserved, available, low)
    requires fs[i].port == 0 ==> forall x :: x in Free(ns, saved, reserved, available, low) && x < p ==>
      GivenBefore(ns, saved, reserved, fs, i, x)
    ensures if fs[i].port == 0
            then Assigning(ns, saved, reserved, available, low, fs[i := fs[i].(port := p)], i + 1, p + 1, used + {p})
            else Assigning(ns, saved, reserved, available, low, fs, i + 1, cursor, used)
  {
    var fresh0 := fs[i].port == 0;
    var gs := if fresh0 then fs[i := fs[i].(port := p)] else fs;
    FreshTest(ns, saved, reserved, i);
    hide AfterSaved, Fixed, IsFresh, Held, GivenBefore, Free, FreshOk, Progress;
    assert forall j :: 0 <= j < i ==> Given(ns, saved, reserved, fs, j) && gs[j] == fs[j];
    ProgressNext(ns, saved, reserved, available, low, fs, gs, i, cursor, if fresh0 then p + 1 else cursor);
    forall x ensures GivenBefore(ns, saved, reserved, gs, i + 1, x) <==>
      GivenBefore(ns, saved, reserved, fs, i, x) || (IsFresh(ns, saved, reserved, i) && gs[i].port == x)
    {
      GivenNext(ns, saved, reserved, fs, gs, i, x);
    }
  }

  lemma AllAssigned(ns: seq<Node>, saved: map<Key, nat>, reserved: set<nat>, available: nat -> bool, low: nat,
                    fs: seq<Node>, cursor: nat, used: set<nat>)
    requires |ns| == |fs| && Assigning(ns, saved, reserved, available, low, fs, |ns|, cursor, used)
    ensures Assigned(ns, saved, reserved, available, low, fs)
  {
    hide Free, GivenBefore, Fixed, IsFresh, Held;
    forall j | 0 <= j < |ns|
      ensures fs[j].key == ns[j].key && fs[j].missingUri == ns[j].missingUri
      ensures !IsFresh(ns, saved, reserved, j) ==> fs[j].port == Fixed(ns, saved, reserved, j)
    {
      assert Given(ns, saved, reserved, fs, j);
    }
    forall j | 0 <= j < |ns| && IsFresh(ns, saved, reserved, j)
      ensures fs[j].port in Free(ns, saved, reserved, available, low)
      ensures forall p :: p in Free(ns, saved, reserved, available, low) && p < fs[j].port ==>
        GivenBefore(ns, saved, reserved, fs, j, p)
    {
      assert FreshOk(ns, saved, reserved, available, low, fs, j);
    }
  }

  /** Third pass: fresh ports, first fit from the base port on. */
  method AssignFresh(nodes: array<Node>, ghost ns: seq<Node>, ghost saved: map<Key, nat>, ghost reserved: set<nat>,
                     used0: set<nat>, low: nat, available: nat -> bool)
    returns (ok: bool)
    requires |ns| == nodes.Length
    requires forall i :: 0 <= i < nodes.Length ==> nodes[i] == ns[i].(port := AfterSaved(ns, saved, reserved, i))
    requires forall p :: p in used0 <==> Held(ns, saved, reserved, p)
    modifies nodes
    ensures ok ==> Assigned(ns, saved, reserved, available, low, nodes[..])
    ensures !ok ==> |Free(ns, saved, reserved, available, low)| < |FreshNodes(ns, saved, reserved)|
  {
    var used: set<nat> := used0;
    var cursor: nat := low;
    assert Assigning(ns, saved, reserved, available, low, nodes[..], 0, cursor, used);
    hide Assigned, AfterSaved, Fixed, Held, GivenBefore, Free, FreshOk, Given;
    for i := 0 to nodes.Length
      invariant Assigning(ns, saved, reserved, available, low, nodes[..], i, cursor, used)
    {
      ghost var fs := nodes[..];
      FreshTest(ns, saved, reserved, i);
      hide IsFresh;
      if nodes[i].port == 0 {
        var port := NextFree(ns, saved, reserved, low, available, fs, i, used, cursor);
        if port > MAX_PORT {
          Exhaustion(ns, saved, reserved, available, low, fs, i, port);
          return false;
        }
        AssigningNext(ns, saved, reserved, available, low, fs, i, cursor, used, port);
        nodes[i] := nodes[i].(port := port);
        used := used + {port};
        cursor := port + 1;
        assert nodes[..] == fs[i := fs[i].(port := port)];
      } else {
        AssigningNext(ns, saved, reserved, available, low, fs, i, cursor, used, 0);
      }
    }
    AllAssigned(ns, saved, reserved, available, low, nodes[..], cursor, used);
    ok := true;
  }

  lemma FreshTest(ns: seq<Node>, saved: map<Key, nat>, reserved: set<nat>, i: nat)
    requires i < |ns|
    ensures IsFresh(ns, saved, reserved, i) <==> AfterSaved(ns, saved, reserved, i) == 0
    ensures !IsFresh(ns, saved, reserved, i) ==> AfterSaved(ns, saved, reserved, i) == Fixed(ns, saved, reserved, i)
  {}

  lemma {:induction false} ImageBound(s: set<nat>, t: set<nat>, f: nat -> nat)
    requires forall p :: p in s ==> exists j :: j in t && f(j) == p
    ensures |s| <= |t|
    decreases |s|
  {
    if s != {} {
      var p :| p in s;
      var j :| j in t && f(j) == p;
      forall q | q in s - {p} ensures exists k :: k in t - {j} && f(k) == q {
        var k :| k in t && f(k) == q;
        assert k in t - {j};
      }
      ImageBound(s - {p}, t - {j}, f);
    }
  }

  /** When the cursor runs off the end, the free ports were too few. */
  lemma Exhaustion(ns: seq<Node>, saved: map<Key, nat>, reserved: set<nat>, available: nat -> bool, low: nat,
                   fs: seq<Node>, i: nat, cursor: nat)
    requires i < |ns| == |fs| && IsFresh(ns, saved, reserved, i) && cursor > MAX_PORT
    requires forall p :: p in Free(ns, saved, reserved, available, low) && p < cursor ==>
      GivenBefore(ns, saved, reserved, fs, i, p)
    ensures |Free(ns, saved, reserved, available, low)| < |FreshNodes(ns, saved, reserved)|
  {
    var free, needy := Free(ns, saved, reserved, available, low), FreshNodes(ns, saved, reserved);
    var before := set j | j in needy && j < i;
    var f := (j: nat) => if j < |fs| then fs[j].port else 0;
    forall p | p in free ensures exists j :: j in before && f(j) == p {
      assert GivenBefore(ns, saved, reserved, fs, i, p);
      var j :| 0 <= j < i && IsFresh(ns, saved, reserved, j) && fs[j].port == p;
      assert j in before && f(j) == p;
    }
    ImageBound(free, before, f);
    assert i in needy && before <= needy - {i};
    Smaller(before, needy - {i});
  }

  lemma {:induction false} Smaller(a: set<nat>, b: set<nat>)
    requires a <= b
    ensures |a| <= |b|
  {
    assert b == a + (b - a);
  }

  // --------------------------------------------------------- pool-only mode

  function Unset(ns: seq<Node>): nat {
    if ns == [] then 0 else Unset(ns[..|ns| - 1]) + if ns[|ns| - 1].port == 0 then 1 else 0
  }

  /** Without per-node listeners the ports only tell nodes apart: nothing is
      checked, and a node is left without one past the last port. */
  function PoolPort(ns: seq<Node>, low: nat, i: nat): nat
    requires i < |ns|
  {
    if ns[i].port != 0 then ns[i].port
    else if low + Unset(ns[..i]) <= 65535 then low + Unset(ns[..i])
    else 0
  }

  method NumberNodes(nodes: array<Node>, low: nat)
    requires low <= MAX_PORT
    modifies nodes
    ensures forall i :: 0 <= i < nodes.Length ==>
      nodes[i] == old(nodes[..])[i].(port := PoolPort(old(nodes[..]), low, i))
  {
    ghost var ns := nodes[..];
    var cursor := low;
    for i := 0 to nodes.Length
      invariant low <= cursor <= MAX_PORT + 1
      invariant cursor == if low + Unset(ns[..i]) <= MAX_PORT then low + Unset(ns[..i]) else MAX_PORT + 1
      invariant forall j :: 0 <= j < i ==> nodes[j] == ns[j].(port := PoolPort(ns, low, j))
      invariant forall j :: i <= j < nodes.Length ==> nodes[j] == ns[j]
    {
      assert ns[..i + 1][..i] == ns[..i];
      if nodes[i].port == 0 && cursor <= MAX_PORT {
        nodes[i] := nodes[i].(port := cursor);
        cursor := cursor + 1;
      }
    }
  }

  // ------------------------------------------------------------- all of it

  method NormalizeWithPortMap(nodes: array<Node>, l: Listeners, saved: map<Key, nat>, low: nat, available: nat -> bool)
    returns (r: Result, ghost reserved: set<nat>)
    requires 1 <= low <= MAX_PORT
    modifies nodes
    ensures forall p :: p in reserved <==> Bound(l, p)
    ensures r.NoNodes? <==> nodes.Length == 0
    ensures var ns := old(nodes[..]);
      match r
      case NoNodes => true
      case MissingUri(i) => i < |ns| && ns[i].missingUri && forall j :: 0 <= j < i ==> !ns[j].missingUri
      case Conflict(i) => PerNode(l.mode) && i < |ns| && Clashes(ns, saved, reserved, i)
        && NoClash(ns, saved, reserved, i)
      case Exhausted => PerNode(l.mode) && NoClash(ns, saved, reserved, |ns|)
                        && |Free(ns, saved, reserved, available, low)| < |FreshNodes(ns, saved, reserved)|
      case Ok =>
        if PerNode(l.mode) then NoClash(ns, saved, reserved, |ns|)
          && Assigned(ns, saved, reserved, available, low, nodes[..])
        else forall i :: 0 <= i < |ns| ==> nodes[i] == ns[i].(port := PoolPort(ns, low, i))
    ensures !r.MissingUri? ==> forall j :: 0 <= j < nodes.Length ==> !old(nodes[..])[j].missingUri
  {
    ghost var ns := nodes[..];
    var used0 := ReservedListenerPorts(l);
    reserved := used0;
    if nodes.Length == 0 {
      return NoNodes, reserved;
    }
    if l.mode.PoolMode? {
      for i := 0 to nodes.Length
        invariant forall j :: 0 <= j < i ==> !nodes[j].missingUri
      {
        if nodes[i].missingUri {
          return MissingUri(i), reserved;
        }
      }
      NumberNodes(nodes, low);
      return Ok, reserved;
    }
    var missing, used, preserved := RestoreSaved(nodes, saved, used0);
    if missing >= 0 {
      return MissingUri(missing), reserved;
    }
    var conflict;
    conflict, used := AcceptExplicit(nodes, ns, saved, reserved, used, preserved);
    if conflict >= 0 {
      return Conflict(conflict), reserved;
    }
    forall p ensures p in used <==> Held(ns, saved, reserved, p) { HeldTest(ns, saved, reserved, p); }
    var ok := AssignFresh(nodes, ns, saved, reserved, used, low, available);
    r := if ok then Ok else Exhausted;
  }

  ghost predicate NoClash(ns: seq<Node>, saved: map<Key, nat>, reserved: set<nat>, n: nat)
    requires n <= |ns|
  {
    forall i :: 0 <= i < n ==> !Clashes(ns, saved, reserved, i)
  }

  // ---------------------------------------------------- what follows from it

  ghost predicate InRange(ns: seq<Node>, saved: map<Key, nat>) {
    (forall i :: 0 <= i < |ns| ==> ns[i].port <= MAX_PORT) && (forall k :: k in saved ==> saved[k] <= MAX_PORT)
  }

  /** Ports as an assignment should leave them. */
  ghost predicate Settled(fs: seq<Node>, reserved: set<nat>) {
    && (forall i :: 0 <= i < |fs| ==> 1 <= fs[i].port <= 65535 && fs[i].port !in reserved)
    && (forall i, j :: 0 <= i < j < |fs| ==> fs[i].port != fs[j].port)
  }

  lemma FixedPortsDiffer(ns: seq<Node>, saved: map<Key, nat>, reserved: set<nat>, i: nat, j: nat)
    requires NoClash(ns, saved, reserved, |ns|) && i < j < |ns|
    requires !IsFresh(ns, saved, reserved, i) && !IsFresh(ns, saved, reserved, j)
    ensures Fixed(ns, saved, reserved, i) != Fixed(ns, saved, reserved, j)
  {
    assert !Clashes(ns, saved, reserved, i) && !Clashes(ns, saved, reserved, j);
  }

  lemma FixedPortIsOk(ns: seq<Node>, saved: map<Key, nat>, reserved: set<nat>, i: nat)
    requires NoClash(ns, saved, reserved, |ns|) && InRange(ns, saved) && i < |ns| && !IsFresh(ns, saved, reserved, i)
    ensures var p := Fixed(ns, saved, reserved, i); 1 <= p <= MAX_PORT && p !in reserved && Held(ns, saved, reserved, p)
  {
    assert !Clashes(ns, saved, reserved, i);
  }

  /** The ports of a successful assignment are non-zero, distinct, and no other
      listener's. */
  lemma PortsAreSound(ns: seq<Node>, saved: map<Key, nat>, reserved: set<nat>, available: nat -> bool, low: nat,
                      fs: seq<Node>)
    requires Assigned(ns, saved, reserved, available, low, fs) && NoClash(ns, saved, reserved, |ns|)
    requires InRange(ns, saved) && 1 <= low
    ensures Settled(fs, reserved)
  {
    forall i | 0 <= i < |fs| ensures 1 <= fs[i].port <= MAX_PORT && fs[i].port !in reserved {
      if !IsFresh(ns, saved, reserved, i) {
        FixedPortIsOk(ns, saved, reserved, i);
      }
    }
    hide Assigned, Fixed, InRange, NoClash, GivenBefore;
    forall i, j | 0 <= i < j < |fs| ensures fs[i].port != fs[j].port {
      TwoPortsDiffer(ns, saved, reserved, available, low, fs, i, j);
    }
  }

  lemma TwoPortsDiffer(ns: seq<Node>, saved: map<Key, nat>, reserved: set<nat>, available: nat -> bool, low: nat,
                       fs: seq<Node>, i: nat, j: nat)
    requires Assigned(ns, saved, reserved, available, low, fs) && NoClash(ns, saved, reserved, |ns|)
    requires InRange(ns, saved) && i < j < |fs|
    ensures fs[i].port != fs[j].port
  {
    hide Fixed, InRange, NoClash, GivenBefore, IsFresh, Held;
    if !IsFresh(ns, saved, reserved, i) {
      FixedPortIsOk(ns, saved, reserved, i);
    }
    if !IsFresh(ns, saved, reserved, j) {
      FixedPortIsOk(ns, saved, reserved, j);
    }
    if !IsFresh(ns, saved, reserved, i) && !IsFresh(ns, saved, reserved, j) {
      FixedPortsDiffer(ns, saved, reserved, i, j);
    }
  }

  /** Node `i` is the first whose saved port is `p`, and the only one to have it. */
  ghost predicate KeepsSaved(ns: seq<Node>, saved: map<Key, nat>, fs: seq<Node>, i: nat, p: nat)
    requires i < |ns| == |fs|
  {
    && Hit(ns, saved, i) && saved[ns[i].key] == fs[i].port == p
    && (forall k :: 0 <= k < i && Hit(ns, saved, k) ==> saved[ns[k].key] != p)
    && (forall k :: 0 <= k < |ns| && k != i ==> fs[k].port != p)
  }

  /** The first node with an unreserved saved port keeps it, and nobody else has
      it. */
  lemma FirstClaimantKeepsPort(ns: seq<Node>, saved: map<Key, nat>, reserved: set<nat>, available: nat -> bool,
                               low: nat, fs: seq<Node>, j: nat)
    requires Assigned(ns, saved, reserved, available, low, fs) && NoClash(ns, saved, reserved, |ns|)
    requires InRange(ns, saved) && 1 <= low
    requires j < |ns| && Hit(ns, saved, j) && saved[ns[j].key] !in reserved
    ensures exists i :: 0 <= i <= j && KeepsSaved(ns, saved, fs, i, saved[ns[j].key])
  {
    PortsAreSound(ns, saved, reserved, available, low, fs);
    SomeoneClaims(ns, saved, reserved, j + 1, j);
    var i :| 0 <= i < j + 1 && Claims(ns, saved, reserved, i) && saved[ns[i].key] == saved[ns[j].key];
    assert KeepsSaved(ns, saved, fs, i, saved[ns[j].key]);
  }

  /** Below a fresh port, from the base port on, every port was taken: it cannot
      be bound, another listener holds it, or another node has it. */
  lemma FreshPortIsLeast(ns: seq<Node>, saved: map<Key, nat>, reserved: set<nat>, available: nat -> bool, low: nat,
                         fs: seq<Node>, i: nat, p: nat)
    requires Assigned(ns, saved, reserved, available, low, fs) && i < |ns| && IsFresh(ns, saved, reserved, i)
    requires low <= p < fs[i].port
    ensures !available(p) || p in reserved || exists j :: 0 <= j < |fs| && j != i && fs[j].port == p
  {
    if available(p) && p !in reserved {
      if p in Free(ns, saved, reserved, available, low) {
        assert GivenBefore(ns, saved, reserved, fs, i, p);
      } else {
        var j :| 0 <= j < |ns| && Fixed(ns, saved, reserved, j) == p && p != 0;
        assert fs[j].port == p;
      }
    }
  }

  /** The passes determine the result: whatever satisfies their description is
      what they return. */
  lemma {:induction false} AssignmentIsUnique(ns: seq<Node>, saved: map<Key, nat>, reserved: set<nat>,
                                              available: nat -> bool, low: nat,
                                              fs: seq<Node>, gs: seq<Node>, n: nat)
    requires Assigned(ns, saved, reserved, available, low, fs) && Assigned(ns, saved, reserved, available, low, gs)
      && n <= |ns|
    ensures fs[..n] == gs[..n]
  {
    if n > 0 {
      var i := n - 1;
      AssignmentIsUnique(ns, saved, reserved, available, low, fs, gs, i);
      forall j | 0 <= j < i ensures fs[j] == gs[j] {
        assert fs[..i][j] == gs[..i][j];
      }
      SameNode(ns, saved, reserved, available, low, fs, gs, i);
      hide Assigned;
      assert fs[..n] == fs[..i] + [fs[i]] && gs[..n] == gs[..i] + [gs[i]];
    }
  }

  lemma SameNode(ns: seq<Node>, saved: map<Key, nat>, reserved: set<nat>, available: nat -> bool, low: nat,
                 fs: seq<Node>, gs: seq<Node>, i: nat)
    requires Assigned(ns, saved, reserved, available, low, fs) && Assigned(ns, saved, reserved, available, low, gs)
    requires i < |ns| && forall j :: 0 <= j < i ==> fs[j] == gs[j]
    ensures |fs| == |gs| == |ns| && fs[i] == gs[i]
  {
    if IsFresh(ns, saved, reserved, i) {
      NotLower(ns, saved, reserved, available, low, fs, gs, i);
      NotLower(ns, saved, reserved, available, low, gs, fs, i);
    }
    hide IsFresh, Fixed, Free, GivenBefore;
  }

  lemma NotLower(ns: seq<Node>, saved: map<Key, nat>, reserved: set<nat>, available: nat -> bool, low: nat,
                 fs: seq<Node>, gs: seq<Node>, i: nat)
    requires Assigned(ns, saved, reserved, available, low, fs) && Assigned(ns, saved, reserved, available, low, gs)
    requires i < |ns| && IsFresh(ns, saved, reserved, i) && forall j :: 0 <= j < i ==> fs[j] == gs[j]
    ensures fs[i].port >= gs[i].port
  {
    hide IsFresh, Fixed, Free;
  }

  /** A successful assignment proves that the free ports were enough. */
  lemma EnoughPorts(ns: seq<Node>, saved: map<Key, nat>, reserved: set<nat>, available: nat -> bool, low: nat,
                    fs: seq<Node>)
    requires Assigned(ns, saved, reserved, available, low, fs)
    ensures |FreshNodes(ns, saved, reserved)| <= |Free(ns, saved, reserved, available, low)|
  {
    var needy := FreshNodes(ns, saved, reserved);
    var free := Free(ns, saved, reserved, available, low);
    var port := (i: nat) => if i < |fs| then fs[i].port else 0;
    forall i | i in needy ensures port(i) in free {}
    forall i, j | i in needy && j in needy && i < j ensures port(i) != port(j) {}
    hide Assigned, IsFresh, Fixed, Free;
    InjectionBound(needy, free, port);
  }

  lemma {:induction false} InjectionBound(s: set<nat>, t: set<nat>, f: nat -> nat)
    requires forall i :: i in s ==> f(i) in t
    requires forall i, j :: i in s && j in s && i < j ==> f(i) != f(j)
    ensures |s| <= |t|
    decreases |s|
  {
    if s != {} {
      var i :| i in s;
      InjectionBound(s - {i}, t - {f(i)}, f);
    }
  }

  /** Node ports stay clear of the sticky entry and of the GeoIP router, so the
      check of the sticky port against the nodes cannot fail afterwards. */
  lemma OtherListenersAreSafe(l: Listeners, ns: seq<Node>, saved: map<Key, nat>, reserved: set<nat>,
                              available: nat -> bool, low: nat, fs: seq<Node>, i: nat)
    requires Assigned(ns, saved, reserved, available, low, fs) && NoClash(ns, saved, reserved, |ns|)
    requires InRange(ns, saved) && 1 <= low && (forall p :: p in reserved <==> Bound(l, p)) && i < |fs|
    ensures l.mode.Hybrid? ==> fs[i].port != l.listener && (l.stickyEnabled ==> fs[i].port != StickyPort(l))
    ensures l.geoip ==> fs[i].port != RouterPort(l)
    ensures l.management ==> fs[i].port != l.managementPort && fs[i].port != 9092
  {
    PortsAreSound(ns, saved, reserved, available, low, fs);
    assert !Bound(l, fs[i].port);
  }

  // ------------------------------------------------------------- the port map

  predicate HasPort(ns: seq<Node>, i: nat, k: Key)
    requires i < |ns|
  {
    ns[i].key == k && ns[i].port > 0
  }

  /** Each key's last non-zero port. */
  ghost predicate IsPortMap(ns: seq<Node>, n: nat, m: map<Key, nat>)
    requires n <= |ns|
  {
    && (forall k :: k in m ==> exists i :: 0 <= i < n && HasPort(ns, i, k))
    && (forall i :: 0 <= i < n && ns[i].port > 0 ==>
          && ns[i].key in m
          && ((forall j :: i < j < n ==> !HasPort(ns, j, ns[i].key)) ==> m[ns[i].key] == ns[i].port))
  }

  method BuildPortMap(nodes: array<Node>) returns (m: map<Key, nat>)
    ensures IsPortMap(nodes[..], nodes.Length, m)
  {
    m := map[];
    for i := 0 to nodes.Length
      invariant IsPortMap(nodes[..], i, m)
    {
      ghost var before := m;
      if nodes[i].port > 0 {
        m := m[nodes[i].key := nodes[i].port];
      }
      PortMapNext(nodes[..], i, before, m);
    }
  }

  lemma PortMapNext(ns: seq<Node>, i: nat, m: map<Key, nat>, m': map<Key, nat>)
    requires i < |ns| && IsPortMap(ns, i, m)
    requires m' == if ns[i].port > 0 then m[ns[i].key := ns[i].port] else m
    ensures IsPortMap(ns, i + 1, m')
  {
    forall k | k in m' ensures exists j :: 0 <= j < i + 1 && HasPort(ns, j, k) {
      if k in m {
        var j :| 0 <= j < i && HasPort(ns, j, k);
      } else {
        assert HasPort(ns, i, k);
      }
    }
    forall j | 0 <= j < i + 1 && ns[j].port > 0 && (forall x :: j < x < i + 1 ==> !HasPort(ns, x, ns[j].key))
      ensures ns[j].key in m' && m'[ns[j].key] == ns[j].port
    {
      if j < i {
        assert !HasPort(ns, i, ns[j].key);
      }
    }
  }

  ghost predicate DistinctKeys(fs: seq<Node>) {
    forall i, j :: 0 <= i < j < |fs| ==> fs[i].key != fs[j].key
  }

  lemma {:induction false} LastWithKey(fs: seq<Node>, i: nat, n: nat) returns (j: nat)
    requires i < n <= |fs| && fs[i].port > 0
    ensures i <= j < n && HasPort(fs, j, fs[i].key) && forall x :: j < x < n ==> !HasPort(fs, x, fs[i].key)
  {
    if HasPort(fs, n - 1, fs[i].key) {
      j := n - 1;
    } else {
      j := LastWithKey(fs, i, n - 1);
    }
  }

  predicate IsLast(fs: seq<Node>, j: nat, k: Key)
    requires j < |fs|
  {
    fs[j].key == k && forall x :: j < x < |fs| ==> fs[x].key != k
  }

  /** The map gives a key the port of the last node that has it. */
  lemma MapValue(fs: seq<Node>, reserved: set<nat>, m: map<Key, nat>, i: nat) returns (j: nat)
    requires Settled(fs, reserved) && IsPortMap(fs, |fs|, m) && i < |fs|
    ensures i <= j < |fs| && IsLast(fs, j, fs[i].key)
    ensures fs[i].key in m && m[fs[i].key] == fs[j].port
  {
    j := LastWithKey(fs, i, |fs|);
    assert fs[j].key in m && m[fs[j].key] == fs[j].port;
    forall x | j < x < |fs| ensures fs[x].key != fs[i].key { assert !HasPort(fs, x, fs[i].key); }
  }

  /** A node claims the port of the last node with its key, if it is the first. */
  lemma FirstClaimsLast(fs: seq<Node>, reserved: set<nat>, m: map<Key, nat>, i: nat)
    requires Settled(fs, reserved) && IsPortMap(fs, |fs|, m) && i < |fs|
    requires forall x :: 0 <= x < i ==> fs[x].key != fs[i].key
    ensures Claims(fs, m, reserved, i)
    ensures exists j :: i <= j < |fs| && IsLast(fs, j, fs[i].key) && Fixed(fs, m, reserved, i) == fs[j].port
  {
    var j := MapValue(fs, reserved, m, i);
    hide IsPortMap;
    forall x | 0 <= x < i && Hit(fs, m, x) ensures m[fs[x].key] != m[fs[i].key] {
      var y := MapValue(fs, reserved, m, x);
      assert y != j;
    }
    assert Claims(fs, m, reserved, i);
  }

  lemma AllHit(fs: seq<Node>, reserved: set<nat>, m: map<Key, nat>)
    requires Settled(fs, reserved) && IsPortMap(fs, |fs|, m)
    ensures forall i :: 0 <= i < |fs| ==> Hit(fs, m, i) && !Explicit(fs, m, i)
    ensures NoClash(fs, m, reserved, |fs|)
  {
    forall i | 0 <= i < |fs| ensures Hit(fs, m, i) {
      var _ := MapValue(fs, reserved, m, i);
    }
  }

  lemma DistinctKeysKeepPorts(fs: seq<Node>, reserved: set<nat>, m: map<Key, nat>, available: nat -> bool, low: nat,
                              gs: seq<Node>)
    requires Settled(fs, reserved) && IsPortMap(fs, |fs|, m)
    requires Assigned(fs, m, reserved, available, low, gs) && DistinctKeys(fs)
    ensures gs == fs && FreshNodes(fs, m, reserved) == {}
  {
    hide IsPortMap, Free, GivenBefore, Claims, Hit, Settled;
    forall i | 0 <= i < |fs| ensures gs[i] == fs[i] && !IsFresh(fs, m, reserved, i) {
      FirstClaimsLast(fs, reserved, m, i);
      var j :| i <= j < |fs| && IsLast(fs, j, fs[i].key) && Fixed(fs, m, reserved, i) == fs[j].port;
      assert j == i;
    }
    assert gs == fs;
  }

  lemma SharedKeyMovesPort(fs: seq<Node>, reserved: set<nat>, m: map<Key, nat>, available: nat -> bool, low: nat,
                           gs: seq<Node>)
    requires Settled(fs, reserved) && IsPortMap(fs, |fs|, m)
    requires Assigned(fs, m, reserved, available, low, gs) && !DistinctKeys(fs)
    ensures gs != fs
  {
    hide IsPortMap, Free, GivenBefore, Claims, Hit;
    var i, j :| 0 <= i < j < |fs| && fs[i].key == fs[j].key;
    var first := FirstWithKey(fs, i);
    FirstClaimsLast(fs, reserved, m, first);
    var last :| first <= last < |fs| && IsLast(fs, last, fs[first].key)
      && Fixed(fs, m, reserved, first) == fs[last].port;
    assert last != first && gs[first].port == fs[last].port;
  }

  /** Normalising a settled configuration again, with its own port map, changes
      nothing exactly when no two nodes share a key; no explicit port clashes and,
      with distinct keys, no fresh one is needed. */
  lemma RenormalisingIsStableExactly(fs: seq<Node>, reserved: set<nat>, m: map<Key, nat>, available: nat -> bool,
                                     low: nat, gs: seq<Node>)
    requires Settled(fs, reserved) && IsPortMap(fs, |fs|, m)
    requires Assigned(fs, m, reserved, available, low, gs)
    ensures NoClash(fs, m, reserved, |fs|)
    ensures gs == fs <==> DistinctKeys(fs)
    ensures DistinctKeys(fs) ==> FreshNodes(fs, m, reserved) == {}
  {
    hide Settled, IsPortMap, Assigned, DistinctKeys, NoClash;
    AllHit(fs, reserved, m);
    if DistinctKeys(fs) {
      DistinctKeysKeepPorts(fs, reserved, m, available, low, gs);
    } else {
      SharedKeyMovesPort(fs, reserved, m, available, low, gs);
    }
  }

  /** Two nodes of one key, on 24000 and 24001: the map keeps the last port, so the
      first node takes it and the second gets the first one's. */
  lemma SharedKeySwapsPorts(k: Key, available: nat -> bool)
    requires available(24000)
    ensures var fs, gs :=
      [Node(k, false, 24000), Node(k, false, 24001)], [Node(k, false, 24001), Node(k, false, 24000)];
      && IsPortMap(fs, 2, map[k := 24001])
      && Assigned(fs, map[k := 24001], {}, available, 24000, gs) && gs != fs
  {
    var fs, m := [Node(k, false, 24000), Node(k, false, 24001)], map[k := 24001];
    var gs := [Node(k, false, 24001), Node(k, false, 24000)];
    assert HasPort(fs, 1, k);
    assert Hit(fs, m, 0) && Hit(fs, m, 1) && Claims(fs, m, {}, 0) && !Claims(fs, m, {}, 1);
    assert Fixed(fs, m, {}, 0) == 24001 && Fixed(fs, m, {}, 1) == 0;
    assert 24000 in Free(fs, m, {}, available, 24000);
  }

  lemma {:induction false} FirstWithKey(fs: seq<Node>, i: nat) returns (j: nat)
    requires i < |fs|
    ensures j <= i && fs[j].key == fs[i].key && forall x :: 0 <= x < j ==> fs[x].key != fs[i].key
  {
    if x :| 0 <= x < i && fs[x].key == fs[i].key {
      j := FirstWithKey(fs, x);
    } else {
      j := i;
    }
  }

  // ------------------------------------------------------------ old port maps

  /** What an old sidecar may know a node by: its current key, and the older keys
      in the order they are tried. */
  datatype Aliases = Aliases(key: Key, older: seq<Key>)

  predicate Has(m: map<Key, nat>, k: Key) { k in m && m[k] > 0 }

  /** Every saved port keeps its key, and every port was saved before. */
  ghost predicate Extends(saved: map<Key, nat>, m: map<Key, nat>) {
    && (forall k :: k in saved ==> k in m)
    && (forall k :: Has(saved, k) ==> Has(m, k) && m[k] == saved[k])
    && PortsIn(m) <= PortsIn(saved)
  }

  ghost function PortsIn(m: map<Key, nat>): set<nat> { set k | k in m && m[k] > 0 :: m[k] }

  lemma CopyExtends(m: map<Key, nat>, k: Key, o: Key)
    requires Has(m, o) && !Has(m, k)
    ensures Extends(m, m[k := m[o]])
  {
    var c := m[k := m[o]];
    forall p | p in PortsIn(c) ensures p in PortsIn(m) {
      var x :| x in c && c[x] > 0 && c[x] == p;
      assert if x == k then p == m[o] else x in m && m[x] == p;
    }
  }

  predicate KnownByOlder(m: map<Key, nat>, n: Aliases) { exists j :: 0 <= j < |n.older| && Has(m, n.older[j]) }

  /** Nothing is left to upgrade. */
  ghost predicate Upgraded(nodes: seq<Aliases>, saved: map<Key, nat>, stable: Key -> Key) {
    && (forall i :: 0 <= i < |nodes| && KnownByOlder(saved, nodes[i]) ==> Has(saved, nodes[i].key))
    && (forall k :: Has(saved, k) ==> stable(k) in saved)
  }

  function OlderPort(m: map<Key, nat>, older: seq<Key>): Option<nat> {
    if older == [] then None
    else if Has(m, older[0]) then Some(m[older[0]])
    else OlderPort(m, older[1..])
  }

  function Bridged(m: map<Key, nat>, n: Aliases): map<Key, nat> {
    var port := OlderPort(m, n.older);
    if Has(m, n.key) || port.None? then m else m[n.key := port.value]
  }

  function BridgedAll(m: map<Key, nat>, nodes: seq<Aliases>): map<Key, nat> {
    if nodes == [] then m else Bridged(BridgedAll(m, nodes[..|nodes| - 1]), nodes[|nodes| - 1])
  }

  lemma {:induction false} OlderPortFrom(m: map<Key, nat>, older: seq<Key>, i: nat)
    requires i <= |older| && forall j :: 0 <= j < i ==> !Has(m, older[j])
    ensures OlderPort(m, older) == OlderPort(m, older[i..])
  {
    if i > 0 {
      OlderPortFrom(m, older[1..], i - 1);
      assert older[1..][i - 1..] == older[i..];
    } else {
      assert older[0..] == older;
    }
  }

  /** Gives one node the port of its first older key that has one. */
  method BridgeNode(n: Aliases, saved: map<Key, nat>) returns (m: map<Key, nat>)
    ensures m == Bridged(saved, n) && Extends(saved, m)
    ensures Has(saved, n.key) || !KnownByOlder(saved, n) ==> m == saved
    ensures KnownByOlder(saved, n) ==> Has(m, n.key)
  {
    m := saved;
    if n.key in saved && saved[n.key] > 0 {
      return;
    }
    for i := 0 to |n.older|
      invariant m == saved && forall j :: 0 <= j < i ==> !Has(saved, n.older[j])
    {
      var k := n.older[i];
      OlderPortFrom(saved, n.older, i);
      if k in saved && saved[k] > 0 {
        CopyExtends(saved, n.key, k);
        m := saved[n.key := saved[k]];
        return;
      }
    }
    OlderPortFrom(saved, n.older, |n.older|);
  }

  lemma ExtendsTrans(a: map<Key, nat>, b: map<Key, nat>, c: map<Key, nat>)
    requires Extends(a, b) && Extends(b, c)
    ensures Extends(a, c)
  {
    hide PortsIn;
  }

  // ------------------------------------------------------- the order of keys

  predicate Least(s: set<Key>, k: Key) { k in s && forall x :: x in s ==> Leq(k.name, x.name) }

  lemma LeastOf(s: set<Key>) returns (k: Key)
    requires s != {}
    ensures Least(s, k)
  {
    k := SomeLeast(s, (k: Key) => k.name);
  }

  /** The keys of a map that stand for `key` now and have a port. */
  ghost function Standing(m: map<Key, nat>, stable: Key -> Key, key: Key): set<Key> {
    set k | k in m && m[k] > 0 && stable(k) == key
  }

  /** What the second loop makes of `first`: a key it misses gets the port of the
      least of its old keys, and nothing else is added. */
  ghost predicate Completes(first: map<Key, nat>, stable: Key -> Key, m: map<Key, nat>) {
    && (forall k :: k in first ==> k in m && m[k] == first[k])
    && (forall key :: key in m && key !in first ==> Standing(first, stable, key) != {})
    && (forall key, k :: key !in first && Least(Standing(first, stable, key), k) ==> key in m && m[key] == first[k])
  }

  /** Where `key` stands while keys of `todo` are still to come; `k` is the least
      of its old keys. */
  ghost predicate StandsAt(first: map<Key, nat>, m: map<Key, nat>, todo: set<Key>, key: Key, k: Key)
    requires k in first
  {
    if k in todo then key !in m else key in m && m[key] == first[k]
  }

  /** The same while keys of `todo` are still to come, the least first. */
  ghost predicate Completing(first: map<Key, nat>, stable: Key -> Key, m: map<Key, nat>, todo: set<Key>) {
    && (forall k :: k in first ==> k in m && m[k] == first[k])
    && (forall key :: key in m && key !in first ==> Standing(first, stable, key) != {})
    && (forall key, k :: key !in first && Least(Standing(first, stable, key), k) ==> StandsAt(first, m, todo, key, k))
  }

  lemma StandsNext(first: map<Key, nat>, stable: Key -> Key, m: map<Key, nat>, todo: set<Key>, k: Key, key: Key, l: Key)
    requires k in first && k in m && m[k] == first[k] && k in todo
    requires forall x :: x in todo ==> Leq(k.name, x.name)
    requires key !in first && Least(Standing(first, stable, key), l) && StandsAt(first, m, todo, key, l)
    ensures StandsAt(first, if stable(k) !in m && m[k] > 0 then m[stable(k) := m[k]] else m, todo - {k}, key, l)
  {
    hide Leq;
    if key == stable(k) && m[k] > 0 {
      assert k in Standing(first, stable, key);
      if l in todo {
        LeqAntisymmetric(l.name, k.name);
      }
    }
  }

  lemma CompletesNext(first: map<Key, nat>, stable: Key -> Key, m: map<Key, nat>, todo: set<Key>, k: Key)
    requires Completing(first, stable, m, todo) && todo <= first.Keys && k in todo
    requires forall x :: x in todo ==> Leq(k.name, x.name)
    ensures k in m
      && Completing(first, stable, if stable(k) !in m && m[k] > 0 then m[stable(k) := m[k]] else m, todo - {k})
  {
    hide Leq, StandsAt;
    var m' := if stable(k) !in m && m[k] > 0 then m[stable(k) := m[k]] else m;
    if m[k] > 0 {
      assert k in Standing(first, stable, stable(k));
    }
    forall key, l | key !in first && Least(Standing(first, stable, key), l)
      ensures StandsAt(first, m', todo - {k}, key, l) {
      assert StandsAt(first, m, todo, key, l);
      StandsNext(first, stable, m, todo, k, key, l);
    }
  }

  lemma Completed(first: map<Key, nat>, stable: Key -> Key, m: map<Key, nat>)
    requires Completing(first, stable, m, {})
    ensures Completes(first, stable, m)
  {
    forall key, k | key !in first && Least(Standing(first, stable, key), k) ensures key in m && m[key] == first[k] {
      assert StandsAt(first, m, {}, key, k);
    }
  }

  /** The second loop: old keys in ascending order, so that the result does not
      depend on how the map is traversed. */
  method CompleteKeys(first: map<Key, nat>, stable: Key -> Key) returns (m: map<Key, nat>)
    ensures Completes(first, stable, m) && Extends(first, m)
  {
    m := first;
    var todo := first.Keys;
    assert Completing(first, stable, m, todo);
    hide Leq, Completing, Completes, PortsIn;
    while todo != {}
      invariant todo <= first.Keys && Completing(first, stable, m, todo) && Extends(first, m)
      decreases |todo|
    {
      ghost var least := LeastOf(todo);
      var k :| k in todo && forall x :: x in todo ==> Leq(k.name, x.name);
      CompletesNext(first, stable, m, todo, k);
      if stable(k) !in m && m[k] > 0 {
        ghost var before := m;
        CopyExtends(m, stable(k), k);
        m := m[stable(k) := m[k]];
        ExtendsTrans(first, before, m);
      }
      todo := todo - {k};
    }
    Completed(first, stable, m);
  }

  lemma SameCompletion(first: map<Key, nat>, stable: Key -> Key, m: map<Key, nat>, m': map<Key, nat>, key: Key)
    requires Completes(first, stable, m) && Completes(first, stable, m') && (key in m || key in m')
    ensures key in m && key in m' && m[key] == m'[key]
  {
    hide Leq, Standing, Least;
    if key !in first {
      var k := LeastOf(Standing(first, stable, key));
      assert Least(Standing(first, stable, key), k);
      LeastIsOld(first, stable, key, k);
    }
  }

  lemma LeastIsOld(first: map<Key, nat>, stable: Key -> Key, key: Key, k: Key)
    requires Least(Standing(first, stable, key), k)
    ensures k in first
  {}

  /** What is completed is determined by the map it starts from. */
  lemma CompletionIsUnique(first: map<Key, nat>, stable: Key -> Key, m: map<Key, nat>, m': map<Key, nat>)
    requires Completes(first, stable, m) && Completes(first, stable, m')
    ensures m == m'
  {
    hide Completes;
    forall key | key in m || key in m' ensures key in m && key in m' && m[key] == m'[key] {
      SameCompletion(first, stable, m, m', key);
    }
  }

  /** Upgrades an old port map: no saved port is lost, moved or invented; a node
      known by an older key is known by its current one; every saved key's current
      form is known; an upgraded map is left alone; and the result is determined. */
  method BridgeLegacyPortKeys(nodes: seq<Aliases>, saved: map<Key, nat>, stable: Key -> Key) returns (m: map<Key, nat>)
    ensures Extends(saved, m) && Completes(BridgedAll(saved, nodes), stable, m)
    ensures forall i :: 0 <= i < |nodes| && KnownByOlder(saved, nodes[i]) ==> Has(m, nodes[i].key)
    ensures forall k :: Has(saved, k) ==> stable(k) in m
    ensures Upgraded(nodes, saved, stable) ==> m == saved
  {
    m := saved;
    hide PortsIn, Bridged;
    for i := 0 to |nodes|
      invariant Extends(saved, m) && m == BridgedAll(saved, nodes[..i])
      invariant forall j :: 0 <= j < i && KnownByOlder(saved, nodes[j]) ==> Has(m, nodes[j].key)
      invariant Upgraded(nodes, saved, stable) ==> m == saved
    {
      var next := BridgeNode(nodes[i], m);
      ExtendsTrans(saved, m, next);
      assert KnownByOlder(saved, nodes[i]) ==> KnownByOlder(m, nodes[i]);
      assert nodes[..i + 1][..i] == nodes[..i];
      m := next;
    }
    assert nodes[..|nodes|] == nodes;
    var first := m;
    m := CompleteKeys(first, stable);
    ExtendsTrans(saved, first, m);
    Upgrades(saved, first, stable, m);
  }

  lemma Upgrades(saved: map<Key, nat>, first: map<Key, nat>, stable: Key -> Key, m: map<Key, nat>)
    requires Extends(saved, first) && Completes(first, stable, m)
    ensures forall k :: Has(saved, k) ==> stable(k) in m
    ensures first == saved && (forall k :: Has(saved, k) ==> stable(k) in saved) ==> m == saved
  {
    forall k | Has(saved, k) ensures stable(k) in m {
      assert k in Standing(first, stable, stable(k));
      var l := LeastOf(Standing(first, stable, stable(k)));
    }
    if first == saved && forall k :: Has(saved, k) ==> stable(k) in saved {
      forall key | key in m ensures key in saved {
        assert forall k :: k in Standing(first, stable, key) ==> Has(saved, k);
      }
      assert m == saved;
    }
  }
}
