/** The load counter of a node. Dials of every pool that shares the node, and the
    connections they hand out, count themselves in and out in any interleaving;
    a connection counts out on its first close only. */
module Connections {
  import opened SharedStates
  import Dialing

  /** A connection as handed to its user; `once` is set by the first close. */
  class TrackedConn {
    const registry: Registry
    const state: nat
    var once: bool

    constructor (registry: Registry, state: nat)
      ensures this.registry == registry && this.state == state && !once
    {
      this.registry, this.state, once := registry, state, false;
    }

    method Close()
      requires state < |registry.states|
      modifies this, registry`states, registry`counts
      ensures once
      ensures registry.counts == old(registry.counts) + if old(once) then [] else [Out(state)]
      ensures var st := old(registry.states);
        registry.states == if old(once) then st else st[state := st[state].(active := st[state].active - 1)]
    {
      if !once {
        once := true;
        registry.DecActive(state);
      }
    }
  }

  // ------------------------------------------------------------- interleaving

  datatype Phase = Dialling | Open | Over

  /** One outbound dial, from its start to the first close of its connection, by
      the request `owner`. */
  datatype Use = Use(owner: nat, state: nat, phase: Phase)

  datatype Ledger = Ledger(active: seq<int>, uses: seq<Use>)

  const EMPTY := Ledger([], [])

  /** `Create` is a node met for the first time. `Abandon` is a failed dial, or one
      whose request was cancelled. `HandOut` gives the connection to the user. */
  datatype Step = Create | Start(owner: nat, state: nat) | Abandon(use: nat) | HandOut(use: nat) | Close(use: nat)

  predicate Enabled(l: Ledger, s: Step) {
    match s
    case Create => true
    case Start(_, h) => h < |l.active|
    case Abandon(u) => u < |l.uses| && l.uses[u].phase.Dialling?
    case HandOut(u) => u < |l.uses| && l.uses[u].phase.Dialling?
    case Close(u) => u < |l.uses| && !l.uses[u].phase.Dialling?
  }

  function Counted(l: Ledger, h: nat, n: int): seq<int> {
    if h < |l.active| then l.active[h := l.active[h] + n] else l.active
  }

  function Apply(l: Ledger, s: Step): Ledger {
    if !Enabled(l, s) then l
    else
      match s
      case Create => l.(active := l.active + [0])
      case Start(o, h) => Ledger(Counted(l, h, 1), l.uses + [Use(o, h, Dialling)])
      case Abandon(u) => Ledger(Counted(l, l.uses[u].state, -1), l.uses[u := l.uses[u].(phase := Over)])
      case HandOut(u) => l.(uses := l.uses[u := l.uses[u].(phase := Open)])
      case Close(u) =>
        if l.uses[u].phase.Over? then l
        else Ledger(Counted(l, l.uses[u].state, -1), l.uses[u := l.uses[u].(phase := Over)])
  }

  function Exec(run: seq<Step>): Ledger
    decreases |run|
  {
    if run == [] then EMPTY else Apply(Exec(run[..|run| - 1]), run[|run| - 1])
  }

  /** Dials in flight and connections not yet closed, for one node. */
  function InUse(uses: seq<Use>, h: nat): nat {
    if uses == [] then 0
    else
      var u := uses[|uses| - 1];
      InUse(uses[..|uses| - 1], h) + if u.state == h && !u.phase.Over? then 1 else 0
  }

  lemma {:induction false} InUseUpdate(uses: seq<Use>, i: nat, u: Use, h: nat)
    requires i < |uses| && u.state == uses[i].state
    ensures InUse(uses[i := u], h) == InUse(uses, h)
      + (if u.state == h && !u.phase.Over? then 1 else 0) - (if u.state == h && !uses[i].phase.Over? then 1 else 0)
    decreases |uses|
  {
    var front := uses[..|uses| - 1];
    if i < |front| {
      InUseUpdate(front, i, u, h);
      assert uses[i := u][..|uses| - 1] == front[i := u];
    } else {
      assert uses[i := u][..|uses| - 1] == front;
    }
  }

  lemma InUseSnoc(uses: seq<Use>, u: Use, h: nat)
    ensures InUse(uses + [u], h) == InUse(uses, h) + if u.state == h && !u.phase.Over? then 1 else 0
  {
    assert (uses + [u])[..|uses|] == uses;
  }

  lemma {:induction false} InUseNone(uses: seq<Use>, h: nat)
    requires forall i :: 0 <= i < |uses| ==> uses[i].state < h
    ensures InUse(uses, h) == 0
  {
    if uses != [] {
      InUseNone(uses[..|uses| - 1], h);
    }
  }

  ghost predicate Balanced(l: Ledger) {
    && (forall i :: 0 <= i < |l.uses| ==> l.uses[i].state < |l.active|)
    && (forall h :: 0 <= h < |l.active| ==> l.active[h] == InUse(l.uses, h))
  }

  /** In every interleaving, a node's counter is exactly its dials in flight plus
      its open connections, so it is never negative and closing twice counts once. */
  lemma {:induction false} ActiveIsInUse(run: seq<Step>)
    ensures Balanced(Exec(run))
    decreases |run|
  {
    if run != [] {
      ActiveIsInUse(run[..|run| - 1]);
      StepKeepsCount(Exec(run[..|run| - 1]), run[|run| - 1]);
    }
  }

  lemma StepKeepsCount(l: Ledger, s: Step)
    requires Balanced(l)
    ensures Balanced(Apply(l, s))
  {
    var l' := Apply(l, s);
    if s.Create? {
      InUseNone(l.uses, |l.active|);
    } else if Enabled(l, s) {
      forall h | 0 <= h < |l'.active| ensures l'.active[h] == InUse(l'.uses, h) {
        if s.Start? {
          InUseSnoc(l.uses, Use(s.owner, s.state, Dialling), h);
        } else if l' != l {
          InUseUpdate(l.uses, s.use, l'.uses[s.use], h);
        }
      }
    }
  }

  /** The life of one use, in any state: counted in at its start; out when the dial is given
      up or, if it is handed out, at the first close and not again. */
  lemma UseLife(l: Ledger, o: nat, h: nat)
    requires h < |l.active|
    ensures var u := |l.uses|;
      var dialling := Apply(l, Start(o, h));
      var closed := Apply(Apply(dialling, HandOut(u)), Close(u));
      && dialling == Ledger(l.active[h := l.active[h] + 1], l.uses + [Use(o, h, Dialling)])
      && Apply(dialling, Abandon(u)) == Ledger(l.active, l.uses + [Use(o, h, Over)])
      && Apply(dialling, HandOut(u)) == Ledger(dialling.active, l.uses + [Use(o, h, Open)])
      && closed == Ledger(l.active, l.uses + [Use(o, h, Over)]) && Apply(closed, Close(u)) == closed
    ensures Apply(l, Create) == Ledger(l.active + [0], l.uses)
  {
    assert l.active[h := l.active[h] + 1][h := l.active[h]] == l.active;
  }

  lemma RunsExtend(run: seq<Step>, s: Step)
    ensures Exec([]) == EMPTY && Exec(run + [s]) == Apply(Exec(run), s)
  {
    assert (run + [s])[..|run|] == run;
  }

  // ------------------------------------------------------- one request's share

  /** What a step counts for request `o`: just as the registry does it. */
  function CountOf(l: Ledger, s: Step, o: nat): seq<Count> {
    if !Enabled(l, s) then []
    else
      match s
      case Start(p, h) => if p == o then [In(h)] else []
      case Abandon(u) => if l.uses[u].owner == o then [Out(l.uses[u].state)] else []
      case Close(u) => if l.uses[u].owner == o && l.uses[u].phase.Open? then [Out(l.uses[u].state)] else []
      case _ => []
  }

  function CountsOf(run: seq<Step>, o: nat): seq<Count>
    decreases |run|
  {
    if run == [] then []
    else
      var front := run[..|run| - 1];
      CountsOf(front, o) + CountOf(Exec(front), run[|run| - 1], o)
  }

  /** The uses of a node that a request still has. */
  function Held(uses: seq<Use>, o: nat, h: nat): int {
    if uses == [] then 0 else Held(uses[..|uses| - 1], o, h) + Share(uses[|uses| - 1], o, h)
  }

  function Share(u: Use, o: nat, h: nat): int { if u.owner == o && u.state == h && !u.phase.Over? then 1 else 0 }

  /** How often a node was counted in and not out. */
  function Balance(counts: seq<Count>, h: nat): int {
    if counts == [] then 0 else Balance(counts[..|counts| - 1], h) + Effect(counts[|counts| - 1], h)
  }

  function Effect(c: Count, h: nat): int { if c.state != h then 0 else if c.In? then 1 else -1 }

  lemma BalanceSnoc(counts: seq<Count>, c: Count, h: nat)
    ensures Balance(counts + [c], h) == Balance(counts, h) + Effect(c, h)
  {
    assert (counts + [c])[..|counts|] == counts;
  }

  lemma {:induction false} HeldUpdate(uses: seq<Use>, i: nat, u: Use, o: nat, h: nat)
    requires i < |uses|
    ensures Held(uses[i := u], o, h) == Held(uses, o, h) - Share(uses[i], o, h) + Share(u, o, h)
    decreases |uses|
  {
    var front := uses[..|uses| - 1];
    if i < |front| {
      HeldUpdate(front, i, u, o, h);
      assert uses[i := u][..|uses| - 1] == front[i := u];
    } else {
      assert uses[i := u][..|uses| - 1] == front;
    }
  }

  /** In every interleaving, what a request counted in and not out is what it still
      uses. */
  lemma {:induction false} HeldIsBalance(run: seq<Step>, o: nat, h: nat)
    ensures Held(Exec(run).uses, o, h) == Balance(CountsOf(run, o), h)
    decreases |run|
  {
    if run != [] {
      var front, s := run[..|run| - 1], run[|run| - 1];
      HeldIsBalance(front, o, h);
      var c := CountOf(Exec(front), s, o);
      HeldStep(Exec(front), s, o, h);
      if c == [] {
        assert CountsOf(front, o) + c == CountsOf(front, o);
      } else {
        BalanceSnoc(CountsOf(front, o), c[0], h);
      }
    }
  }

  lemma HeldStep(l: Ledger, s: Step, o: nat, h: nat)
    ensures var c := CountOf(l, s, o);
      |c| <= 1
      && Held(Apply(l, s).uses, o, h) == Held(l.uses, o, h) + if c == [] then 0 else Effect(c[0], h)
  {
    if Enabled(l, s) && s.Start? {
      assert (l.uses + [Use(s.owner, s.state, Dialling)])[..|l.uses|] == l.uses;
    } else if Enabled(l, s) && !s.Create? {
      HeldUpdate(l.uses, s.use, l.uses[s.use].(phase := if s.HandOut? then Open else Over), o, h);
    }
  }

  /** A request that counted as a dialer does, among any others, is left with the use
      of the connection it gave and, once that is closed, with none. */
  lemma RequestInLedger(run: seq<Step>, o: nat, h: nat, calls: seq<Dialing.Call>, r: Dialing.Result)
    requires r.Conn? ==> calls != [] && calls[|calls| - 1].member == r.member
    ensures CountsOf(run, o) == Dialing.Uses(calls, r) ==>
      Held(Exec(run).uses, o, h) == if r.Conn? && r.member.shared == h then 1 else 0
    ensures r.Conn? && CountsOf(run, o) == Dialing.Uses(calls, r) + [Out(r.member.shared)] ==>
      Held(Exec(run).uses, o, h) == 0
  {
    HeldIsBalance(run, o, h);
    UsesBalance(calls, r, h);
    if r.Conn? {
      BalanceSnoc(Dialing.Uses(calls, r), Out(r.member.shared), h);
    }
  }

  lemma {:induction false} UsesBalance(calls: seq<Dialing.Call>, r: Dialing.Result, h: nat)
    requires r.Conn? ==> calls != [] && calls[|calls| - 1].member == r.member
    ensures Balance(Dialing.Uses(calls, r), h) == if r.Conn? && r.member.shared == h then 1 else 0
    decreases |calls|
  {
    if calls != [] {
      var front, s := calls[..|calls| - 1], calls[|calls| - 1].member.shared;
      var before := Dialing.Uses(front, Dialing.Refused);
      UsesBalance(front, Dialing.Refused, h);
      BalanceSnoc(before, In(s), h);
      BalanceSnoc(before + [In(s)], Out(s), h);
      assert before + [In(s)] + [Out(s)] == before + [In(s), Out(s)];
    }
  }

  /** What a step counts, over all requests, is what it does to the counters. */
  lemma StepCounts(l: Ledger, s: Step, h: nat)
    requires Balanced(l) && h < |l.active|
    ensures Apply(l, s).active[h] == l.active[h]
      + (if exists o :: CountOf(l, s, o) == [In(h)] then 1 else 0)
      - (if exists o :: CountOf(l, s, o) == [Out(h)] then 1 else 0)
  {
    if Enabled(l, s) && !s.Create? {
      var o := if s.Start? then s.owner else l.uses[s.use].owner;
      assert forall p :: p != o ==> CountOf(l, s, p) == [];
      var _ := CountOf(l, s, o);
    }
  }
}
