/** What the file protocol gives, next to what it forbids: a caller gives up only after
    thirty-two failed rechecks, nobody is stuck behind a lock that nobody holds, and a
    caller that is alone gets its edit into the file. */
module FileProgress {
  import opened FileUpdate

  // ---------------------------------------------------------------- attempts

  /** How often call `c` has rechecked the path. */
  function Rechecks(content: Bytes, run: seq<Action>, c: nat): nat
    decreases |run|
  {
    if run == [] then 0
    else
      var before, a := run[..|run| - 1], run[|run| - 1];
      Rechecks(content, before, c) + if a == Recheck(c) && Enabled(Exec(content, before), a) then 1 else 0
  }

  predicate Counts(p: Phase, n: nat) {
    match p
    case Start => n == 0
    case Opening(attempt) => n == attempt < 32
    case Opened(_, attempt) => n == attempt < 32
    case Locked(_, attempt) => n == attempt < 32
    case Leaving(ok) => if ok then 1 <= n <= 32 else n == 32
    case Done(ok) => if ok then 1 <= n <= 32 else n == 32
    case _ => 1 <= n <= 32
  }

  lemma OwnStepCounts(s: State, c: nat, a: Action, n: nat)
    requires At(s, c) && Bounded(s, PhaseOf(s, c)) && s.path < |s.inodes| && CallEnabled(s, c, a)
    requires Counts(PhaseOf(s, c), n)
    ensures |CallStep(s, c, a).calls| == |s.calls|
    ensures Counts(CallStep(s, c, a).calls[c].phase, n + if a.Recheck? then 1 else 0)
    ensures forall d :: 0 <= d < |s.calls| && d != c ==> CallStep(s, c, a).calls[d] == s.calls[d]
  {}

  lemma StepCounts(s: State, a: Action, c: nat, n: nat)
    requires Enabled(s, a)
    requires c < |s.calls| ==> Counts(s.calls[c].phase, n)
    requires c >= |s.calls| ==> n == 0
    ensures c < |Step(s, a).calls| ==> Counts(Step(s, a).calls[c].phase, n + if a == Recheck(c) then 1 else 0)
    ensures c >= |Step(s, a).calls| ==> a != Recheck(c)
    ensures |s.calls| <= |Step(s, a).calls|
  {
    if !a.Begin? && !a.BeginRead? && !IsRead(a) {
      if a.c == c {
        OwnStepCounts(s, c, a, n);
      } else {
        SameKinds(s, a.c, a);
        OthersStay(s, a.c, a);
      }
      hide CallStep;
    }
  }

  lemma OthersStay(s: State, c: nat, a: Action)
    requires At(s, c) && Bounded(s, PhaseOf(s, c)) && s.path < |s.inodes| && CallEnabled(s, c, a)
    ensures |CallStep(s, c, a).calls| == |s.calls|
    ensures forall d :: 0 <= d < |s.calls| && d != c ==> CallStep(s, c, a).calls[d] == s.calls[d]
  {}

  lemma {:induction false} RechecksCounted(content: Bytes, run: seq<Action>, c: nat)
    ensures var s, n := Exec(content, run), Rechecks(content, run, c);
      if c < |s.calls| then Counts(s.calls[c].phase, n) else n == 0
    decreases |run|
  {
    if run != [] {
      var before, a := run[..|run| - 1], run[|run| - 1];
      RechecksCounted(content, before, c);
      ApplyCounts(Exec(content, before), a, c, Rechecks(content, before, c));
      hide Apply, Enabled, Counts;
    }
  }

  lemma ApplyCounts(s: State, a: Action, c: nat, n: nat)
    requires if c < |s.calls| then Counts(s.calls[c].phase, n) else n == 0
    ensures var m := n + if a == Recheck(c) && Enabled(s, a) then 1 else 0;
      if c < |Apply(s, a).calls| then Counts(Apply(s, a).calls[c].phase, m) else m == 0
  {
    hide Step, Enabled, Counts;
    if Enabled(s, a) {
      StepCounts(s, a, c, n);
    }
  }

  /** In every run, a call gives up exactly after thirty-two rechecks that found the path
      moved, and one that succeeds has rechecked no more often than that. */
  lemma GivesUpAfterAllAttempts(content: Bytes, run: seq<Action>, c: nat)
    requires c < |Exec(content, run).calls| && Exec(content, run).calls[c].phase.Done?
    ensures !Exec(content, run).calls[c].phase.ok ==> Rechecks(content, run, c) == 32
    ensures Exec(content, run).calls[c].phase.ok ==> 1 <= Rechecks(content, run, c) <= 32
  {
    RechecksCounted(content, run, c);
  }

  // ------------------------------------------------------------- never stuck

  predicate HoldsRead(p: Reading) { p.RLocked? || p.RRead? }

  /** A lock that is taken has somebody who will give it back. */
  ghost predicate Lent(s: State) {
    && (s.sidecar.Writer? ==> s.sidecar.id < |s.calls| && s.calls[s.sidecar.id].kind.WithSidecar?
                              && InSidecar(s.calls[s.sidecar.id].phase))
    && !s.sidecar.Reader?
    && (forall i :: 0 <= i < |s.inodes| && s.inodes[i].owner.Reader? ==>
          var r := s.inodes[i].owner.id; r < |s.readers| && HoldsRead(s.readers[r]) && s.readers[r].ino == i)
  }

  lemma CallKeepsHeld(s: State, c: nat, a: Action)
    requires At(s, c) && Bounded(s, PhaseOf(s, c)) && s.path < |s.inodes| && CallEnabled(s, c, a)
    requires Lent(s) && SidecarOk(s.calls, s.sidecar) && LocksOk(s.inodes, s.calls, s.readers)
    ensures Lent(CallStep(s, c, a))
  {
    if a.Rename? {
      hide LocksOk, SidecarOk;
    } else if a.WriteBytes? || a.Truncate? {
      hide LocksOk, SidecarOk;
    }
  }

  lemma ReadKeepsHeld(s: State, r: nat, a: Action)
    requires r < |s.readers| && BoundedRead(s, s.readers[r]) && ReadEnabled(s, r, a)
    requires Lent(s) && LocksOk(s.inodes, s.calls, s.readers)
    ensures Lent(ReadStep(s, r, a))
  {}

  lemma StepKeepsHeld(s: State, a: Action)
    requires Enabled(s, a) && Lent(s) && SidecarOk(s.calls, s.sidecar) && LocksOk(s.inodes, s.calls, s.readers)
    ensures Lent(Step(s, a))
  {
    if a.Begin? || a.BeginRead? {
    } else if IsRead(a) {
      ReadKeepsHeld(s, a.r, a);
    } else {
      CallKeepsHeld(s, a.c, a);
    }
    hide CallStep, ReadStep, LocksOk, SidecarOk;
  }

  lemma {:induction false} ExecKeepsHeld(content: Bytes, run: seq<Action>)
    ensures Lent(Exec(content, run)) && Inv(Exec(content, run), content)
    decreases |run|
  {
    ExecKeepsInv(content, run);
    if run != [] {
      var s, a := Exec(content, run[..|run| - 1]), run[|run| - 1];
      ExecKeepsHeld(content, run[..|run| - 1]);
      hide Step, Enabled, Lent;
      if Enabled(s, a) {
        StepKeepsHeld(s, a);
      }
    }
  }

  /** What a call waits for: a sidecar or an inode lock that somebody else holds. */
  ghost predicate Waits(s: State, c: nat)
    requires At(s, c)
  {
    var p := PhaseOf(s, c);
    || (p.Start? && s.calls[c].kind.WithSidecar?
        && exists d :: 0 <= d < |s.calls| && d != c && s.sidecar == Writer(d) && InSidecar(s.calls[d].phase))
    || (p.Opened? && p.ino < |s.inodes| && InodeHeld(s, p.ino, c))
  }

  ghost predicate InodeHeld(s: State, i: nat, c: nat)
    requires i < |s.inodes|
  {
    || (exists d :: 0 <= d < |s.calls| && d != c && s.inodes[i].owner == Writer(d) && HasInode(s.calls[d].phase))
    || (exists r :: 0 <= r < |s.readers| && s.inodes[i].owner == Reader(r) && HoldsRead(s.readers[r]))
  }

  /** The next step of a call is enabled. */
  ghost predicate CanStep(s: State, c: nat)
    requires At(s, c)
  {
    match PhaseOf(s, c)
    case Start => Enabled(s, TakeSidecar(c))
    case Opening(_) => Enabled(s, Open(c))
    case Opened(_, _) => Enabled(s, Lock(c))
    case Locked(_, _) => Enabled(s, Recheck(c))
    case Checked(_) => Enabled(s, Compute(c))
    case Computed(_, _) => Enabled(s, StartInPlace(c)) && (s.calls[c].kind.WithSidecar? ==> Enabled(s, Rename(c)))
    case Writing(_, next, at) =>
      && at <= |next|
      && (at < |next| ==> Enabled(s, WriteBytes(c, |next|))) && (at == |next| ==> Enabled(s, Truncate(c)))
    case Committed(_) => Enabled(s, Unlock(c))
    case Leaving(_) => Enabled(s, Leave(c))
    case Done(_) => true
  }

  /** In every run, a call that is not done can take its next step, unless it waits for
      a lock that another call or a reader holds. */
  lemma CallIsNeverStuck(content: Bytes, run: seq<Action>, c: nat)
    requires c < |Exec(content, run).calls|
    ensures var s := Exec(content, run); Waits(s, c) || CanStep(s, c)
  {
    ExecKeepsHeld(content, run);
    hide Exec;
    var s := Exec(content, run);
    hide *;
    if s.calls[c].phase.Start? {
      StartsOrWaits(s, content, c);
    } else if s.calls[c].phase.Opened? {
      LocksOrWaits(s, content, c);
    } else {
      Places(s, content, c);
      Proceeds(s, c);
    }
  }

  lemma Proceeds(s: State, c: nat)
    requires c < |s.calls| && s.path < |s.inodes| && Bounded(s, s.calls[c].phase)
    requires !s.calls[c].phase.Start? && !s.calls[c].phase.Opened?
    requires var p := s.calls[c].phase; p.Writing? ==> p.at <= |p.next| && p.at <= |s.inodes[p.ino].content|
    ensures CanStep(s, c)
  {
    if s.calls[c].phase.Writing? {
      Writes(s, c);
    }
    hide Bounded;
  }

  lemma Writes(s: State, c: nat)
    requires c < |s.calls| && s.path < |s.inodes| && Bounded(s, s.calls[c].phase) && s.calls[c].phase.Writing?
    requires var p := s.calls[c].phase; p.at <= |p.next| && p.at <= |s.inodes[p.ino].content|
    ensures CanStep(s, c)
  {}

  lemma Places(s: State, content: Bytes, c: nat)
    requires Inv(s, content) && c < |s.calls|
    ensures s.path < |s.inodes| && Bounded(s, s.calls[c].phase)
    ensures var p := s.calls[c].phase;
      p.Writing? ==> p.at <= |p.next| && p.at <= |s.inodes[p.ino].content|
  {
    assert CallOk(s.calls[c], s.path, s.inodes, Replay(content, s.log));
    hide ContentsOk, CallsOk, LogOk, ReadersOk, SidecarOk;
  }

  lemma StartsOrWaits(s: State, content: Bytes, c: nat)
    requires Inv(s, content) && Lent(s) && c < |s.calls| && s.calls[c].phase.Start?
    ensures Waits(s, c) || CanStep(s, c)
  {
    hide ContentsOk, CallsOk, LogOk, ReadersOk, LocksOk;
  }

  lemma LocksOrWaits(s: State, content: Bytes, c: nat)
    requires Inv(s, content) && Lent(s) && c < |s.calls| && s.calls[c].phase.Opened?
    ensures Waits(s, c) || CanStep(s, c)
  {
    Places(s, content, c);
    OwnerHolds(s, content, s.calls[c].phase.ino, c);
    hide Inv, Lent, InodeHeld;
  }

  /** A lock that is not free is held by a caller or a reader. */
  lemma OwnerHolds(s: State, content: Bytes, i: nat, c: nat)
    requires Inv(s, content) && Lent(s) && i < |s.inodes| && (c < |s.calls| ==> !HasInode(s.calls[c].phase))
    ensures s.inodes[i].owner.Free? || InodeHeld(s, i, c)
  {
    hide ContentsOk, CallsOk, LogOk, ReadersOk, SidecarOk;
  }

  /** Nor is a reader. */
  lemma ReaderIsNeverStuck(content: Bytes, run: seq<Action>, r: nat)
    requires r < |Exec(content, run).readers|
    ensures ReaderGoesOn(Exec(content, run), r)
  {
    ExecKeepsHeld(content, run);
    hide Exec;
    ReaderProceeds(Exec(content, run), content, r);
    hide *;
  }

  lemma ReaderProceeds(s: State, content: Bytes, r: nat)
    requires Inv(s, content) && Lent(s) && r < |s.readers|
    ensures ReaderGoesOn(s, r)
  {
    ReaderPlaces(s, content, r);
    if s.readers[r].ROpened? {
      OwnerHolds(s, content, s.readers[r].ino, |s.calls|);
    }
    hide Inv, Lent, InodeHeld;
  }

  ghost predicate ReaderGoesOn(s: State, r: nat)
    requires r < |s.readers|
  {
    match s.readers[r]
    case ROpening => Enabled(s, OpenRead(r))
    case ROpened(i, _) => Enabled(s, LockRead(r)) || (i < |s.inodes| && InodeHeld(s, i, |s.calls|))
    case RLocked(_, _) => Enabled(s, ReadAll(r))
    case RRead(_, _, _, _) => Enabled(s, UnlockRead(r))
    case RDone(_, _, _) => true
  }

  lemma ReaderPlaces(s: State, content: Bytes, r: nat)
    requires Inv(s, content) && r < |s.readers|
    ensures s.path < |s.inodes| && BoundedRead(s, s.readers[r])
  {
    assert ReaderOk(s.readers[r], s.inodes, s.log, content);
    hide ContentsOk, CallsOk, LogOk, SidecarOk;
  }

  // --------------------------------------------------------------- one alone

  /** The state once call `|s.calls|` of this kind and edit has come to phase `p`. */
  function With(s: State, kind: Kind, edit: Edit, p: Phase): State {
    s.(calls := s.calls + [Call(kind, edit, p)])
  }

  lemma Begins(s: State, kind: Kind, edit: Edit)
    requires s.path < |s.inodes|
    ensures Apply(s, Begin(kind, edit)) == With(s, kind, edit, Start)
  {}

  lemma Takes(s: State, kind: Kind, edit: Edit)
    requires s.path < |s.inodes| && (kind.WithSidecar? ==> s.sidecar.Free?)
    ensures Apply(With(s, kind, edit, Start), TakeSidecar(|s.calls|)) ==
      With(s.(sidecar := if kind.WithSidecar? then Writer(|s.calls|) else s.sidecar), kind, edit, Opening(0))
  {}

  lemma Opens(s: State, kind: Kind, edit: Edit)
    requires s.path < |s.inodes|
    ensures Apply(With(s, kind, edit, Opening(0)), Open(|s.calls|)) == With(s, kind, edit, Opened(s.path, 0))
  {}

  lemma Locks(s: State, kind: Kind, edit: Edit)
    requires s.path < |s.inodes| && s.inodes[s.path].owner.Free?
    ensures Apply(With(s, kind, edit, Opened(s.path, 0)), Lock(|s.calls|)) ==
      With(s.(inodes := SetOwner(s.inodes, s.path, Writer(|s.calls|))), kind, edit, Locked(s.path, 0))
  {}

  lemma Checks(s: State, kind: Kind, edit: Edit)
    requires s.path < |s.inodes|
    ensures Apply(With(s, kind, edit, Locked(s.path, 0)), Recheck(|s.calls|)) == With(s, kind, edit, Checked(s.path))
  {}

  lemma Computes(s: State, kind: Kind, edit: Edit)
    requires s.path < |s.inodes|
    ensures Apply(With(s, kind, edit, Checked(s.path)), Compute(|s.calls|)) ==
      With(s, kind, edit, Computed(s.path, edit(s.inodes[s.path].content)))
  {}

  lemma Renames(s: State, edit: Edit, next: Bytes)
    requires s.path < |s.inodes|
    ensures Apply(With(s, WithSidecar, edit, Computed(s.path, next)), Rename(|s.calls|)) ==
      With(s.(inodes := s.inodes + [Inode(next, Free, |s.log| + 1)], path := |s.inodes|,
              log := s.log + [Entry(|s.calls|, edit)]), WithSidecar, edit, Committed(s.path))
  {}

  lemma StartsInPlace(s: State, kind: Kind, edit: Edit, next: Bytes)
    requires s.path < |s.inodes|
    ensures Apply(With(s, kind, edit, Computed(s.path, next)), StartInPlace(|s.calls|)) ==
      With(s, kind, edit, Writing(s.path, next, 0))
  {}

  lemma WritesAll(s: State, kind: Kind, edit: Edit, next: Bytes)
    requires s.path < |s.inodes| && next != []
    ensures Apply(With(s, kind, edit, Writing(s.path, next, 0)), WriteBytes(|s.calls|, |next|)) ==
      With(s.(inodes := s.inodes[s.path := s.inodes[s.path].(content :=
        Overwritten(s.inodes[s.path].content, next, |next|))]), kind, edit, Writing(s.path, next, |next|))
  {}

  lemma Truncates(s: State, kind: Kind, edit: Edit, next: Bytes)
    requires s.path < |s.inodes| && next <= s.inodes[s.path].content
    ensures Apply(With(s, kind, edit, Writing(s.path, next, |next|)), Truncate(|s.calls|)) ==
      With(s.(inodes := s.inodes[s.path := s.inodes[s.path].(content := next, version := |s.log| + 1)],
              log := s.log + [Entry(|s.calls|, edit)]), kind, edit, Committed(s.path))
  {
    assert s.inodes[s.path].content[..|next|] == next;
  }

  lemma Unlocks(s: State, kind: Kind, edit: Edit, i: nat)
    requires s.path < |s.inodes| && i < |s.inodes|
    ensures Apply(With(s, kind, edit, Committed(i)), Unlock(|s.calls|)) ==
      With(s.(inodes := SetOwner(s.inodes, i, Free)), kind, edit, Leaving(true))
  {}

  lemma Leaves(s: State, kind: Kind, edit: Edit)
    requires s.path < |s.inodes|
    ensures Apply(With(s, kind, edit, Leaving(true)), Leave(|s.calls|)) ==
      With(s.(sidecar := if kind.WithSidecar? then Free else s.sidecar), kind, edit, Done(true))
  {}

  lemma Extend(content: Bytes, run: seq<Action>, a: Action, s: State, t: State) returns (longer: seq<Action>)
    requires Exec(content, run) == s && Apply(s, a) == t
    ensures Exec(content, longer) == t && run <= longer
  {
    longer := run + [a];
    assert longer[..|run|] == run;
  }

  /** Up to the new content, with the locks held. */
  function Ready(s: State, kind: Kind, edit: Edit): State
    requires s.path < |s.inodes|
  {
    var t := s.(sidecar := if kind.WithSidecar? then Writer(|s.calls|) else s.sidecar,
                inodes := SetOwner(s.inodes, s.path, Writer(|s.calls|)));
    With(t, kind, edit, Computed(s.path, edit(s.inodes[s.path].content)))
  }

  lemma ReachesReady(content: Bytes, run0: seq<Action>, kind: Kind, edit: Edit) returns (run: seq<Action>)
    requires var s := Exec(content, run0);
      s.path < |s.inodes| && s.inodes[s.path].owner.Free? && (kind.WithSidecar? ==> s.sidecar.Free?)
    ensures run0 <= run && Exec(content, run) == Ready(Exec(content, run0), kind, edit)
  {
    var s := Exec(content, run0);
    var c, i := |s.calls|, s.path;
    var b := s.(sidecar := if kind.WithSidecar? then Writer(c) else s.sidecar);
    var l := b.(inodes := SetOwner(b.inodes, i, Writer(c)));
    Begins(s, kind, edit);
    Takes(s, kind, edit);
    Opens(b, kind, edit);
    Locks(b, kind, edit);
    Checks(l, kind, edit);
    Computes(l, kind, edit);
    hide Exec, Apply, With;
    run := Extend(content, run0, Begin(kind, edit), s, With(s, kind, edit, Start));
    run := Extend(content, run, TakeSidecar(c), With(s, kind, edit, Start), With(b, kind, edit, Opening(0)));
    run := Extend(content, run, Open(c), With(b, kind, edit, Opening(0)), With(b, kind, edit, Opened(i, 0)));
    run := Extend(content, run, Lock(c), With(b, kind, edit, Opened(i, 0)), With(l, kind, edit, Locked(i, 0)));
    run := Extend(content, run, Recheck(c), With(l, kind, edit, Locked(i, 0)), With(l, kind, edit, Checked(i)));
    run := Extend(content, run, Compute(c), With(l, kind, edit, Checked(i)), Ready(s, kind, edit));
  }

  /** From every state in which nobody holds the locks, a caller gets its edit into the
      file: with a new inode under the path, and both locks free again. */
  lemma RenamingAlone(content: Bytes, run0: seq<Action>, edit: Edit) returns (run: seq<Action>)
    requires var s := Exec(content, run0);
      s.path < |s.inodes| && s.inodes[s.path].owner.Free? && s.sidecar.Free?
    ensures var s := Exec(content, run0);
      && run0 <= run
      && Exec(content, run) ==
        With(s.(inodes := s.inodes + [Inode(edit(s.inodes[s.path].content), Free, |s.log| + 1)], path := |s.inodes|,
                log := s.log + [Entry(|s.calls|, edit)]), WithSidecar, edit, Done(true))
  {
    run := ReachesReady(content, run0, WithSidecar, edit);
    var s := Exec(content, run0);
    var c, i, next := |s.calls|, s.path, edit(s.inodes[s.path].content);
    var l := s.(sidecar := Writer(c), inodes := SetOwner(s.inodes, i, Writer(c)));
    var r := l.(inodes := l.inodes + [Inode(next, Free, |s.log| + 1)], path := |s.inodes|, log :=
      s.log + [Entry(c, edit)]);
    var u := r.(inodes := s.inodes + [Inode(next, Free, |s.log| + 1)]);
    assert SetOwner(r.inodes, i, Free) == u.inodes;
    Renames(l, edit, next);
    Unlocks(r, WithSidecar, edit, i);
    Leaves(u, WithSidecar, edit);
    hide Exec, Apply, With;
    run := Extend(content, run, Rename(c), With(l, WithSidecar, edit, Computed(i, next)),
                  With(r, WithSidecar, edit, Committed(i)));
    run := Extend(content, run, Unlock(c), With(r, WithSidecar, edit, Committed(i)),
                  With(u, WithSidecar, edit, Leaving(true)));
    run := Extend(content, run, Leave(c), With(u, WithSidecar, edit, Leaving(true)),
                  With(u.(sidecar := Free), WithSidecar, edit, Done(true)));
  }

  /** The locked state with this content under the path. */
  function Filled(s: State, kind: Kind, now: Bytes): State
    requires s.path < |s.inodes|
  {
    var inode := s.inodes[s.path].(content := now, owner := Writer(|s.calls|));
    s.(sidecar := if kind.WithSidecar? then Writer(|s.calls|) else s.sidecar, inodes := s.inodes[s.path := inode])
  }

  /** The same once the edit is logged. */
  function Logged(s: State, kind: Kind, edit: Edit, next: Bytes): State
    requires s.path < |s.inodes|
  {
    var t := Filled(s, kind, next);
    t.(inodes := t.inodes[s.path := t.inodes[s.path].(version := |s.log| + 1)], log := s.log + [Entry(|s.calls|, edit)])
  }

  function Edited(s: State, edit: Edit, next: Bytes): State
    requires s.path < |s.inodes|
  {
    s.(inodes := s.inodes[s.path := Inode(next, Free, |s.log| + 1)], log := s.log + [Entry(|s.calls|, edit)])
  }

  lemma FillSteps(s: State, kind: Kind, edit: Edit, next: Bytes)
    requires s.path < |s.inodes|
    ensures var was := s.inodes[s.path].content; var l := Filled(s, kind, was);
      var w := Filled(s, kind, Overwritten(was, next, |next|));
      && Apply(With(l, kind, edit, Computed(s.path, next)), StartInPlace(|s.calls|))
           == With(l, kind, edit, Writing(s.path, next, 0))
      && (next == [] ==> w == l)
      && (next != [] ==> Apply(With(l, kind, edit, Writing(s.path, next, 0)), WriteBytes(|s.calls|, |next|))
                           == With(w, kind, edit, Writing(s.path, next, |next|)))
  {
    var was := s.inodes[s.path].content;
    var l, w := Filled(s, kind, was), Filled(s, kind, Overwritten(was, next, |next|));
    StartsInPlace(l, kind, edit, next);
    if next != [] {
      WritesAll(l, kind, edit, next);
      assert l.inodes[s.path := l.inodes[s.path].(content := Overwritten(was, next, |next|))] == w.inodes;
    } else {
      assert Overwritten(was, next, |next|) == was;
    }
    hide Apply, With;
  }

  lemma TruncateStep(s: State, kind: Kind, edit: Edit, next: Bytes)
    requires s.path < |s.inodes|
    ensures var w := Filled(s, kind, Overwritten(s.inodes[s.path].content, next, |next|));
      Apply(With(w, kind, edit, Writing(s.path, next, |next|)), Truncate(|s.calls|))
        == With(Logged(s, kind, edit, next), kind, edit, Committed(s.path))
  {
    var w, t := Filled(s, kind, Overwritten(s.inodes[s.path].content, next, |next|)), Logged(s, kind, edit, next);
    Truncates(w, kind, edit, next);
    assert w.inodes[s.path := w.inodes[s.path].(content := next, version := |s.log| + 1)] == t.inodes;
    hide Apply, With;
  }

  lemma LeaveSteps(s: State, kind: Kind, edit: Edit, next: Bytes)
    requires s.path < |s.inodes| && (kind.WithSidecar? ==> s.sidecar.Free?)
    ensures var u := Edited(s, edit, next).(sidecar := if kind.WithSidecar? then Writer(|s.calls|) else s.sidecar);
      && Apply(With(Logged(s, kind, edit, next), kind, edit, Committed(s.path)), Unlock(|s.calls|))
           == With(u, kind, edit, Leaving(true))
      && Apply(With(u, kind, edit, Leaving(true)), Leave(|s.calls|)) ==
        With(Edited(s, edit, next), kind, edit, Done(true))
  {
    var t := Logged(s, kind, edit, next);
    var u := Edited(s, edit, next).(sidecar := if kind.WithSidecar? then Writer(|s.calls|) else s.sidecar);
    Unlocks(t, kind, edit, s.path);
    assert SetOwner(t.inodes, s.path, Free) == u.inodes;
    Leaves(u, kind, edit);
    hide Apply, With;
  }

  lemma ReadyIsFilled(s: State, kind: Kind, edit: Edit)
    requires s.path < |s.inodes|
    ensures var was := s.inodes[s.path].content;
      Ready(s, kind, edit) == With(Filled(s, kind, was), kind, edit, Computed(s.path, edit(was)))
  {}

  /** The same in place, with or without the sidecar. */
  lemma WritingAlone(content: Bytes, run0: seq<Action>, kind: Kind, edit: Edit) returns (run: seq<Action>)
    requires var s := Exec(content, run0);
      s.path < |s.inodes| && s.inodes[s.path].owner.Free? && (kind.WithSidecar? ==> s.sidecar.Free?)
    ensures var s := Exec(content, run0);
      && run0 <= run
      && Exec(content, run) == With(Edited(s, edit, edit(s.inodes[s.path].content)), kind, edit, Done(true))
  {
    run := ReachesReady(content, run0, kind, edit);
    var s := Exec(content, run0);
    var c, i, was := |s.calls|, s.path, s.inodes[s.path].content;
    var next := edit(was);
    var l, w := Filled(s, kind, was), Filled(s, kind, Overwritten(was, next, |next|));
    ReadyIsFilled(s, kind, edit);
    hide *;
    FillSteps(s, kind, edit, next);
    run := Extend(content, run, StartInPlace(c), With(l, kind, edit, Computed(i, next)),
                  With(l, kind, edit, Writing(i, next, 0)));
    if next != [] {
      run := Extend(content, run, WriteBytes(c, |next|), With(l, kind, edit, Writing(i, next, 0)),
                    With(w, kind, edit, Writing(i, next, |next|)));
    }
    run := EndsInPlace(content, run, s, kind, edit, next);
  }

  lemma EndsInPlace(content: Bytes, run0: seq<Action>, s: State, kind: Kind, edit: Edit, next: Bytes)
    returns (run: seq<Action>)
    requires s.path < |s.inodes| && (kind.WithSidecar? ==> s.sidecar.Free?)
    requires var w := Filled(s, kind, Overwritten(s.inodes[s.path].content, next, |next|));
      Exec(content, run0) == With(w, kind, edit, Writing(s.path, next, |next|))
    ensures run0 <= run && Exec(content, run) == With(Edited(s, edit, next), kind, edit, Done(true))
  {
    var c, t := |s.calls|, Logged(s, kind, edit, next);
    var w := Filled(s, kind, Overwritten(s.inodes[s.path].content, next, |next|));
    var u := Edited(s, edit, next).(sidecar := if kind.WithSidecar? then Writer(c) else s.sidecar);
    hide *;
    TruncateStep(s, kind, edit, next);
    LeaveSteps(s, kind, edit, next);
    run := Extend(content, run0, Truncate(c), With(w, kind, edit, Writing(s.path, next, |next|)),
                  With(t, kind, edit, Committed(s.path)));
    run := Extend(content, run, Unlock(c), With(t, kind, edit, Committed(s.path)), With(u, kind, edit, Leaving(true)));
    run := Extend(content, run, Leave(c), With(u, kind, edit, Leaving(true)),
                  With(Edited(s, edit, next), kind, edit, Done(true)));
  }

  /** A reader of a file nobody has locked gets what the path names. */
  lemma ReadingAlone(s: State)
    requires s.path < |s.inodes| && s.inodes[s.path].owner.Free?
    ensures var r := |s.readers|;
      var pathOpen := Apply(Apply(s, BeginRead), OpenRead(r));
      var e := Apply(Apply(Apply(pathOpen, LockRead(r)), ReadAll(r)), UnlockRead(r));
      && e.readers == s.readers + [RDone(|s.log|, s.inodes[s.path].content, s.inodes[s.path].version)]
      && e == s.(readers := e.readers)
  {
    var r, i := |s.readers|, s.path;
    var b := s.(readers := s.readers + [ROpening]);
    assert Apply(s, BeginRead) == b;
    var o := s.(readers := s.readers + [ROpened(i, |s.log|)]);
    assert Apply(b, OpenRead(r)) == o;
    LocksAndReads(s);
  }

  lemma LocksAndReads(s: State)
    requires s.path < |s.inodes| && s.inodes[s.path].owner.Free?
    ensures var r, i := |s.readers|, s.path;
      var o := s.(readers := s.readers + [ROpened(i, |s.log|)]);
      Apply(Apply(Apply(o, LockRead(r)), ReadAll(r)), UnlockRead(r)) ==
        s.(readers := s.readers + [RDone(|s.log|, s.inodes[i].content, s.inodes[i].version)])
  {
    var r, i := |s.readers|, s.path;
    var o := s.(readers := s.readers + [ROpened(i, |s.log|)]);
    var l := s.(inodes := SetOwner(s.inodes, i, Reader(r)));
    var locked := l.(readers := s.readers + [RLocked(i, |s.log|)]);
    assert Apply(o, LockRead(r)) == locked;
    var read := l.(readers := s.readers + [RRead(i, |s.log|, s.inodes[i].content, s.inodes[i].version)]);
    assert Apply(locked, ReadAll(r)) == read;
    assert SetOwner(l.inodes, i, Free) == s.inodes;
  }
}
