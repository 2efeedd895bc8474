/** Read-modify-write of one configuration file by several processes: a sidecar
    lock, a lock on the inode with a recheck that the path still names it, and
    then either an atomic rename or a write in place. Every system call is one
    step, and the steps of all callers interleave freely. */
module FileUpdate {

  type Bytes = seq<int>
  type Edit = Bytes -> Bytes

  datatype Owner = Free | Writer(id: nat) | Reader(id: nat)

  /** `version` records how many committed edits the content includes. */
  datatype Inode = Inode(content: Bytes, owner: Owner, version: nat)

  /** A caller that cannot hold the sidecar may only write in place. */
  datatype Kind = WithSidecar | InPlaceOnly

  datatype Phase =
    | Start
    | Opening(attempt: nat)
    | Opened(ino: nat, attempt: nat)          // descriptor open, inode not yet locked
    | Locked(ino: nat, attempt: nat)          // locked, path not yet rechecked
    | Checked(ino: nat)                       // the path still named the locked inode
    | Computed(ino: nat, next: Bytes)         // content read, edit applied
    | Writing(ino: nat, next: Bytes, at: nat) // in place: this many bytes written
    | Committed(ino: nat)
    | Leaving(ok: bool)                       // inode unlocked
    | Done(ok: bool)

  datatype Call = Call(kind: Kind, edit: Edit, phase: Phase)

  datatype Reading =
    | ROpening
    | ROpened(ino: nat, since: nat)
    | RLocked(ino: nat, since: nat)
    | RRead(ino: nat, since: nat, data: Bytes, version: nat)
    | RDone(since: nat, data: Bytes, version: nat)

  datatype Entry = Entry(call: nat, edit: Edit)

  /** `log` lists the committed edits in commit order; no step reads it. */
  datatype State = State(
    inodes: seq<Inode>, path: nat, sidecar: Owner,
    calls: seq<Call>, readers: seq<Reading>, log: seq<Entry>)

  datatype Action =
    | Begin(kind: Kind, edit: Edit)
    | TakeSidecar(c: nat)
    | Open(c: nat)
    | Lock(c: nat)
    | Recheck(c: nat)
    | Compute(c: nat)
    | Rename(c: nat)
    | StartInPlace(c: nat)
    | WriteBytes(c: nat, upto: nat)
    | Truncate(c: nat)
    | Unlock(c: nat)
    | Leave(c: nat)
    | BeginRead
    | OpenRead(r: nat)
    | LockRead(r: nat)
    | ReadAll(r: nat)
    | UnlockRead(r: nat)

  const MAX_ATTEMPTS: nat := 32

  // ----------------------------------------------------------------- steps

  predicate At(s: State, c: nat) { c < |s.calls| }

  function PhaseOf(s: State, c: nat): Phase
    requires At(s, c)
  {
    s.calls[c].phase
  }

  predicate HasInode(p: Phase) { p.Locked? || p.Checked? || p.Computed? || p.Writing? || p.Committed? }

  predicate Bounded(s: State, p: Phase) { p.Opened? || HasInode(p) ==> p.ino < |s.inodes| }

  predicate BoundedRead(s: State, p: Reading) { p.ROpened? || p.RLocked? || p.RRead? ==> p.ino < |s.inodes| }

  predicate CallEnabled(s: State, c: nat, a: Action)
    requires At(s, c) && Bounded(s, PhaseOf(s, c)) && s.path < |s.inodes|
  {
    var p := PhaseOf(s, c);
    match a
    case TakeSidecar(_) => p.Start? && (s.calls[c].kind.WithSidecar? ==> s.sidecar.Free?)
    case Open(_) => p.Opening?
    case Lock(_) => p.Opened? && s.inodes[p.ino].owner.Free?
    case Recheck(_) => p.Locked?
    case Compute(_) => p.Checked?
    case Rename(_) => p.Computed? && s.calls[c].kind.WithSidecar?
    case StartInPlace(_) => p.Computed?
    case WriteBytes(_, upto) => p.Writing? && p.at < upto <= |p.next|
    case Truncate(_) => p.Writing? && p.at == |p.next| <= |s.inodes[p.ino].content|
    case Unlock(_) => p.Committed?
    case Leave(_) => p.Leaving?
    case _ => false
  }

  predicate ReadEnabled(s: State, r: nat, a: Action)
    requires r < |s.readers| && BoundedRead(s, s.readers[r])
  {
    var p := s.readers[r];
    match a
    case OpenRead(_) => p.ROpening?
    case LockRead(_) => p.ROpened? && s.inodes[p.ino].owner.Free?
    case ReadAll(_) => p.RLocked?
    case UnlockRead(_) => p.RRead?
    case _ => false
  }

  predicate IsRead(a: Action) { a.OpenRead? || a.LockRead? || a.ReadAll? || a.UnlockRead? }

  predicate Enabled(s: State, a: Action) {
    s.path < |s.inodes| &&
    if a.Begin? || a.BeginRead? then true
    else if IsRead(a) then a.r < |s.readers| && BoundedRead(s, s.readers[a.r]) && ReadEnabled(s, a.r, a)
    else At(s, a.c) && Bounded(s, PhaseOf(s, a.c)) && CallEnabled(s, a.c, a)
  }

  function To(s: State, c: nat, p: Phase): State
    requires At(s, c)
  {
    s.(calls := s.calls[c := s.calls[c].(phase := p)])
  }

  function SetOwner(inodes: seq<Inode>, i: nat, o: Owner): seq<Inode>
    requires i < |inodes|
  {
    inodes[i := inodes[i].(owner := o)]
  }

  /** The content after the first `n` bytes of `next` were written over it. */
  function Overwritten(content: Bytes, next: Bytes, n: nat): Bytes
    requires n <= |next|
  {
    next[..n] + if n <= |content| then content[n..] else []
  }

  function CallStep(s: State, c: nat, a: Action): State
    requires At(s, c) && Bounded(s, PhaseOf(s, c)) && s.path < |s.inodes| && CallEnabled(s, c, a)
  {
    var p := PhaseOf(s, c);
    match a
    case TakeSidecar(_) =>
      To(if s.calls[c].kind.WithSidecar? then s.(sidecar := Writer(c)) else s, c, Opening(0))
    case Open(_) => To(s, c, Opened(s.path, p.attempt))
    case Lock(_) => To(s.(inodes := SetOwner(s.inodes, p.ino, Writer(c))), c, Locked(p.ino, p.attempt))
    case Recheck(_) =>
      if p.ino == s.path then To(s, c, Checked(p.ino))
      else To(s.(inodes := SetOwner(s.inodes, p.ino, Free)), c,
              if p.attempt + 1 < MAX_ATTEMPTS then Opening(p.attempt + 1) else Leaving(false))
    case Compute(_) => To(s, c, Computed(p.ino, s.calls[c].edit(s.inodes[p.ino].content)))
    case Rename(_) =>
      To(s.(inodes := s.inodes + [Inode(p.next, Free, |s.log| + 1)], path := |s.inodes|,
            log := s.log + [Entry(c, s.calls[c].edit)]), c, Committed(p.ino))
    case StartInPlace(_) => To(s, c, Writing(p.ino, p.next, 0))
    case WriteBytes(_, upto) =>
      To(s.(inodes :=
        s.inodes[p.ino := s.inodes[p.ino].(content := Overwritten(s.inodes[p.ino].content, p.next, upto))]),
         c, Writing(p.ino, p.next, upto))
    case Truncate(_) =>
      To(s.(inodes :=
        s.inodes[p.ino := s.inodes[p.ino].(content := s.inodes[p.ino].content[..|p.next|], version := |s.log| + 1)],
            log := s.log + [Entry(c, s.calls[c].edit)]), c, Committed(p.ino))
    case Unlock(_) => To(s.(inodes := SetOwner(s.inodes, p.ino, Free)), c, Leaving(true))
    case Leave(_) =>
      To(if s.calls[c].kind.WithSidecar? then s.(sidecar := Free) else s, c, Done(p.ok))
  }

  function ReadStep(s: State, r: nat, a: Action): State
    requires r < |s.readers| && BoundedRead(s, s.readers[r]) && ReadEnabled(s, r, a)
  {
    var p := s.readers[r];
    match a
    case OpenRead(_) => s.(readers := s.readers[r := ROpened(s.path, |s.log|)])
    case LockRead(_) =>
      s.(inodes := SetOwner(s.inodes, p.ino, Reader(r)), readers := s.readers[r := RLocked(p.ino, p.since)])
    case ReadAll(_) =>
      s.(readers := s.readers[r := RRead(p.ino, p.since, s.inodes[p.ino].content, s.inodes[p.ino].version)])
    case UnlockRead(_) =>
      s.(inodes := SetOwner(s.inodes, p.ino, Free), readers := s.readers[r := RDone(p.since, p.data, p.version)])
  }

  function Step(s: State, a: Action): State
    requires Enabled(s, a)
  {
    if a.Begin? then s.(calls := s.calls + [Call(a.kind, a.edit, Start)])
    else if a.BeginRead? then s.(readers := s.readers + [ROpening])
    else if IsRead(a) then ReadStep(s, a.r, a)
    else CallStep(s, a.c, a)
  }

  function Apply(s: State, a: Action): State {
    if Enabled(s, a) then Step(s, a) else s
  }

  function Init(content: Bytes): State {
    State([Inode(content, Free, 0)], 0, Free, [], [], [])
  }

  function Exec(content: Bytes, run: seq<Action>): State
    decreases |run|
  {
    if run == [] then Init(content) else Apply(Exec(content, run[..|run| - 1]), run[|run| - 1])
  }

  // ------------------------------------------------------- reference meaning

  /** The edits of the log applied one after the other. */
  function Replay(content: Bytes, log: seq<Entry>): Bytes {
    if log == [] then content
    else log[|log| - 1].edit(Replay(content, log[..|log| - 1]))
  }

  lemma ReplaySnoc(content: Bytes, log: seq<Entry>, e: Entry)
    ensures Replay(content, log + [e]) == e.edit(Replay(content, log))
  {
    assert (log + [e])[..|log|] == log;
  }

  // -------------------------------------------------------------- invariant

  ghost predicate Mid(calls: seq<Call>, owner: Owner) {
    owner.Writer? && owner.id < |calls| && calls[owner.id].phase.Writing?
  }

  /** Every inode holds a complete version, unless its lock holder is writing it. */
  ghost predicate ContentsOk(inodes: seq<Inode>, calls: seq<Call>, log: seq<Entry>, content: Bytes) {
    forall i :: 0 <= i < |inodes| ==>
      && inodes[i].version <= |log|
      && (!Mid(calls, inodes[i].owner) ==> inodes[i].content == Replay(content, log[..inodes[i].version]))
  }

  /** Lock owners and phases agree. */
  ghost predicate LocksOk(inodes: seq<Inode>, calls: seq<Call>, readers: seq<Reading>) {
    && (forall c :: 0 <= c < |calls| && HasInode(calls[c].phase) ==>
          calls[c].phase.ino < |inodes| && inodes[calls[c].phase.ino].owner == Writer(c))
    && (forall i :: 0 <= i < |inodes| && inodes[i].owner.Writer? ==>
          inodes[i].owner.id < |calls| && HasInode(calls[inodes[i].owner.id].phase)
            && calls[inodes[i].owner.id].phase.ino == i)
    && (forall r :: 0 <= r < |readers| && (readers[r].RLocked? || readers[r].RRead?) ==>
          readers[r].ino < |inodes| && inodes[readers[r].ino].owner == Reader(r))
  }

  /** Past the recheck, the locked inode is the one the path names, the new
      content is the edit of the latest version, and a prefix of it is written. */
  ghost predicate CallOk(call: Call, path: nat, inodes: seq<Inode>, latest: Bytes) {
    var p := call.phase;
    && (p.Opened? ==> p.ino < |inodes|)
    && (p.Checked? || p.Computed? || p.Writing? ==> p.ino == path)
    && (p.Computed? || p.Writing? ==> p.next == call.edit(latest))
    && (p.Writing? ==> path < |inodes| && p.at <= |p.next| && p.at <= |inodes[path].content|
                       && inodes[path].content[..p.at] == p.next[..p.at])
  }

  ghost predicate CallsOk(s: State, content: Bytes) {
    forall c :: 0 <= c < |s.calls| ==> CallOk(s.calls[c], s.path, s.inodes, Replay(content, s.log))
  }

  predicate InSidecar(p: Phase) { !p.Start? && !p.Done? }

  ghost predicate SidecarOk(calls: seq<Call>, sidecar: Owner) {
    forall c :: 0 <= c < |calls| && calls[c].kind.WithSidecar? && InSidecar(calls[c].phase) ==> sidecar == Writer(c)
  }

  predicate HasCommitted(p: Phase) { p.Committed? || (p.Leaving? && p.ok) || (p.Done? && p.ok) }

  /** The log lists exactly the calls that committed, each once, with its edit. */
  ghost predicate LogOk(calls: seq<Call>, log: seq<Entry>) {
    && (forall i :: 0 <= i < |log| ==>
          log[i].call < |calls| && log[i].edit == calls[log[i].call].edit && HasCommitted(calls[log[i].call].phase))
    && (forall i, j :: 0 <= i < j < |log| ==> log[i].call != log[j].call)
    && (forall c :: 0 <= c < |calls| && HasCommitted(calls[c].phase) ==> Logged(log, c))
  }

  ghost predicate Logged(log: seq<Entry>, c: nat) {
    exists i :: 0 <= i < |log| && log[i].call == c
  }

  ghost predicate ReaderOk(p: Reading, inodes: seq<Inode>, log: seq<Entry>, content: Bytes) {
    && (p.ROpened? || p.RLocked? ==> p.ino < |inodes| && p.since <= inodes[p.ino].version)
    && (p.RRead? || p.RDone? ==>
          p.since <= p.version <= |log| && p.data == Replay(content, log[..p.version]))
  }

  ghost predicate ReadersOk(s: State, content: Bytes) {
    forall r :: 0 <= r < |s.readers| ==> ReaderOk(s.readers[r], s.inodes, s.log, content)
  }

  ghost predicate Inv(s: State, content: Bytes) {
    && s.path < |s.inodes| && s.inodes[s.path].version == |s.log|
    && ContentsOk(s.inodes, s.calls, s.log, content)
    && LocksOk(s.inodes, s.calls, s.readers)
    && CallsOk(s, content)
    && SidecarOk(s.calls, s.sidecar)
    && LogOk(s.calls, s.log)
    && ReadersOk(s, content)
  }

  // -------------------------------------------- one lemma for each conjunct

  /** Contents and versions stay; a writer in the middle stays in the middle. */
  lemma ContentsKept(inodes: seq<Inode>, calls: seq<Call>, inodes': seq<Inode>, calls': seq<Call>, log: seq<Entry>,
                     content: Bytes)
    requires ContentsOk(inodes, calls, log, content) && |inodes'| == |inodes|
    requires forall i :: 0 <= i < |inodes| ==>
      && inodes'[i].content == inodes[i].content && inodes'[i].version == inodes[i].version
      && (Mid(calls, inodes[i].owner) ==> Mid(calls', inodes'[i].owner))
    ensures ContentsOk(inodes', calls', log, content)
  {}

  /** The writer of inode `i` moves on within its critical section. */
  lemma LocksMoved(inodes: seq<Inode>, calls: seq<Call>, readers: seq<Reading>, c: nat, p: Phase)
    requires LocksOk(inodes, calls, readers) && c < |calls|
    requires HasInode(p) == HasInode(calls[c].phase) && (HasInode(p) ==> p.ino == calls[c].phase.ino)
    ensures LocksOk(inodes, calls[c := calls[c].(phase := p)], readers)
  {}

  lemma LockTaken(inodes: seq<Inode>, calls: seq<Call>, readers: seq<Reading>, c: nat, p: Phase, i: nat)
    requires LocksOk(inodes, calls, readers) && c < |calls| && i < |inodes| && inodes[i].owner.Free?
    requires !HasInode(calls[c].phase) && HasInode(p) && p.ino == i
    ensures LocksOk(SetOwner(inodes, i, Writer(c)), calls[c := calls[c].(phase := p)], readers)
  {}

  lemma LockDropped(inodes: seq<Inode>, calls: seq<Call>, readers: seq<Reading>, c: nat, p: Phase, i: nat)
    requires LocksOk(inodes, calls, readers) && c < |calls|
    requires HasInode(calls[c].phase) && calls[c].phase.ino == i && i < |inodes| && !HasInode(p)
    ensures LocksOk(SetOwner(inodes, i, Free), calls[c := calls[c].(phase := p)], readers)
  {}

  /** Nobody else is past the recheck on the inode a caller has locked. */
  lemma Exclusive(s: State, content: Bytes, c: nat, d: nat)
    requires LocksOk(s.inodes, s.calls, s.readers) && CallsOk(s, content)
    requires c < |s.calls| && d < |s.calls|
    requires var p, q := s.calls[c].phase, s.calls[d].phase;
      (p.Checked? || p.Computed? || p.Writing?) && (q.Checked? || q.Computed? || q.Writing?)
    ensures c == d
  {
    assert CallOk(s.calls[c], s.path, s.inodes, Replay(content, s.log));
    assert CallOk(s.calls[d], s.path, s.inodes, Replay(content, s.log));
  }

  lemma LogMoved(calls: seq<Call>, log: seq<Entry>, c: nat, p: Phase)
    requires LogOk(calls, log) && c < |calls| && HasCommitted(p) == HasCommitted(calls[c].phase)
    ensures LogOk(calls[c := calls[c].(phase := p)], log)
  {}

  lemma LogGrew(calls: seq<Call>, log: seq<Entry>, c: nat, p: Phase)
    requires LogOk(calls, log) && c < |calls| && !HasCommitted(calls[c].phase) && HasCommitted(p)
    ensures LogOk(calls[c := calls[c].(phase := p)], log + [Entry(c, calls[c].edit)])
  {
    var log' := log + [Entry(c, calls[c].edit)];
    var calls' := calls[c := calls[c].(phase := p)];
    forall d | 0 <= d < |calls'| && HasCommitted(calls'[d].phase) ensures Logged(log', d) {
      if d == c {
        assert log'[|log|].call == c;
      } else {
        assert Logged(log, d);
        var i :| 0 <= i < |log| && log[i].call == d;
        assert log'[i].call == d;
      }
    }
  }

  lemma SidecarMoved(calls: seq<Call>, sidecar: Owner, c: nat, p: Phase)
    requires SidecarOk(calls, sidecar) && c < |calls| && InSidecar(p) == InSidecar(calls[c].phase)
    ensures SidecarOk(calls[c := calls[c].(phase := p)], sidecar)
  {}

  lemma CallsMoved(s: State, content: Bytes, s': State, c: nat)
    requires CallsOk(s, content) && c < |s.calls| && s'.path == s.path && s'.log == s.log
    requires |s'.calls| == |s.calls| && |s'.inodes| == |s.inodes|
    requires forall d :: 0 <= d < |s.calls| && d != c ==> s'.calls[d] == s.calls[d]
    requires forall i :: 0 <= i < |s.inodes| ==> s'.inodes[i].content == s.inodes[i].content
    requires CallOk(s'.calls[c], s.path, s'.inodes, Replay(content, s.log))
    ensures CallsOk(s', content)
  {
    forall d | 0 <= d < |s'.calls| ensures CallOk(s'.calls[d], s'.path, s'.inodes, Replay(content, s'.log)) {
      if d != c {
        assert CallOk(s.calls[d], s.path, s.inodes, Replay(content, s.log));
      }
    }
  }

  lemma ReadersKept(s: State, s': State, content: Bytes)
    requires ReadersOk(s, content) && s'.readers == s.readers && |s.inodes| <= |s'.inodes| && s.log <= s'.log
    requires forall i :: 0 <= i < |s.inodes| ==> s.inodes[i].version <= s'.inodes[i].version
    ensures ReadersOk(s', content)
  {
    forall r | 0 <= r < |s'.readers| ensures ReaderOk(s'.readers[r], s'.inodes, s'.log, content) {
      var p := s.readers[r];
      assert ReaderOk(p, s.inodes, s.log, content);
      if p.RRead? || p.RDone? {
        assert s'.log[..p.version] == s.log[..p.version];
      }
    }
  }

  // -------------------------------------------------------------- preservation

  /** A caller changes its own phase without touching any inode. */
  lemma PhaseOnly(s: State, content: Bytes, c: nat, p: Phase, sidecar: Owner)
    requires Inv(s, content) && At(s, c)
    requires HasInode(p) == HasInode(s.calls[c].phase) && (HasInode(p) ==> p.ino == s.calls[c].phase.ino)
    requires !s.calls[c].phase.Writing? && HasCommitted(p) == HasCommitted(s.calls[c].phase)
    requires CallOk(s.calls[c].(phase := p), s.path, s.inodes, Replay(content, s.log))
    requires SidecarOk(s.calls[c := s.calls[c].(phase := p)], sidecar)
    ensures Inv(To(s.(sidecar := sidecar), c, p), content)
  {
    var s' := To(s.(sidecar := sidecar), c, p);
    ContentsKept(s.inodes, s.calls, s'.inodes, s'.calls, s.log, content);
    LocksMoved(s.inodes, s.calls, s.readers, c, p);
    LogMoved(s.calls, s.log, c, p);
    CallsMoved(s, content, s', c);
    ReadersKept(s, s', content);
    hide ContentsOk, LocksOk, LogOk, SidecarOk, CallsOk, ReadersOk, CallOk;
  }

  /** A caller locks or unlocks an inode, holding no write. */
  lemma Relock(s: State, content: Bytes, c: nat, p: Phase, i: nat, o: Owner)
    requires Inv(s, content) && At(s, c) && i < |s.inodes|
    requires !s.calls[c].phase.Writing? && !p.Writing? && HasCommitted(p) == HasCommitted(s.calls[c].phase)
    requires InSidecar(p) && InSidecar(s.calls[c].phase)
    requires CallOk(s.calls[c].(phase := p), s.path, s.inodes, Replay(content, s.log))
    requires !Mid(s.calls, s.inodes[i].owner)
    requires LocksOk(SetOwner(s.inodes, i, o), s.calls[c := s.calls[c].(phase := p)], s.readers)
    ensures Inv(To(s.(inodes := SetOwner(s.inodes, i, o)), c, p), content)
  {
    var s' := To(s.(inodes := SetOwner(s.inodes, i, o)), c, p);
    ContentsKept(s.inodes, s.calls, s'.inodes, s'.calls, s.log, content);
    LogMoved(s.calls, s.log, c, p);
    SidecarMoved(s.calls, s.sidecar, c, p);
    CallsMoved(s, content, s', c);
    ReadersKept(s, s', content);
    hide ContentsOk, LocksOk, LogOk, SidecarOk, CallsOk, ReadersOk, CallOk;
  }

  lemma LockKeepsInv(s: State, content: Bytes, c: nat)
    requires Inv(s, content) && Enabled(s, Lock(c))
    ensures Inv(CallStep(s, c, Lock(c)), content)
  {
    var p := s.calls[c].phase;
    LockTaken(s.inodes, s.calls, s.readers, c, Locked(p.ino, p.attempt), p.ino);
    Relock(s, content, c, Locked(p.ino, p.attempt), p.ino, Writer(c));
  }

  lemma UnlockKeepsInv(s: State, content: Bytes, c: nat, p: Phase)
    requires Inv(s, content) && At(s, c) && (s.calls[c].phase.Locked? || s.calls[c].phase.Committed?)
    requires p.Opening? || p.Leaving?
    requires p.Leaving? && p.ok <==> s.calls[c].phase.Committed?
    requires s.calls[c].phase.ino < |s.inodes|
    ensures Inv(To(s.(inodes := SetOwner(s.inodes, s.calls[c].phase.ino, Free)), c, p), content)
  {
    var i := s.calls[c].phase.ino;
    LockDropped(s.inodes, s.calls, s.readers, c, p, i);
    Relock(s, content, c, p, i, Free);
  }

  lemma RecheckPassed(s: State, content: Bytes, c: nat)
    requires Inv(s, content) && At(s, c) && s.calls[c].phase.Locked? && s.calls[c].phase.ino == s.path
    ensures Inv(To(s, c, Checked(s.path)), content)
  {
    SidecarMoved(s.calls, s.sidecar, c, Checked(s.path));
    PhaseOnly(s, content, c, Checked(s.path), s.sidecar);
    assert s.(sidecar := s.sidecar) == s;
  }

  lemma RecheckKeepsInv(s: State, content: Bytes, c: nat)
    requires Inv(s, content) && Enabled(s, Recheck(c))
    ensures Inv(CallStep(s, c, Recheck(c)), content)
  {
    hide ContentsOk, LocksOk, CallsOk, LogOk, ReadersOk, SidecarOk, CallOk;
    var p := s.calls[c].phase;
    if p.ino == s.path {
      RecheckPassed(s, content, c);
    } else {
      UnlockKeepsInv(s, content, c, if p.attempt + 1 < MAX_ATTEMPTS then Opening(p.attempt + 1) else Leaving(false));
    }
  }

  lemma ComputeKeepsInv(s: State, content: Bytes, c: nat)
    requires Inv(s, content) && Enabled(s, Compute(c))
    ensures Inv(CallStep(s, c, Compute(c)), content)
  {
    var p := s.calls[c].phase;
    assert CallOk(s.calls[c], s.path, s.inodes, Replay(content, s.log));
    assert s.log[..|s.log|] == s.log;
    assert !Mid(s.calls, s.inodes[p.ino].owner);
    SidecarMoved(s.calls, s.sidecar, c, Computed(p.ino, s.calls[c].edit(s.inodes[p.ino].content)));
    PhaseOnly(s, content, c, Computed(p.ino, s.calls[c].edit(s.inodes[p.ino].content)), s.sidecar);
  }

  lemma StartInPlaceKeepsInv(s: State, content: Bytes, c: nat)
    requires Inv(s, content) && Enabled(s, StartInPlace(c))
    ensures Inv(CallStep(s, c, StartInPlace(c)), content)
  {
    var p := s.calls[c].phase;
    assert CallOk(s.calls[c], s.path, s.inodes, Replay(content, s.log));
    SidecarMoved(s.calls, s.sidecar, c, Writing(p.ino, p.next, 0));
    PhaseOnly(s, content, c, Writing(p.ino, p.next, 0), s.sidecar);
  }

  lemma EnterKeepsInv(s: State, content: Bytes, c: nat)
    requires Inv(s, content) && Enabled(s, TakeSidecar(c))
    ensures Inv(CallStep(s, c, TakeSidecar(c)), content)
  {
    var sidecar := if s.calls[c].kind.WithSidecar? then Writer(c) else s.sidecar;
    PhaseOnly(s, content, c, Opening(0), sidecar);
  }

  lemma OpenKeepsInv(s: State, content: Bytes, c: nat)
    requires Inv(s, content) && Enabled(s, Open(c))
    ensures Inv(CallStep(s, c, Open(c)), content)
  {
    var p := Opened(s.path, s.calls[c].phase.attempt);
    SidecarMoved(s.calls, s.sidecar, c, p);
    PhaseOnly(s, content, c, p, s.sidecar);
  }

  lemma LeaveKeepsInv(s: State, content: Bytes, c: nat)
    requires Inv(s, content) && Enabled(s, Leave(c))
    ensures Inv(CallStep(s, c, Leave(c)), content)
  {
    var sidecar := if s.calls[c].kind.WithSidecar? then Free else s.sidecar;
    PhaseOnly(s, content, c, Done(s.calls[c].phase.ok), sidecar);
  }

  lemma OverwriteMore(content: Bytes, next: Bytes, at: nat, upto: nat)
    requires at <= |next| && at <= |content| && content[..at] == next[..at] && at <= upto <= |next|
    ensures |Overwritten(content, next, upto)| >= upto && Overwritten(content, next, upto)[..upto] == next[..upto]
  {}

  lemma WriteKeepsInv(s: State, content: Bytes, c: nat, upto: nat)
    requires Inv(s, content) && Enabled(s, WriteBytes(c, upto))
    ensures Inv(CallStep(s, c, WriteBytes(c, upto)), content)
  {
    var p := s.calls[c].phase;
    assert CallOk(s.calls[c], s.path, s.inodes, Replay(content, s.log));
    var s' := CallStep(s, c, WriteBytes(c, upto));
    var q := Writing(p.ino, p.next, upto);
    OverwriteMore(s.inodes[p.ino].content, p.next, p.at, upto);
    LocksMoved(s.inodes, s.calls, s.readers, c, q);
    WriteContents(s, content, c, s', q);
    WriteCalls(s, content, c, s', q);
    LogMoved(s.calls, s.log, c, q);
    SidecarMoved(s.calls, s.sidecar, c, q);
    ReadersKept(s, s', content);
    SameOwners(s.inodes, s'.inodes, s'.calls, s.readers);
    hide ContentsOk, LocksOk, LogOk, SidecarOk, CallsOk, ReadersOk, CallOk, Overwritten;
  }

  lemma SameOwners(inodes: seq<Inode>, inodes': seq<Inode>, calls: seq<Call>, readers: seq<Reading>)
    requires LocksOk(inodes, calls, readers) && |inodes| == |inodes'|
    requires forall i :: 0 <= i < |inodes| ==> inodes'[i].owner == inodes[i].owner
    ensures LocksOk(inodes', calls, readers)
  {}

  /** While a caller writes in place, its inode is exempt from being complete. */
  lemma WriteContents(s: State, content: Bytes, c: nat, s': State, q: Phase)
    requires ContentsOk(s.inodes, s.calls, s.log, content) && LocksOk(s.inodes, s.calls, s.readers)
    requires At(s, c) && s.calls[c].phase.Writing? && q.Writing?
    requires s'.calls == s.calls[c := s.calls[c].(phase := q)] && |s'.inodes| == |s.inodes|
    requires forall i :: 0 <= i < |s.inodes| ==>
      && s'.inodes[i].owner == s.inodes[i].owner && s'.inodes[i].version == s.inodes[i].version
      && (i != s.calls[c].phase.ino ==> s'.inodes[i].content == s.inodes[i].content)
    ensures ContentsOk(s'.inodes, s'.calls, s.log, content)
  {
    forall i | 0 <= i < |s.inodes| && !Mid(s'.calls, s'.inodes[i].owner)
      ensures s'.inodes[i].content == Replay(content, s.log[..s'.inodes[i].version])
    {
      assert !Mid(s.calls, s.inodes[i].owner);
    }
  }

  lemma WriteCalls(s: State, content: Bytes, c: nat, s': State, q: Phase)
    requires CallsOk(s, content) && LocksOk(s.inodes, s.calls, s.readers) && At(s, c) && s.calls[c].phase.Writing?
    requires s'.calls == s.calls[c := s.calls[c].(phase := q)] && s'.path == s.path && s'.log == s.log
    requires |s'.inodes| == |s.inodes|
    requires CallOk(s'.calls[c], s.path, s'.inodes, Replay(content, s.log))
    ensures CallsOk(s', content)
  {
    forall d | 0 <= d < |s'.calls| ensures CallOk(s'.calls[d], s'.path, s'.inodes, Replay(content, s'.log)) {
      if d != c {
        assert CallOk(s.calls[d], s.path, s.inodes, Replay(content, s.log));
        if s.calls[d].phase.Writing? {
          Exclusive(s, content, c, d);
        }
      }
    }
  }

  /** Committing: nobody else is past the recheck, and the log gains one edit. */
  lemma CommitCalls(s: State, content: Bytes, c: nat, s': State)
    requires CallsOk(s, content) && LocksOk(s.inodes, s.calls, s.readers) && At(s, c)
    requires s.calls[c].phase.Computed? || s.calls[c].phase.Writing?
    requires s'.calls == s.calls[c := s.calls[c].(phase := Committed(s.calls[c].phase.ino))]
    requires |s'.inodes| >= |s.inodes|
    ensures CallsOk(s', content)
  {
    forall d | 0 <= d < |s'.calls| ensures CallOk(s'.calls[d], s'.path, s'.inodes, Replay(content, s'.log)) {
      if d != c {
        assert CallOk(s.calls[d], s.path, s.inodes, Replay(content, s.log));
        var q := s.calls[d].phase;
        if q.Checked? || q.Computed? || q.Writing? {
          Exclusive(s, content, c, d);
        }
      }
    }
  }

  /** Once a caller is past the recheck, nobody else writes any inode. */
  lemma NoOtherWriter(s: State, content: Bytes, c: nat, i: nat)
    requires LocksOk(s.inodes, s.calls, s.readers) && CallsOk(s, content) && At(s, c) && i < |s.inodes|
    requires s.calls[c].phase.Computed? || s.calls[c].phase.Writing?
    ensures Mid(s.calls, s.inodes[i].owner) ==> s.inodes[i].owner == Writer(c) && s.calls[c].phase.ino == i
  {
    if Mid(s.calls, s.inodes[i].owner) {
      Exclusive(s, content, c, s.inodes[i].owner.id);
    }
  }

  lemma RenameContents(s: State, content: Bytes, c: nat)
    requires Inv(s, content) && Enabled(s, Rename(c))
    ensures var s' := CallStep(s, c, Rename(c)); ContentsOk(s'.inodes, s'.calls, s'.log, content)
  {
    var s' := CallStep(s, c, Rename(c));
    assert CallOk(s.calls[c], s.path, s.inodes, Replay(content, s.log));
    ReplaySnoc(content, s.log, Entry(c, s.calls[c].edit));
    forall i | 0 <= i < |s'.inodes|
      ensures s'.inodes[i].version <= |s'.log|
      ensures !Mid(s'.calls, s'.inodes[i].owner) ==>
        s'.inodes[i].content == Replay(content, s'.log[..s'.inodes[i].version])
    {
      if i < |s.inodes| {
        assert s'.log[..s.inodes[i].version] == s.log[..s.inodes[i].version];
        NoOtherWriter(s, content, c, i);
      } else {
        assert s'.log[..|s'.log|] == s'.log;
      }
    }
  }

  lemma LocksRenamed(inodes: seq<Inode>, calls: seq<Call>, readers: seq<Reading>, n: Inode)
    requires LocksOk(inodes, calls, readers) && n.owner.Free?
    ensures LocksOk(inodes + [n], calls, readers)
  {}

  lemma RenameKeepsInv(s: State, content: Bytes, c: nat)
    requires Inv(s, content) && Enabled(s, Rename(c))
    ensures Inv(CallStep(s, c, Rename(c)), content)
  {
    var s' := CallStep(s, c, Rename(c));
    var q := Committed(s.calls[c].phase.ino);
    RenameContents(s, content, c);
    LocksMoved(s.inodes, s.calls, s.readers, c, q);
    LocksRenamed(s.inodes, s'.calls, s.readers, s'.inodes[|s.inodes|]);
    CommitCalls(s, content, c, s');
    LogGrew(s.calls, s.log, c, q);
    SidecarMoved(s.calls, s.sidecar, c, q);
    ReadersKept(s, s', content);
    hide ContentsOk, LocksOk, LogOk, SidecarOk, CallsOk, ReadersOk, CallOk;
  }

  lemma TruncateContents(s: State, content: Bytes, c: nat)
    requires Inv(s, content) && Enabled(s, Truncate(c))
    ensures var s' := CallStep(s, c, Truncate(c)); ContentsOk(s'.inodes, s'.calls, s'.log, content)
  {
    var s' := CallStep(s, c, Truncate(c));
    var p := s.calls[c].phase;
    assert CallOk(s.calls[c], s.path, s.inodes, Replay(content, s.log));
    ReplaySnoc(content, s.log, Entry(c, s.calls[c].edit));
    assert s'.inodes[p.ino].content == p.next by {
      assert p.next[..|p.next|] == p.next;
    }
    forall i | 0 <= i < |s'.inodes|
      ensures s'.inodes[i].version <= |s'.log|
      ensures !Mid(s'.calls, s'.inodes[i].owner) ==>
        s'.inodes[i].content == Replay(content, s'.log[..s'.inodes[i].version])
    {
      if i == p.ino {
        assert s'.log[..|s'.log|] == s'.log;
      } else {
        assert s'.log[..s.inodes[i].version] == s.log[..s.inodes[i].version];
        NoOtherWriter(s, content, c, i);
      }
    }
  }

  lemma TruncateKeepsInv(s: State, content: Bytes, c: nat)
    requires Inv(s, content) && Enabled(s, Truncate(c))
    ensures Inv(CallStep(s, c, Truncate(c)), content)
  {
    var s' := CallStep(s, c, Truncate(c));
    var q := Committed(s.calls[c].phase.ino);
    assert CallOk(s.calls[c], s.path, s.inodes, Replay(content, s.log));
    TruncateContents(s, content, c);
    LocksMoved(s.inodes, s.calls, s.readers, c, q);
    SameOwners(s.inodes, s'.inodes, s'.calls, s.readers);
    CommitCalls(s, content, c, s');
    LogGrew(s.calls, s.log, c, q);
    SidecarMoved(s.calls, s.sidecar, c, q);
    ReadersKept(s, s', content);
    hide ContentsOk, LocksOk, LogOk, SidecarOk, CallsOk, ReadersOk, CallOk;
  }

  lemma CallKeepsInv(s: State, content: Bytes, c: nat, a: Action)
    requires Inv(s, content) && At(s, c) && Bounded(s, PhaseOf(s, c)) && CallEnabled(s, c, a)
    requires !IsRead(a) && !a.Begin? && !a.BeginRead? && a.c == c
    ensures Inv(CallStep(s, c, a), content)
  {
    match a
    case TakeSidecar(_) => EnterKeepsInv(s, content, c);
    case Open(_) => OpenKeepsInv(s, content, c);
    case Lock(_) => LockKeepsInv(s, content, c);
    case Recheck(_) => RecheckKeepsInv(s, content, c);
    case Compute(_) => ComputeKeepsInv(s, content, c);
    case Rename(_) => RenameKeepsInv(s, content, c);
    case StartInPlace(_) => StartInPlaceKeepsInv(s, content, c);
    case WriteBytes(_, upto) => WriteKeepsInv(s, content, c, upto);
    case Truncate(_) => TruncateKeepsInv(s, content, c);
    case Unlock(_) => UnlockKeepsInv(s, content, c, Leaving(true));
    case Leave(_) => LeaveKeepsInv(s, content, c);
  }

  // ------------------------------------------------------------------ readers

  lemma ReadLocks(inodes: seq<Inode>, calls: seq<Call>, readers: seq<Reading>, r: nat, p: Reading, i: nat, o: Owner)
    requires LocksOk(inodes, calls, readers) && r < |readers| && i < |inodes|
    requires (inodes[i].owner.Free? && o == Reader(r) && p.RLocked? && p.ino == i && !readers[r].RLocked?
      && !readers[r].RRead?)
          || (inodes[i].owner == o == Reader(r) && p.RRead? && p.ino == i)
          || (inodes[i].owner == Reader(r) && o.Free? && p.RDone? && readers[r].RRead? && readers[r].ino == i)
    ensures LocksOk(SetOwner(inodes, i, o), calls, readers[r := p])
  {}

  lemma ReadKeepsInv(s: State, content: Bytes, r: nat, a: Action)
    requires Inv(s, content) && IsRead(a) && a.r == r && Enabled(s, a)
    ensures Inv(ReadStep(s, r, a), content)
  {
    var s' := ReadStep(s, r, a);
    var p := s.readers[r];
    assert ReaderOk(p, s.inodes, s.log, content);
    if !a.OpenRead? {
      var o := if a.UnlockRead? then Free else Reader(r);
      ReadLocks(s.inodes, s.calls, s.readers, r, s'.readers[r], p.ino, o);
      assert SetOwner(s.inodes, p.ino, o) == s'.inodes;
    }
    ContentsKept(s.inodes, s.calls, s'.inodes, s'.calls, s.log, content);
    ReaderSteps(s, content, r, a);
    SameContents(s, s', content);
    hide ContentsOk, LogOk, SidecarOk, CallsOk, ReadersOk, CallOk;
  }

  lemma SameContents(s: State, s': State, content: Bytes)
    requires CallsOk(s, content) && s'.calls == s.calls && s'.path == s.path && s'.log == s.log
    requires |s'.inodes| == |s.inodes|
    requires forall i :: 0 <= i < |s.inodes| ==> s'.inodes[i].content == s.inodes[i].content
    ensures CallsOk(s', content)
  {
    forall d | 0 <= d < |s'.calls| ensures CallOk(s'.calls[d], s'.path, s'.inodes, Replay(content, s'.log)) {
      assert CallOk(s.calls[d], s.path, s.inodes, Replay(content, s.log));
    }
  }

  lemma ReaderSteps(s: State, content: Bytes, r: nat, a: Action)
    requires Inv(s, content) && IsRead(a) && a.r == r && Enabled(s, a)
    ensures ReadersOk(ReadStep(s, r, a), content)
  {
    var s' := ReadStep(s, r, a);
    forall x | 0 <= x < |s'.readers| ensures ReaderOk(s'.readers[x], s'.inodes, s'.log, content) {
      assert ReaderOk(s.readers[x], s.inodes, s.log, content);
      if x == r && a.ReadAll? {
        assert !Mid(s.calls, s.inodes[s.readers[r].ino].owner);
      }
    }
  }

  lemma BeginKeepsInv(s: State, content: Bytes, call: Call)
    requires Inv(s, content) && call.phase.Start?
    ensures Inv(s.(calls := s.calls + [call]), content)
  {
    var s' := s.(calls := s.calls + [call]);
    ContentsKept(s.inodes, s.calls, s'.inodes, s'.calls, s.log, content);
    forall d | 0 <= d < |s'.calls| ensures CallOk(s'.calls[d], s'.path, s'.inodes, Replay(content, s'.log)) {
      if d < |s.calls| {
        assert CallOk(s.calls[d], s.path, s.inodes, Replay(content, s.log));
      }
    }
    hide ContentsOk, CallOk;
  }

  lemma BeginReadKeepsInv(s: State, content: Bytes)
    requires Inv(s, content)
    ensures Inv(s.(readers := s.readers + [ROpening]), content)
  {
    hide ContentsOk, LogOk, SidecarOk, CallOk;
  }

  lemma StepKeepsInv(s: State, content: Bytes, a: Action)
    requires Inv(s, content) && Enabled(s, a)
    ensures Inv(Step(s, a), content)
  {
    hide Inv, CallStep, ReadStep, CallEnabled, ReadEnabled;
    if a.Begin? {
      BeginKeepsInv(s, content, Call(a.kind, a.edit, Start));
    } else if a.BeginRead? {
      BeginReadKeepsInv(s, content);
    } else if IsRead(a) {
      ReadKeepsInv(s, content, a.r, a);
    } else {
      CallKeepsInv(s, content, a.c, a);
    }
  }

  lemma InitInv(content: Bytes)
    ensures Inv(Init(content), content)
  {}

  lemma {:induction false} ExecKeepsInv(content: Bytes, run: seq<Action>)
    ensures Inv(Exec(content, run), content)
    decreases |run|
  {
    if run == [] {
      InitInv(content);
    } else {
      hide Inv, Step, Enabled;
      ExecKeepsInv(content, run[..|run| - 1]);
      var s := Exec(content, run[..|run| - 1]);
      if Enabled(s, run[|run| - 1]) {
        StepKeepsInv(s, content, run[|run| - 1]);
      }
    }
  }

  // ---------------------------------------------------------------- theorems

  /** In every run, the file holds the committed edits applied one after the
      other, except while the holder of its lock is writing it in place. */
  lemma Serialisable(content: Bytes, run: seq<Action>)
    ensures var s := Exec(content, run);
      && s.path < |s.inodes|
      && (!Mid(s.calls, s.inodes[s.path].owner) ==> s.inodes[s.path].content == Replay(content, s.log))
  {
    ExecKeepsInv(content, run);
    var s := Exec(content, run);
    assert s.log[..|s.log|] == s.log;
  }

  /** In every run, a call that succeeded is in the log exactly once, with its
      own edit, and a call that failed is not in it. */
  lemma NoUpdateLost(content: Bytes, run: seq<Action>, c: nat)
    requires c < |Exec(content, run).calls| && Exec(content, run).calls[c].phase.Done?
    ensures var s := Exec(content, run);
      && (s.calls[c].phase.ok <==> Logged(s.log, c))
      && (forall i :: 0 <= i < |s.log| && s.log[i].call == c ==> s.log[i].edit == s.calls[c].edit)
      && (forall i, j :: 0 <= i < |s.log| && 0 <= j < |s.log| && s.log[i].call == c && s.log[j].call == c ==> i == j)
  {
    ExecKeepsInv(content, run);
    hide Exec, ContentsOk, LocksOk, CallsOk, SidecarOk, ReadersOk;
  }

  /** In every run, what a locked reader got is a complete version, at least as
      new as the one the path named when it opened the file. */
  lemma ReadersSeeVersions(content: Bytes, run: seq<Action>, r: nat)
    requires r < |Exec(content, run).readers| && Exec(content, run).readers[r].RDone?
    ensures var s := Exec(content, run); var p := s.readers[r];
      p.since <= p.version <= |s.log| && p.data == Replay(content, s.log[..p.version])
  {
    ExecKeepsInv(content, run);
    var s := Exec(content, run);
    assert ReaderOk(s.readers[r], s.inodes, s.log, content);
  }

  /** The order of edits is never revised. */
  lemma {:induction false} LogOnlyGrows(content: Bytes, run: seq<Action>, more: seq<Action>)
    ensures Exec(content, run).log <= Exec(content, run + more).log
    decreases |more|
  {
    if more == [] {
      assert run + more == run;
    } else {
      var all := run + more;
      assert all[..|all| - 1] == run + more[..|more| - 1];
      LogOnlyGrows(content, run, more[..|more| - 1]);
    }
  }

  /** A call that was finished before another began comes first in the log. */
  lemma FinishedComesFirst(content: Bytes, run: seq<Action>, more: seq<Action>, i: nat, j: nat)
    requires var s, t := Exec(content, run), Exec(content, run + more);
      && i < |t.log| && j < |t.log|
      && t.log[i].call < |s.calls| <= t.log[j].call && s.calls[t.log[i].call].phase.Done?
    ensures i < j
  {
    var s, t := Exec(content, run), Exec(content, run + more);
    var c := t.log[i].call;
    LogOnlyGrows(content, run, more);
    ExecKeepsInv(content, run);
    ExecKeepsInv(content, run + more);
    DoneStays(content, run, more, c);
    hide Exec, ContentsOk, LocksOk, CallsOk, SidecarOk, ReadersOk;
    assert HasCommitted(t.calls[c].phase);
    var k :| 0 <= k < |s.log| && s.log[k].call == c;
    assert t.log[k].call == c;
  }

  lemma {:induction false} DoneStays(content: Bytes, run: seq<Action>, more: seq<Action>, c: nat)
    requires c < |Exec(content, run).calls| && Exec(content, run).calls[c].phase.Done?
    ensures c < |Exec(content, run + more).calls|
    ensures Exec(content, run + more).calls[c].phase == Exec(content, run).calls[c].phase
    decreases |more|
  {
    if more == [] {
      assert run + more == run;
    } else {
      var all := run + more;
      assert all[..|all| - 1] == run + more[..|more| - 1];
      DoneStays(content, run, more[..|more| - 1], c);
      var s := Exec(content, all[..|all| - 1]);
      hide Exec;
      if Enabled(s, all[|all| - 1]) {
        DoneStep(s, all[|all| - 1], c);
      }
    }
  }

  lemma DoneStep(s: State, a: Action, c: nat)
    requires Enabled(s, a) && c < |s.calls| && s.calls[c].phase.Done?
    ensures c < |Step(s, a).calls| && Step(s, a).calls[c].phase == s.calls[c].phase
  {
    if !a.Begin? && !a.BeginRead? && !IsRead(a) {
      SameKinds(s, a.c, a);
      assert a.c != c;
    }
  }

  // ------------------------------------------------- who may run out of tries

  /** A caller with the sidecar has opened the inode the path still names, on its
      first attempt, and never leaves empty-handed. */
  ghost predicate Steady(calls: seq<Call>, path: nat) {
    forall c :: 0 <= c < |calls| && calls[c].kind.WithSidecar? ==> SteadyPhase(calls[c].phase, path)
  }

  predicate SteadyPhase(p: Phase, path: nat) {
    && (p.Opened? || p.Locked? ==> p.ino == path)
    && (p.Opening? || p.Opened? || p.Locked? ==> p.attempt == 0)
    && (p.Leaving? || p.Done? ==> p.ok)
  }

  lemma OwnStepIsSteady(s: State, c: nat, a: Action)
    requires At(s, c) && Bounded(s, PhaseOf(s, c)) && s.path < |s.inodes| && CallEnabled(s, c, a)
    requires s.calls[c].kind.WithSidecar? && SteadyPhase(s.calls[c].phase, s.path)
    ensures SteadyPhase(CallStep(s, c, a).calls[c].phase, CallStep(s, c, a).path)
  {}

  /** The path changes only under the hands of the sidecar's holder, and then no
      other caller with the sidecar is between opening and committing. */
  lemma OtherStepIsSteady(s: State, c: nat, a: Action, d: nat)
    requires At(s, c) && Bounded(s, PhaseOf(s, c)) && s.path < |s.inodes| && CallEnabled(s, c, a)
    requires SidecarOk(s.calls, s.sidecar) && d < |s.calls| && d != c
    requires s.calls[d].kind.WithSidecar? && SteadyPhase(s.calls[d].phase, s.path)
    ensures SteadyPhase(CallStep(s, c, a).calls[d].phase, CallStep(s, c, a).path)
  {
    if a.Rename? && InSidecar(s.calls[d].phase) {
      assert InSidecar(s.calls[c].phase);
    }
  }

  lemma CallStepIsSteady(s: State, c: nat, a: Action, d: nat)
    requires At(s, c) && Bounded(s, PhaseOf(s, c)) && s.path < |s.inodes| && CallEnabled(s, c, a)
    requires SidecarOk(s.calls, s.sidecar) && d < |s.calls|
    requires s.calls[d].kind.WithSidecar? && SteadyPhase(s.calls[d].phase, s.path)
    ensures |CallStep(s, c, a).calls| == |s.calls|
    ensures SteadyPhase(CallStep(s, c, a).calls[d].phase, CallStep(s, c, a).path)
  {
    SameKinds(s, c, a);
    hide CallStep, CallEnabled, SteadyPhase, SidecarOk, Bounded;
    if d == c {
      OwnStepIsSteady(s, d, a);
    } else {
      OtherStepIsSteady(s, c, a, d);
    }
  }

  lemma StepUnfolds(s: State, a: Action)
    requires Enabled(s, a)
    ensures if a.Begin? then Step(s, a).path == s.path && Step(s, a).calls == s.calls + [Call(a.kind, a.edit, Start)]
            else if a.BeginRead? || IsRead(a) then Step(s, a).path == s.path && Step(s, a).calls == s.calls
            else At(s, a.c) && Bounded(s, PhaseOf(s, a.c)) && s.path < |s.inodes| && CallEnabled(s, a.c, a)
                 && Step(s, a) == CallStep(s, a.c, a)
  {
    hide CallStep, CallEnabled, Bounded;
  }

  lemma StepIsSteady(s: State, content: Bytes, a: Action)
    requires Inv(s, content) && Steady(s.calls, s.path) && Enabled(s, a)
    ensures Steady(Step(s, a).calls, Step(s, a).path)
  {
    StepUnfolds(s, a);
    SidecarHolds(s, content);
    hide Inv, Step, Enabled, CallStep, CallEnabled, SidecarOk, Bounded;
    if !a.Begin? && !a.BeginRead? && !IsRead(a) {
      SameKinds(s, a.c, a);
      hide SteadyPhase;
      forall d | 0 <= d < |s.calls| && s.calls[d].kind.WithSidecar?
        ensures SteadyPhase(CallStep(s, a.c, a).calls[d].phase, CallStep(s, a.c, a).path)
      {
        CallStepIsSteady(s, a.c, a, d);
      }
    }
  }

  lemma SidecarHolds(s: State, content: Bytes)
    requires Inv(s, content)
    ensures SidecarOk(s.calls, s.sidecar)
  {}

  lemma SameKinds(s: State, c: nat, a: Action)
    requires At(s, c) && Bounded(s, PhaseOf(s, c)) && s.path < |s.inodes| && CallEnabled(s, c, a)
    ensures |CallStep(s, c, a).calls| == |s.calls|
    ensures forall d :: 0 <= d < |s.calls| ==> CallStep(s, c, a).calls[d].kind == s.calls[d].kind
  {}

  lemma {:induction false} ExecIsSteady(content: Bytes, run: seq<Action>)
    ensures Steady(Exec(content, run).calls, Exec(content, run).path)
    decreases |run|
  {
    if run != [] {
      var before, a := run[..|run| - 1], run[|run| - 1];
      ExecIsSteady(content, before);
      ExecKeepsInv(content, before);
      var s := Exec(content, before);
      hide Inv, Steady, Step, Enabled;
      if Enabled(s, a) {
        StepIsSteady(s, content, a);
      }
    }
  }

  /** In every run, a caller that holds the sidecar finds the path unchanged at its
      first recheck and succeeds; only a caller that cannot hold it may use up its
      attempts. */
  lemma SidecarCallsSucceed(content: Bytes, run: seq<Action>, c: nat)
    requires c < |Exec(content, run).calls| && Exec(content, run).calls[c].kind.WithSidecar?
    ensures var s := Exec(content, run); var p := s.calls[c].phase;
      && (p.Done? ==> p.ok)
      && (p.Opening? ==> p.attempt == 0)
      && (p.Locked? ==> p.ino == s.path)
  {
    ExecIsSteady(content, run);
  }
}
