/**
 One Fleet state directory over any history of server starts, refusals,
 shutdowns, crashes, live rotations and offline `fleet rotate-passphrase` runs.

 A sealing key is derived from a passphrase and a salt that is never used
 again, so a key is identified with its salt: key n is the one derived from
 salt n. The directory holds the key file, the pending key file of an
 unfinished rotation, the salt in the database, and secrets sealed under keys.

 The environment may crash a process between any two steps (its lock is then
 released by the operating system), refuse any file operation, and let a
 database commit report an error although it was written. A shutdown whose grace
 period is over closes the store and unlocks while requests are still running;
 what they have begun may then happen late, until the process ends.
 */
module FleetState {
  import opened Wrappers
  import opened Runs

  type Key = nat

  datatype Kind = Server | Offline

  /** How far a rotation has come. From WillWritePending on it holds sealMu for writing. */
  datatype Rotation =
    | NoRotation
    | WillWritePending(next: Key)
    | WillCommit(next: Key)
    | WillRename(next: Key)

  datatype Pc =
    | Starting
    | Locked
    | Recovered
    | BadState
    | Serving
    | Closed     // the store is closed, the lock is still held
    | LetGo      // the lock is released, the process has not ended
    | Exited

  datatype Proc = Proc(kind: Kind, pc: Pc, key: Option<Key>, rotation: Rotation, rotated: bool)

  datatype Disk = Disk(keyFile: Key, pending: Option<Key>, salt: Key, sealedUnder: set<Key>)

  datatype Step =
    | Start(p: nat, kind: Kind)
    | TryLock(p: nat)
    | TryLockErr(p: nat)
    | Recover(p: nat)
    | RecoverErr(p: nat)
    | LoadKey(p: nat)
    | LoadErr(p: nat)
    | Seal(p: nat)
    | BeginRotation(p: nat)
    | WritePending(p: nat)
    | WritePendingErr(p: nat)
    | Commit(p: nat)
    | ResealErr(p: nat)
    | CommitReportsErr(p: nat)
    | Rename(p: nat)
    | RenameErr(p: nat)
    | CloseStore(p: nat)
    | Unlock(p: nat)
    | Crash(p: nat)

  datatype State = State(
    lock: Option<nat>,
    procs: map<nat, Proc>,
    disk: Disk,
    nextKey: Key,
    wrongSeal: bool,          // a server sealed a secret with a key other than the store's
    lostCommit: bool,         // a commit was written but reported as failed to a server that goes on serving
    overwrotePending: bool,   // a pending key was written while the key file was not the store's key
    trespass: bool)           // a process that had let go of the lock got in the way, as `Harms` says

  predicate At(s: State, p: nat, pc: Pc) { p in s.procs && s.procs[p].pc == pc }

  predicate Late(s: State, p: nat) { At(s, p, LetGo) }

  /** The process has a key, and requests that may use it: it serves, or has shut down without waiting for them. */
  predicate Rotating(s: State, p: nat) {
    (At(s, p, Serving) || At(s, p, Closed) || Late(s, p)) && s.procs[p].key.Some?
  }

  predicate Enabled(s: State, a: Step) {
    match a
    case Start(p, _) => p !in s.procs
    case TryLock(p) => At(s, p, Starting)
    case TryLockErr(p) => At(s, p, Starting)
    case Recover(p) => At(s, p, Locked)
    case RecoverErr(p) => At(s, p, Locked) && s.disk.pending.Some?
    case LoadKey(p) => At(s, p, Recovered)
    case LoadErr(p) => At(s, p, Recovered)
    case Seal(p) => Rotating(s, p) && s.procs[p].kind.Server? && s.procs[p].rotation.NoRotation?
    // the current passphrase derives the key this process holds, from the salt it read while the store was open
    case BeginRotation(p) =>
      && Rotating(s, p) && s.procs[p].rotation.NoRotation? && (!Late(s, p) ==> s.procs[p].key == Some(s.disk.salt))
      && (s.procs[p].kind.Offline? ==> !s.procs[p].rotated)
    case WritePending(p) => Rotating(s, p) && s.procs[p].rotation.WillWritePending?
    case WritePendingErr(p) => Rotating(s, p) && s.procs[p].rotation.WillWritePending?
    // every sealed value is opened with the old key inside the transaction
    case Commit(p) => Rotating(s, p) && s.procs[p].rotation.WillCommit? && s.disk.sealedUnder <= {s.procs[p].key.value}
    case CommitReportsErr(p) =>
      Rotating(s, p) && s.procs[p].rotation.WillCommit? && s.disk.sealedUnder <= {s.procs[p].key.value}
    case ResealErr(p) => Rotating(s, p) && s.procs[p].rotation.WillCommit?
    case Rename(p) => Rotating(s, p) && s.procs[p].rotation.WillRename? && s.disk.pending.Some?
    case RenameErr(p) => Rotating(s, p) && s.procs[p].rotation.WillRename?
    // a server may have to close during a rotation; the offline command always waits for its own
    case CloseStore(p) =>
      At(s, p, BadState) || (At(s, p, Serving) && (s.procs[p].rotation.NoRotation? || s.procs[p].kind.Server?))
    case Unlock(p) => At(s, p, Closed)
    case Crash(p) => p in s.procs && !s.procs[p].pc.Exited?
  }

  predicate HolderRotates(s: State) {
    && s.lock.Some? && s.lock.value in s.procs
    && (s.procs[s.lock.value].rotation.WillCommit? || s.procs[s.lock.value].rotation.WillRename?)
  }

  /** The holder of the lock relies on the salt it has found: it has loaded or will load the key for it, and use it. */
  predicate HolderRelies(s: State) {
    && s.lock.Some? && s.lock.value in s.procs
    && var proc := s.procs[s.lock.value];
       || (proc.kind.Server? && proc.pc.Recovered?)
       || (proc.key.Some? && proc.kind.Server? && proc.rotation.NoRotation?)
       || (proc.key.Some? && proc.rotation.WillWritePending?)
  }

  /** What must not happen once the lock is released. */
  predicate Harms(s: State, a: Step)
    requires Enabled(s, a)
  {
    match a
    case Seal(p) => s.procs[p].key != Some(s.disk.salt)
    case WritePending(p) => HolderRotates(s)
    case Commit(p) => s.disk.pending != Some(s.procs[p].rotation.next) || HolderRelies(s)
    case CommitReportsErr(p) => s.disk.pending != Some(s.procs[p].rotation.next) || HolderRelies(s)
    case Rename(p) => s.disk.pending != Some(s.disk.salt)
    case _ => false
  }

  /** None of the three events has happened that can cost the store its key. */
  predicate Clean(s: State) { !s.lostCommit && !s.overwrotePending && !s.trespass }

  ghost predicate Init(s: State) {
    && s.lock.None? && s.procs == map[]
    && s.disk.pending.None? && s.disk.salt == s.disk.keyFile && s.disk.sealedUnder <= {s.disk.salt}
    && s.disk.keyFile < s.nextKey
    && !s.wrongSeal && Clean(s)
  }

  /** recoverPendingKey: finish the rename if the store holds the pending key's salt, else discard the pending key. */
  function Recovery(d: Disk): Disk {
    if d.pending.None? then d
    else if d.pending == Some(d.salt) then d.(keyFile := d.pending.value, pending := None)
    else d.(pending := None)
  }

  function Resealed(d: Disk, next: Key): Disk {
    d.(salt := next, sealedUnder := if d.sealedUnder == {} then {} else {next})
  }

  function NextProc(s: State, a: Step): Proc
    requires Enabled(s, a)
  {
    if a.Start? then Proc(a.kind, Starting, None, NoRotation, false)
    else
      var proc := s.procs[a.p];
      match a
      case TryLock(_) => proc.(pc := if s.lock.None? then Locked else Exited)
      case TryLockErr(_) => proc.(pc := Exited)
      case Recover(_) => proc.(pc := Recovered)
      case RecoverErr(_) => proc.(pc := BadState)
      case LoadKey(_) => proc.(pc := Serving, key := Some(s.disk.keyFile))
      case LoadErr(_) => proc.(pc := Serving)
      case Seal(_) => proc
      case BeginRotation(_) => proc.(rotation := WillWritePending(s.nextKey), rotated := true)
      case WritePending(_) => proc.(rotation := WillCommit(proc.rotation.next))
      case Commit(_) => proc.(rotation := WillRename(proc.rotation.next))
      case WritePendingErr(_) => proc.(rotation := NoRotation)
      case CommitReportsErr(_) => proc.(rotation := NoRotation)
      case ResealErr(_) => proc.(rotation := NoRotation)
      case Rename(_) => proc.(key := Some(proc.rotation.next), rotation := NoRotation)
      case RenameErr(_) => proc.(key := Some(proc.rotation.next), rotation := NoRotation)
      case CloseStore(_) => proc.(pc := Closed)
      case Unlock(_) => proc.(pc := LetGo)
      case Crash(_) => proc.(pc := Exited)
  }

  function NextDisk(s: State, a: Step): Disk
    requires Enabled(s, a)
  {
    match a
    case Recover(_) => Recovery(s.disk)
    case Seal(p) => s.disk.(sealedUnder := s.disk.sealedUnder + {s.procs[p].key.value})
    case WritePending(p) => s.disk.(pending := Some(s.procs[p].rotation.next))
    case Commit(p) => Resealed(s.disk, s.procs[p].rotation.next)
    case CommitReportsErr(p) => Resealed(s.disk, s.procs[p].rotation.next)
    // whatever is at the pending path becomes the key file
    case Rename(_) => s.disk.(keyFile := s.disk.pending.value, pending := None)
    case _ => s.disk
  }

  function NextLock(s: State, a: Step): Option<nat> {
    if a.TryLock? && s.lock.None? then Some(a.p)
    else if (a.Unlock? || a.Crash?) && s.lock == Some(a.p) then None
    else s.lock
  }

  function Apply(s: State, a: Step): State
    requires Enabled(s, a)
  {
    State(
      NextLock(s, a),
      s.procs[a.p := NextProc(s, a)],
      NextDisk(s, a),
      if a.BeginRotation? then s.nextKey + 1 else s.nextKey,
      s.wrongSeal || (a.Seal? && s.procs[a.p].key != Some(s.disk.salt)),
      s.lostCommit || (a.CommitReportsErr? && s.procs[a.p].kind.Server? && !Late(s, a.p)),
      s.overwrotePending || (a.WritePending? && s.disk.keyFile != s.disk.salt),
      s.trespass || (Late(s, a.p) && Harms(s, a)))
  }

  ghost predicate Next(s: State, t: State) { exists a: Step :: Enabled(s, a) && t == Apply(s, a) }

  // ---------------------------------------------------------------- exclusion

  /** The process has the store open. One that has closed it may still have requests that touch the directory. */
  predicate StoreOpen(proc: Proc) { proc.pc.Recovered? || proc.pc.BadState? || proc.pc.Serving? }

  predicate HoldsLock(proc: Proc) { proc.pc.Locked? || StoreOpen(proc) || proc.pc.Closed? }

  ghost predicate Exclusive(s: State) {
    forall p :: p in s.procs ==> (HoldsLock(s.procs[p]) <==> s.lock == Some(p))
  }

  /** The holder of the lock is a process of this machine, and exactly it is between locking and unlocking. */
  ghost predicate LockOk(s: State) { Exclusive(s) && (s.lock.Some? ==> s.lock.value in s.procs) }

  predicate LockStep(a: Step) { a.Start? || a.TryLock? || a.TryLockErr? || a.Unlock? || a.Crash? }

  lemma OthersUnchanged(s: State, a: Step)
    requires Enabled(s, a)
    ensures a.p in Apply(s, a).procs
    ensures forall q :: q in Apply(s, a).procs && q != a.p ==> q in s.procs && Apply(s, a).procs[q] == s.procs[q]
  {
    hide Harms, Recovery, Resealed;
  }

  /** The lock goes from nobody to the actor, from the actor to nobody, or stays; the actor's state goes along. */
  ghost predicate Moves(s: State, t: State, p: nat) {
    && s.procs.Keys <= t.procs.Keys && p in t.procs
    && (HoldsLock(t.procs[p]) <==> t.lock == Some(p))
    && (t.lock == s.lock || (s.lock.None? && t.lock == Some(p)) || (s.lock == Some(p) && t.lock.None?))
  }

  lemma LockStepMoves(s: State, a: Step)
    requires LockOk(s) && Enabled(s, a) && LockStep(a)
    ensures Moves(s, Apply(s, a), a.p)
  {
    hide Harms;
  }

  lemma OtherStepMoves(s: State, a: Step)
    requires LockOk(s) && Enabled(s, a) && !LockStep(a)
    ensures Moves(s, Apply(s, a), a.p)
  {
    hide Harms, Recovery, Resealed;
    var t := Apply(s, a);
    assert t.lock == s.lock && t.procs.Keys == s.procs.Keys;
    assert HoldsLock(t.procs[a.p]) <==> HoldsLock(s.procs[a.p]);
  }

  lemma LockMoves(s: State, a: Step)
    requires LockOk(s) && Enabled(s, a)
    ensures Moves(s, Apply(s, a), a.p)
  {
    hide LockOk, Enabled, Apply, LockStep, Moves;
    if LockStep(a) {
      LockStepMoves(s, a);
    } else {
      OtherStepMoves(s, a);
    }
  }

  lemma StepKeepsExclusion(s: State, a: Step)
    requires LockOk(s) && Enabled(s, a)
    ensures LockOk(Apply(s, a))
  {
    OthersUnchanged(s, a);
    LockMoves(s, a);
    hide Apply, Enabled, HoldsLock;
  }

  // ---------------------------------------------------------------- the sealing key

  /** A start that comes up loads the store's key: the rename is done, or recovery will finish it. */
  predicate Recoverable(d: Disk) { Recovery(d).keyFile == d.salt }

  predicate OneKey(d: Disk) { d.sealedUnder <= {d.salt} }

  /** What the holder of the lock knows about the disk. */
  predicate ProcOk(s: State, proc: Proc) {
    && (proc.kind.Server? && proc.pc.Recovered? ==> s.disk.keyFile == s.disk.salt)
    && (proc.key.Some? ==>
          match proc.rotation
          case NoRotation => proc.kind.Server? ==> proc.key == Some(s.disk.salt)
          case WillWritePending(next) => proc.key == Some(s.disk.salt)
          case WillCommit(next) =>
            && proc.key == Some(s.disk.salt) && s.disk.keyFile == s.disk.salt && s.disk.pending == Some(next)
          case WillRename(next) =>
            && s.disk.salt == next
            && (s.disk.pending == Some(next) || (s.disk.pending.None? && s.disk.keyFile == next)))
  }

  predicate HolderOk(s: State) { s.lock.Some? && s.lock.value in s.procs ==> ProcOk(s, s.procs[s.lock.value]) }

  /** A process that has not loaded its state has no key, and only one with a key rotates. */
  predicate Fresh(proc: Proc) {
    && (proc.pc.Starting? || proc.pc.Locked? || proc.pc.Recovered? || proc.pc.BadState? ==> proc.key.None?)
    && (proc.key.None? ==> proc.rotation.NoRotation?)
  }

  /** The key of a rotation that has not committed. */
  function Wants(proc: Proc): Option<Key> {
    if proc.rotation.WillWritePending? || proc.rotation.WillCommit? then Some(proc.rotation.next) else None
  }

  /** Nothing on the disk is sealed or opened with such a key, and before it is written it is not there. */
  predicate KeyUnused(s: State, proc: Proc) {
    Wants(proc).Some? ==>
      var k := Wants(proc).value;
      && k < s.nextKey && k != s.disk.salt && k != s.disk.keyFile
      && (proc.rotation.WillWritePending? ==> s.disk.pending != Some(k))
  }

  ghost predicate WantsApart(procs: map<nat, Proc>) {
    forall p, q :: p in procs && q in procs && p != q && Wants(procs[p]).Some? ==> Wants(procs[p]) != Wants(procs[q])
  }

  /** And it is nobody else's. */
  ghost predicate Unused(s: State) {
    && (forall p :: p in s.procs ==> KeyUnused(s, s.procs[p]))
    && WantsApart(s.procs)
  }

  predicate DiskOk(s: State) {
    && !s.wrongSeal && Recoverable(s.disk) && OneKey(s.disk)
    && s.disk.keyFile < s.nextKey && s.disk.salt < s.nextKey
    && (s.disk.pending.Some? ==> s.disk.pending.value < s.nextKey)
  }

  ghost predicate AllFresh(s: State) { forall p :: p in s.procs ==> Fresh(s.procs[p]) }

  ghost predicate KeyInv(s: State) { DiskOk(s) && AllFresh(s) && Unused(s) && HolderOk(s) }

  ghost predicate Inv(s: State) { LockOk(s) && (Clean(s) ==> KeyInv(s)) }

  lemma ActorStaysFresh(s: State, a: Step)
    requires Enabled(s, a) && (a.p in s.procs ==> Fresh(s.procs[a.p]))
    ensures a.p in Apply(s, a).procs && Fresh(Apply(s, a).procs[a.p])
  {
    hide Harms, Recovery, Resealed;
  }

  lemma StepKeepsFresh(s: State, a: Step)
    requires AllFresh(s) && Enabled(s, a)
    ensures AllFresh(Apply(s, a))
  {
    OthersUnchanged(s, a);
    ActorStaysFresh(s, a);
    hide Apply, Enabled, Fresh;
  }

  /** A new rotation takes a key never used. */
  lemma BeginnerWants(s: State, p: nat)
    requires Enabled(s, BeginRotation(p))
    ensures var t := Apply(s, BeginRotation(p));
      p in t.procs && Wants(t.procs[p]) == Some(s.nextKey) && t.nextKey == s.nextKey + 1
  {
  }

  /** A rotation keeps its key until it commits or fails. */
  lemma ActorWants(s: State, a: Step)
    requires Enabled(s, a) && !a.BeginRotation?
    ensures a.p in Apply(s, a).procs && Apply(s, a).nextKey == s.nextKey
    ensures Wants(Apply(s, a).procs[a.p]).Some? ==>
              a.p in s.procs && Wants(s.procs[a.p]) == Wants(Apply(s, a).procs[a.p])
  {
    hide Harms, Recovery, Resealed;
  }

  /** Only a rotation's own key gets on the disk, and only by its commit becomes the store's. */
  lemma DiskTakesOwnKey(s: State, a: Step)
    requires LockOk(s) && KeyInv(s) && Enabled(s, a) && Clean(Apply(s, a))
    ensures var d, d' := s.disk, Apply(s, a).disk;
      && (d'.salt == d.salt || (a.p in s.procs && Some(d'.salt) == Wants(s.procs[a.p])))
      && (d'.keyFile == d.keyFile || d'.keyFile == d.salt)
      && (d'.pending == d.pending || d'.pending.None? || (a.p in s.procs && d'.pending == Wants(s.procs[a.p])))
  {
  }

  lemma OtherKeyStaysUnused(s: State, a: Step, q: nat)
    requires LockOk(s) && KeyInv(s) && Enabled(s, a) && Clean(Apply(s, a)) && q in s.procs && q != a.p
    ensures KeyUnused(Apply(s, a), s.procs[q])
  {
    DiskTakesOwnKey(s, a);
    if a.BeginRotation? {
      BeginnerWants(s, a.p);
    } else {
      ActorWants(s, a);
    }
    hide Apply, Enabled, LockOk, DiskOk, HolderOk, AllFresh;
    assert KeyUnused(s, s.procs[q]);
  }

  lemma OwnKeyStaysUnused(s: State, a: Step)
    requires LockOk(s) && KeyInv(s) && Enabled(s, a) && Clean(Apply(s, a))
    ensures a.p in Apply(s, a).procs && KeyUnused(Apply(s, a), Apply(s, a).procs[a.p])
  {
    assert a.p in s.procs ==> KeyUnused(s, s.procs[a.p]) && Fresh(s.procs[a.p]);
    hide Harms, Recovery, Resealed, HolderOk, LockOk, Recoverable, OneKey;
  }

  lemma StaysApart(procs: map<nat, Proc>, procs': map<nat, Proc>, p: nat, nextKey: Key)
    requires WantsApart(procs) && p in procs'
    requires forall q :: q in procs' && q != p ==> q in procs && procs'[q] == procs[q]
    requires forall q :: q in procs ==> Wants(procs[q]) != Some(nextKey)
    requires || Wants(procs'[p]).None? || Wants(procs'[p]) == Some(nextKey)
             || (p in procs && Wants(procs'[p]) == Wants(procs[p]))
    ensures WantsApart(procs')
  {
    hide Wants;
  }

  lemma StepKeepsApart(s: State, a: Step)
    requires KeyInv(s) && Enabled(s, a)
    ensures WantsApart(Apply(s, a).procs)
  {
    OthersUnchanged(s, a);
    if a.BeginRotation? {
      BeginnerWants(s, a.p);
    } else {
      ActorWants(s, a);
    }
    hide Apply, Enabled, DiskOk, HolderOk, AllFresh, WantsApart;
    forall q | q in s.procs
      ensures Wants(s.procs[q]) != Some(s.nextKey)
    {
      assert KeyUnused(s, s.procs[q]);
    }
    StaysApart(s.procs, Apply(s, a).procs, a.p, s.nextKey);
  }

  lemma StepKeepsUnused(s: State, a: Step)
    requires LockOk(s) && KeyInv(s) && Enabled(s, a) && Clean(Apply(s, a))
    ensures Unused(Apply(s, a))
  {
    var t := Apply(s, a);
    StepKeepsApart(s, a);
    OthersUnchanged(s, a);
    OwnKeyStaysUnused(s, a);
    hide Apply, Enabled, LockOk, KeyInv, WantsApart, KeyUnused, Clean;
    forall q | q in t.procs
      ensures KeyUnused(t, t.procs[q])
    {
      if q != a.p {
        OtherKeyStaysUnused(s, a, q);
      }
    }
  }

  lemma StepKeepsDisk(s: State, a: Step)
    requires LockOk(s) && KeyInv(s) && Enabled(s, a) && Clean(Apply(s, a))
    ensures DiskOk(Apply(s, a))
  {
  }

  /** The actor holds the lock afterwards: it knows what it did. */
  lemma ActorHolds(s: State, a: Step)
    requires LockOk(s) && KeyInv(s) && Enabled(s, a) && Clean(Apply(s, a)) && Apply(s, a).lock == Some(a.p)
    ensures a.p in Apply(s, a).procs && ProcOk(Apply(s, a), Apply(s, a).procs[a.p])
  {
    assert !Late(s, a.p);
    hide Harms;
  }

  /** The holder stands by: only a late process can have changed the directory, and not in its way. */
  lemma BystanderHolds(s: State, a: Step, q: nat)
    requires LockOk(s) && KeyInv(s) && Enabled(s, a) && Clean(Apply(s, a)) && s.lock == Some(q) && q != a.p
    ensures ProcOk(Apply(s, a), s.procs[q])
  {
    assert a.p in s.procs ==> KeyUnused(s, s.procs[a.p]);
    assert KeyUnused(s, s.procs[q]) && Fresh(s.procs[q]);
    assert !HoldsLock(Apply(s, a).procs[a.p]) || a.p !in s.procs;
  }

  lemma StepKeepsHolder(s: State, a: Step)
    requires LockOk(s) && KeyInv(s) && Enabled(s, a) && Clean(Apply(s, a))
    ensures HolderOk(Apply(s, a))
  {
    var t := Apply(s, a);
    StepKeepsExclusion(s, a);
    OthersUnchanged(s, a);
    LockMoves(s, a);
    hide Apply, Enabled, DiskOk, AllFresh, Unused, ProcOk, LockOk, Clean;
    if t.lock == Some(a.p) {
      ActorHolds(s, a);
    } else if t.lock.Some? {
      BystanderHolds(s, a, t.lock.value);
    }
  }

  lemma StepKeepsKeyInv(s: State, a: Step)
    requires LockOk(s) && KeyInv(s) && Enabled(s, a) && Clean(Apply(s, a))
    ensures KeyInv(Apply(s, a))
  {
    StepKeepsFresh(s, a);
    StepKeepsDisk(s, a);
    StepKeepsHolder(s, a);
    StepKeepsUnused(s, a);
    hide LockOk, DiskOk, AllFresh, Unused, HolderOk, Enabled, Apply;
  }

  lemma EventsStick(s: State, a: Step)
    requires Enabled(s, a) && !Clean(s)
    ensures !Clean(Apply(s, a))
  {
    hide Harms;
  }

  lemma NextKeepsInv(s: State, t: State)
    requires Inv(s) && Next(s, t)
    ensures Inv(t)
  {
    hide Enabled, Apply, KeyInv, LockOk, Clean;
    var a :| Enabled(s, a) && t == Apply(s, a);
    StepKeepsExclusion(s, a);
    if !Clean(s) {
      EventsStick(s, a);
    } else if Clean(t) {
      StepKeepsKeyInv(s, a);
    }
  }

  lemma EveryRunKeepsInv(run: seq<State>)
    requires IsRun(Init, Next, run)
    ensures forall s :: s in run ==> Inv(s)
  {
    forall s, t | Inv(s) && Next(s, t)
      ensures Inv(t)
    {
      NextKeepsInv(s, t);
    }
    InvariantHolds(Init, Next, Inv, run);
  }

  // ---------------------------------------------------------------- theorems

  /** At most one process has the store open, and only while it holds the lock. */
  lemma OneProcessAtATime(run: seq<State>, s: State, p: nat, q: nat)
    requires IsRun(Init, Next, run) && s in run
    requires p in s.procs && StoreOpen(s.procs[p])
    ensures s.lock == Some(p)
    ensures q in s.procs && StoreOpen(s.procs[q]) ==> p == q
  {
    EveryRunKeepsInv(run);
    assert Inv(s);
  }

  /** Whoever changes the directory holds the lock, or shut down during a rotation or a request and is late. */
  lemma OnlyTheLateTrespass(run: seq<State>, s: State, a: Step)
    requires IsRun(Init, Next, run) && s in run && Enabled(s, a) && Apply(s, a).disk != s.disk
    ensures s.lock == Some(a.p) || Late(s, a.p)
  {
    EveryRunKeepsInv(run);
    assert Inv(s);
    hide Harms;
    assert HoldsLock(s.procs[a.p]) || Late(s, a.p);
  }

  /** A server at work that is free to seal. */
  predicate Sealing(s: State, p: nat) {
    && At(s, p, Serving) && s.procs[p].kind.Server?
    && s.procs[p].key.Some? && s.procs[p].rotation.NoRotation?
  }

  /**
   As long as no commit was lost on a server, no pending key was written over an unfinished rename and no late
   step got in the way: no server has sealed with a replaced key, every secret is sealed under the store's key,
   and whoever starts next and comes up will hold that key.
   */
  lemma NoServerSealsWithReplacedKey(run: seq<State>, s: State)
    requires IsRun(Init, Next, run) && s in run && Clean(s)
    ensures !s.wrongSeal && OneKey(s.disk) && Recoverable(s.disk)
    ensures forall p :: Sealing(s, p) ==> s.procs[p].key == Some(s.disk.salt)
  {
    EveryRunKeepsInv(run);
    assert Inv(s);
  }

  // -------------------------------------------------------- what each event costs

  lemma Then(run: seq<State>, a: Step) returns (longer: seq<State>)
    requires IsRun(Init, Next, run) && Enabled(Last(run), a)
    ensures IsRun(Init, Next, longer) && longer == run + [Apply(Last(run), a)]
  {
    var t := Apply(Last(run), a);
    assert Next(Last(run), t);
    Extend(Init, Next, run, t);
    longer := run + [t];
  }

  lemma RotationCanStart(run: seq<State>, p: nat) returns (longer: seq<State>)
    requires IsRun(Init, Next, run) && Sealing(Last(run), p) && Last(run).procs[p].key == Some(Last(run).disk.salt)
    ensures IsRun(Init, Next, longer) && run <= longer && At(Last(longer), p, Serving)
    ensures var s, t := Last(run), Last(longer);
      && t.procs[p] == s.procs[p].(rotation := WillCommit(s.nextKey), rotated := true)
      && t.disk == s.disk.(pending := Some(s.nextKey))
  {
    hide Init, Next, Harms;
    longer := Then(run, BeginRotation(p));
    longer := Then(longer, WritePending(p));
  }

  /** From every reachable state a server at work can complete a rotation, to a key never used before. */
  lemma RotationCanComplete(run: seq<State>, p: nat) returns (longer: seq<State>, key: Key)
    requires IsRun(Init, Next, run) && Clean(Last(run)) && Sealing(Last(run), p)
    ensures IsRun(Init, Next, longer) && run <= longer && Sealing(Last(longer), p)
    ensures Last(longer).procs[p].key == Some(key) && key >= Last(run).nextKey
    ensures Last(longer).disk == Disk(key, None, key, if Last(run).disk.sealedUnder == {} then {} else {key})
  {
    NoServerSealsWithReplacedKey(run, Last(run));
    hide Init, Next, Harms;
    key := Last(run).nextKey;
    longer := RotationCanStart(run, p);
    longer := Then(longer, Commit(p));
    longer := Then(longer, Rename(p));
  }

  /** Writing a pending key, late or not, keeps the directory recoverable exactly when the previous rename is done. */
  lemma PendingKeyNeedsFinishedRename(run: seq<State>, s: State, p: nat)
    requires IsRun(Init, Next, run) && s in run && Clean(s) && Enabled(s, WritePending(p))
    ensures Recoverable(Apply(s, WritePending(p)).disk) <==> s.disk.keyFile == s.disk.salt
  {
    EveryRunKeepsInv(run);
    assert Inv(s);
  }

  /** A rename, late or not, keeps it recoverable exactly when the store's key is at the pending path. */
  lemma RenameNeedsTheStoresKey(run: seq<State>, s: State, p: nat)
    requires IsRun(Init, Next, run) && s in run && Clean(s) && Enabled(s, Rename(p))
    ensures Recoverable(Apply(s, Rename(p)).disk) <==> s.disk.pending == Some(s.disk.salt)
  {
  }

  /** A commit, late or not, keeps it recoverable exactly when its own key is at the pending path. */
  lemma CommitNeedsItsPendingKey(run: seq<State>, s: State, p: nat)
    requires IsRun(Init, Next, run) && s in run && Clean(s) && Enabled(s, Commit(p))
    ensures Recoverable(Apply(s, Commit(p)).disk) <==> s.disk.pending == Some(s.procs[p].rotation.next)
  {
    EveryRunKeepsInv(run);
    assert Inv(s);
  }

  /** After a lost commit the server's key is not the store's: its next seal leaves the store under two keys. */
  lemma LostCommitSplitsTheStore(run: seq<State>, s: State, p: nat)
    requires IsRun(Init, Next, run) && s in run && Clean(s)
    requires Enabled(s, CommitReportsErr(p)) && s.procs[p].kind.Server? && !Late(s, p) && s.disk.sealedUnder != {}
    ensures var t := Apply(s, CommitReportsErr(p));
      && t.procs[p].key != Some(t.disk.salt)
      && Enabled(t, Seal(p))
      && |Apply(t, Seal(p)).disk.sealedUnder| == 2 && Apply(t, Seal(p)).wrongSeal
  {
    EveryRunKeepsInv(run);
    assert Inv(s);
    var t := Apply(s, CommitReportsErr(p));
    assert Apply(t, Seal(p)).disk.sealedUnder == {t.disk.salt, s.procs[p].key.value};
  }

  /** From here a start cannot come up with the store's key, or the store is already sealed under two. */
  predicate Broken(s: State) { !Recoverable(s.disk) || s.wrongSeal }

  /** The holder has a key only while it serves, or after closing. */
  lemma HolderCanAct(s: State)
    requires Inv(s) && Clean(s) && s.lock.Some? && s.procs[s.lock.value].key.Some?
    ensures Rotating(s, s.lock.value) && !Late(s, s.lock.value)
    ensures ProcOk(s, s.procs[s.lock.value]) && Fresh(s.procs[s.lock.value])
  {
    assert Fresh(s.procs[s.lock.value]);
  }

  /** A late pending key under the hands of another rotation: that rotation's own next step loses the store's key. */
  lemma LateWriteIsHarmful(run: seq<State>, p: nat) returns (longer: seq<State>)
    requires IsRun(Init, Next, run) && Clean(Last(run)) && Inv(Last(run))
    requires Enabled(Last(run), WritePending(p)) && Late(Last(run), p) && HolderRotates(Last(run))
    ensures IsRun(Init, Next, longer) && run + [Apply(Last(run), WritePending(p))] <= longer && Broken(Last(longer))
  {
    var s := Last(run);
    var q := s.lock.value;
    assert Fresh(s.procs[q]);
    HolderCanAct(s);
    assert KeyUnused(s, s.procs[p]) && KeyUnused(s, s.procs[q]);
    hide Init, Next;
    longer := Then(run, WritePending(p));
    assert Last(longer).procs[q] == s.procs[q];
    if s.procs[q].rotation.WillCommit? {
      longer := Then(longer, Commit(q));
    } else if s.disk.keyFile == s.disk.salt {
      longer := Then(longer, Rename(q));
    }
  }

  /** A late commit leaves its key behind, or the holder of the lock with a replaced one that it goes on to use. */
  lemma LateCommitIsHarmful(run: seq<State>, a: Step) returns (longer: seq<State>)
    requires IsRun(Init, Next, run) && Clean(Last(run)) && Inv(Last(run))
    requires (a.Commit? || a.CommitReportsErr?) && Enabled(Last(run), a) && Late(Last(run), a.p) && Harms(Last(run), a)
    ensures IsRun(Init, Next, longer) && run + [Apply(Last(run), a)] <= longer && Broken(Last(longer))
  {
    var s := Last(run);
    assert KeyUnused(s, s.procs[a.p]);
    hide Init, Next;
    longer := Then(run, a);
    if s.disk.pending == Some(s.procs[a.p].rotation.next) {
      var q := s.lock.value;
      var t := Last(longer);
      assert t.procs[q] == s.procs[q] && t.disk.keyFile != t.disk.salt;
      if s.procs[q].pc.Recovered? {
        assert Fresh(s.procs[q]);
        longer := Then(longer, LoadKey(q));
        longer := Then(longer, Seal(q));
      } else {
        HolderCanAct(s);
        if s.procs[q].rotation.WillWritePending? {
          assert KeyUnused(s, s.procs[q]);
          longer := Then(longer, WritePending(q));
        } else {
          longer := Then(longer, Seal(q));
        }
      }
    }
  }

  /**
   The third event is exact: from every reachable state, a late step that gets in the way can be followed, at
   once or by the holder of the lock going on, by the loss of the store's key or a seal with a replaced one.
   */
  lemma TrespassIsHarmful(run: seq<State>, a: Step) returns (longer: seq<State>)
    requires IsRun(Init, Next, run) && Clean(Last(run))
    requires Enabled(Last(run), a) && Late(Last(run), a.p) && Harms(Last(run), a)
    ensures IsRun(Init, Next, longer) && run + [Apply(Last(run), a)] <= longer && Broken(Last(longer))
  {
    EveryRunKeepsInv(run);
    assert Last(run) in run && Inv(Last(run));
    if a.WritePending? {
      longer := LateWriteIsHarmful(run, a.p);
    } else if a.Commit? || a.CommitReportsErr? {
      longer := LateCommitIsHarmful(run, a);
    } else {
      longer := Then(run, a);
    }
  }

  /** A server starts while nobody holds the lock. */
  lemma StartsUp(run: seq<State>, q: nat) returns (longer: seq<State>)
    requires IsRun(Init, Next, run) && Last(run).lock.None? && q !in Last(run).procs
    ensures IsRun(Init, Next, longer) && run <= longer
    ensures Last(longer).disk == Recovery(Last(run).disk)
    ensures Sealing(Last(longer), q) && Last(longer).procs[q].key == Some(Last(longer).disk.keyFile)
  {
    hide Init, Next, Harms;
    longer := Then(run, Start(q, Server));
    longer := Then(longer, TryLock(q));
    longer := Then(longer, Recover(q));
    longer := Then(longer, LoadKey(q));
  }

  /**
   The second event is too: from every reachable state with an unfinished rename, a pending key written by the
   holder of the lock and a crash make the server that starts next come up with a key that opens nothing.
   */
  lemma RotationOverUnfinishedRenameLosesTheKey(run: seq<State>, p: nat, q: nat) returns (longer: seq<State>)
    requires IsRun(Init, Next, run) && Clean(Last(run)) && Last(run).disk.keyFile != Last(run).disk.salt
    requires Enabled(Last(run), WritePending(p)) && Last(run).lock == Some(p) && q !in Last(run).procs
    ensures IsRun(Init, Next, longer) && run + [Apply(Last(run), WritePending(p))] <= longer
    ensures Sealing(Last(longer), q) && Last(longer).procs[q].key != Some(Last(longer).disk.salt)
    ensures Last(longer).disk == Last(run).disk.(pending := None)
  {
    EveryRunKeepsInv(run);
    assert Last(run) in run && Inv(Last(run)) && KeyUnused(Last(run), Last(run).procs[p]);
    hide Init, Next;
    longer := Then(run, WritePending(p));
    longer := Then(longer, Crash(p));
    longer := StartsUp(longer, q);
  }

  // ------------------------------------------------------------- such runs exist

  const FIRST := Disk(0, None, 0, {0})

  /** A state without any of the events, and one with a trespass. */
  function Quiet(lock: Option<nat>, procs: map<nat, Proc>, disk: Disk, nextKey: Key): State {
    State(lock, procs, disk, nextKey, false, false, false, false)
  }

  function Disturbed(lock: Option<nat>, procs: map<nat, Proc>, disk: Disk, nextKey: Key): State {
    State(lock, procs, disk, nextKey, false, false, false, true)
  }

  lemma ServerCanLock() returns (run: seq<State>)
    ensures IsRun(Init, Next, run)
    ensures Last(run) == Quiet(Some(0), map[0 := Proc(Server, Locked, None, NoRotation, false)], FIRST, 1)
  {
    hide Next, Harms;
    run := [Quiet(None, map[], FIRST, 1)];
    run := Then(run, Start(0, Server));
    run := Then(run, TryLock(0));
  }

  lemma ServerCanStart() returns (run: seq<State>)
    ensures IsRun(Init, Next, run)
    ensures Last(run) == Quiet(Some(0), map[0 := Proc(Server, Serving, Some(0), NoRotation, false)], FIRST, 1)
  {
    hide Init, Next, Harms;
    run := ServerCanLock();
    run := Then(run, Recover(0));
    run := Then(run, LoadKey(0));
  }

  lemma PendingKeyCanBeWritten() returns (run: seq<State>)
    ensures IsRun(Init, Next, run)
    ensures Last(run) == Quiet(Some(0), map[0 := Proc(Server, Serving, Some(0), WillCommit(1), true)],
              Disk(0, Some(1), 0, {0}), 2)
  {
    hide Next, Init, Harms;
    run := ServerCanStart();
    run := Then(run, BeginRotation(0));
    run := Then(run, WritePending(0));
  }

  /** A run in which a commit is lost and the server seals with the replaced key. */
  lemma LostCommitHappens() returns (run: seq<State>)
    ensures IsRun(Init, Next, run) && Last(run).wrongSeal && Last(run).disk == Disk(0, Some(1), 1, {0, 1})
  {
    hide Next, Init, Harms;
    run := PendingKeyCanBeWritten();
    run := Then(run, CommitReportsErr(0));
    run := Then(run, Seal(0));
  }

  /** A server that rotated from key 0 to key 1 and could not rename the pending key file. */
  lemma RenameCanFail() returns (run: seq<State>)
    ensures IsRun(Init, Next, run)
    ensures Last(run) == Quiet(Some(0), map[0 := Proc(Server, Serving, Some(1), NoRotation, true)],
              Disk(0, Some(1), 1, {1}), 2)
  {
    hide Next, Init, Harms;
    run := PendingKeyCanBeWritten();
    run := Then(run, Commit(0));
    run := Then(run, RenameErr(0));
  }

  /** So the store's key can be lost that way. */
  lemma OverwrittenKeyIsLost() returns (run: seq<State>)
    ensures IsRun(Init, Next, run) && Sealing(Last(run), 1) && Last(run).procs[1].key != Some(Last(run).disk.salt)
  {
    hide Next, Init, Harms;
    run := RenameCanFail();
    run := Then(run, BeginRotation(0));
    run := RotationOverUnfinishedRenameLosesTheKey(run, 0, 1);
  }

  const LATE_SERVER := Proc(Server, LetGo, Some(0), WillWritePending(1), true)

  lemma RotationCanBegin() returns (run: seq<State>)
    ensures IsRun(Init, Next, run)
    ensures Last(run) == Quiet(Some(0), map[0 := Proc(Server, Serving, Some(0), WillWritePending(1), true)], FIRST, 2)
  {
    hide Next, Init, Harms;
    run := ServerCanStart();
    run := Then(run, BeginRotation(0));
  }

  /** A server shuts down while a rotation is about to write its pending key. */
  lemma ShutdownDuringRotation() returns (run: seq<State>)
    ensures IsRun(Init, Next, run) && Last(run) == Quiet(None, map[0 := LATE_SERVER], FIRST, 2)
  {
    hide Next, Init, Harms;
    run := RotationCanBegin();
    run := Then(run, CloseStore(0));
    run := Then(run, Unlock(0));
  }

  lemma OfflineCommandStarts() returns (run: seq<State>)
    ensures IsRun(Init, Next, run)
    ensures Last(run) == Quiet(Some(1), map[0 := LATE_SERVER, 1 := Proc(Offline, Locked, None, NoRotation, false)],
              FIRST, 2)
  {
    hide Next, Init, Harms;
    run := ShutdownDuringRotation();
    run := Then(run, Start(1, Offline));
    run := Then(run, TryLock(1));
  }

  lemma OfflineCommandLoads() returns (run: seq<State>)
    ensures IsRun(Init, Next, run)
    ensures Last(run) == Quiet(Some(1), map[0 := LATE_SERVER, 1 := Proc(Offline, Serving, Some(0), NoRotation, false)],
              FIRST, 2)
  {
    hide Next, Init, Harms;
    run := OfflineCommandStarts();
    run := Then(run, Recover(1));
    run := Then(run, LoadKey(1));
  }

  lemma OfflineRotationBegins() returns (run: seq<State>)
    ensures IsRun(Init, Next, run)
    ensures Last(run) == Quiet(Some(1),
              map[0 := LATE_SERVER, 1 := Proc(Offline, Serving, Some(0), WillCommit(2), true)],
              Disk(0, Some(2), 0, {0}), 3)
  {
    hide Next, Init, Harms;
    run := OfflineCommandLoads();
    run := Then(run, BeginRotation(1));
    run := Then(run, WritePending(1));
  }

  /**
   The server's key 1 lands on the offline command's pending key 2, which commits and renames: the store is
   under key 2, the key file holds key 1, and key 2 is nowhere.
   */
  lemma LateWriteLosesTheKey() returns (run: seq<State>)
    ensures IsRun(Init, Next, run) && !Last(run).lostCommit && !Last(run).overwrotePending
    ensures Last(run).disk == Disk(1, None, 2, {2}) && !Recoverable(Last(run).disk)
  {
    hide Next, Init;
    run := OfflineRotationBegins();
    run := Then(run, WritePending(0));
    var server := Proc(Server, LetGo, Some(0), WillCommit(1), true);
    assert Last(run) == Disturbed(Some(1),
        map[0 := server, 1 := Proc(Offline, Serving, Some(0), WillCommit(2), true)], Disk(0, Some(1), 0, {0}), 3);
    run := Then(run, Commit(1));
    run := Then(run, Rename(1));
  }
}
