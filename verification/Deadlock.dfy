/** When calls on one database can get stuck. */
module Deadlock {
  import opened Wrappers
  import opened Names
  import opened Backup
  import opened Locks

  predicate IsFinished(p: PC) {
    p.Done? || p.BackedUp?
  }

  ghost predicate CanStep(s: State, a: Actor) {
    exists t :: Step(s, a, t)
  }

  /** Some call is unfinished and no call can take a step. */
  ghost predicate IsStuck(s: State) {
    && (exists a :: a in s.pc && !IsFinished(s.pc[a]))
    && forall a :: a in s.pc ==> !CanStep(s, a)
  }

  /** The cycle of waits: a backup or restore holds the state read lock and waits for the connection;
      the connection is pinned by a client that waits for the state read lock; the lock is denied
      because a Close waits for its readers to leave. */
  ghost predicate IsDeadlocked(s: State, saver: Actor, closer: Actor, client: Actor) {
    && saver in s.pc && (s.pc[saver].BackupWaiting? || s.pc[saver].RestoreWaiting?) && saver !in s.expiring
    && closer in s.pc && s.pc[closer].ClosePending?
    && client in s.pc && s.pc[client].ClientBlocked?
    && !s.poolClosed
  }

  // ---------- what an actor waits for ----------

  predicate NeedsTopology(p: PC) {
    p.CreateStart? || p.BackupStart? || p.RestoreStart?
  }

  predicate NeedsRead(p: PC) {
    p.ClientStart? || p.ClientBlocked? || p.CreateLocked? || p.RegisterStart? || p.BackupLocked? || p.RestoreLocked?
  }

  predicate NeedsConnection(p: PC) {
    p.ClientWaiting? || p.CreateWaiting? || p.BackupWaiting? || p.RestoreWaiting?
  }

  /** Nothing an actor waits for is held by another. */
  ghost predicate IsUnblocked(s: State, a: Actor)
    requires a in s.pc
  {
    var p := s.pc[a];
    && (NeedsTopology(p) ==> forall b :: b in s.pc && b != a ==> !HoldsTopology(s.pc[b]))
    && (NeedsRead(p) || p.CreateAttached? || p.CloseStart? ==>
          forall b :: b in s.pc && b != a ==> !HoldsWrite(s.pc[b]) && !IsPending(s.pc[b]))
    && (IsPending(p) ==> forall b :: b in s.pc && b != a ==> !HoldsWrite(s.pc[b]) && !HoldsRead(s.pc[b]))
    && (NeedsConnection(p) ==>
          s.poolClosed || a in s.expiring || forall b :: b in s.pc && b != a ==> !HoldsConnection(s.pc[b]))
    && (p.RegisterChecking? ==> forall b :: b in s.pc && b != a ==> !HoldsRegistry(s.pc[b]))
  }

  function MovedTo(s: State, a: Actor, q: PC): State {
    s.(pc := s.pc[a := q])
  }

  // ---------- nothing else stops an actor ----------

  predicate IsClient(p: PC) {
    p.ClientStart? || p.ClientChecking? || p.ClientWaiting? || p.ClientOpen? || p.ClientBlocked? || p.ClientReading?
    || p.ClientRegistering?
  }

  function ClientNext(s: State, a: Actor): PC
    requires a in s.pc && IsClient(s.pc[a])
  {
    match s.pc[a]
    case ClientStart => ClientChecking
    case ClientChecking => if s.closed then Done else ClientWaiting
    case ClientWaiting => if s.poolClosed || a in s.expiring then Done else ClientOpen
    case ClientOpen => Done
    case ClientBlocked => ClientReading
    case _ => ClientOpen
  }

  lemma ClientCanStep(s: State, a: Actor)
    requires a in s.pc && IsUnblocked(s, a) && IsClient(s.pc[a])
    ensures CanStep(s, a) && Step(s, a, MovedTo(s, a, ClientNext(s, a)))
  {
    assert Step(s, a, MovedTo(s, a, ClientNext(s, a)));
  }

  lemma CreateCanStart(s: State, a: Actor)
    requires a in s.pc && IsUnblocked(s, a) && s.pc[a].CreateStart?
    ensures CanStep(s, a)
  {
    hide SchemaName;
    var q := match SchemaName(s.pc[a].requested) case None => Done case Some(name) => CreateLocked(name);
    assert Step(s, a, MovedTo(s, a, q));
  }

  lemma CreateCanBegin(s: State, a: Actor)
    requires a in s.pc && IsUnblocked(s, a) && (s.pc[a].CreateLocked? || s.pc[a].CreateChecking?)
    ensures CanStep(s, a)
  {
    var q := match s.pc[a]
      case CreateLocked(name) => CreateChecking(name)
      case CreateChecking(name) => if s.closed || name in s.schemas then Done else CreateWaiting(name);
    assert Step(s, a, MovedTo(s, a, q));
  }

  lemma CreateCanGoOn(s: State, a: Actor)
    requires a in s.pc && IsUnblocked(s, a)
    requires s.pc[a].CreateWaiting? || s.pc[a].CreateAttached? || s.pc[a].CreatePending?
    ensures CanStep(s, a)
  {
    var q := match s.pc[a]
      case CreateWaiting(name) => if s.poolClosed || a in s.expiring then Done else CreateAttaching(name)
      case CreateAttached(name) => CreatePending(name)
      case CreatePending(name) => CreateWriting(name);
    assert Step(s, a, MovedTo(s, a, q));
  }

  lemma CreateWriterCanStep(s: State, a: Actor)
    requires a in s.pc && (s.pc[a].CreateAttaching? || s.pc[a].CreateWriting?)
    ensures CanStep(s, a)
  {
    var name := s.pc[a].name;
    if s.pc[a].CreateAttaching? {
      assert Step(s, a, MovedTo(s.(attached := s.attached[name := EMPTY]), a, CreateAttached(name)));
    } else {
      assert Step(s, a, MovedTo(if s.closed then s else s.(schemas := s.schemas + {name}), a, Done));
    }
  }

  lemma CloseWriterCanStep(s: State, a: Actor)
    requires a in s.pc && (s.pc[a].CloseWriting? || s.pc[a].CloseDraining?)
    ensures CanStep(s, a)
  {
    if s.pc[a].CloseWriting? {
      assert Step(s, a, MovedTo(s.(closed := true), a, if s.closed then Done else CloseDraining));
    } else {
      assert Step(s, a, MovedTo(s.(poolClosed := true), a, Done));
    }
  }

  predicate IsRegistrarOrCloser(p: PC) {
    p.RegisterStart? || p.RegisterChecking? || p.RegisterWriting? || p.CloseStart? || p.ClosePending?
  }

  function CloserNext(s: State, a: Actor): PC
    requires a in s.pc && IsRegistrarOrCloser(s.pc[a])
  {
    match s.pc[a]
    case RegisterStart => RegisterChecking
    case RegisterChecking => if s.closed then Done else RegisterWriting
    case RegisterWriting => Done
    case CloseStart => ClosePending
    case ClosePending => CloseWriting
  }

  lemma CloserCanStep(s: State, a: Actor)
    requires a in s.pc && IsUnblocked(s, a) && IsRegistrarOrCloser(s.pc[a])
    ensures CanStep(s, a) && Step(s, a, MovedTo(s, a, CloserNext(s, a)))
  {
    assert Step(s, a, MovedTo(s, a, CloserNext(s, a)));
  }

  predicate IsEarlyBackup(p: PC) {
    p.BackupStart? || p.BackupLocked? || p.BackupChecking? || p.BackupWaiting?
  }

  function BackupNext(s: State, a: Actor): PC
    requires a in s.pc && IsEarlyBackup(s.pc[a])
  {
    match s.pc[a]
    case BackupStart => BackupLocked
    case BackupLocked => BackupChecking
    case BackupChecking => if s.closed then Done else BackupWaiting
    case BackupWaiting => if s.poolClosed || a in s.expiring then Done else BackupCopying(s.schemas, map[])
  }

  lemma BackupCanStep(s: State, a: Actor)
    requires a in s.pc && IsUnblocked(s, a) && IsEarlyBackup(s.pc[a])
    ensures CanStep(s, a) && Step(s, a, MovedTo(s, a, BackupNext(s, a)))
  {
    assert Step(s, a, MovedTo(s, a, BackupNext(s, a)));
  }

  lemma RestoreCanBegin(s: State, a: Actor)
    requires a in s.pc && IsUnblocked(s, a) && (s.pc[a].RestoreStart? || s.pc[a].RestoreLocked?)
    ensures CanStep(s, a)
  {
    var b := s.pc[a].b;
    assert Step(s, a, MovedTo(s, a, if s.pc[a].RestoreStart? then RestoreLocked(b) else RestoreChecking(b)));
  }

  lemma RestoreCanGoOn(s: State, a: Actor)
    requires a in s.pc && IsUnblocked(s, a) && (s.pc[a].RestoreChecking? || s.pc[a].RestoreWaiting?)
    ensures CanStep(s, a)
  {
    var q := match s.pc[a]
      case RestoreChecking(b) => if s.closed || s.schemas != Elements(b.schemaNames) then Done else RestoreWaiting(b)
      case RestoreWaiting(b) => if s.poolClosed || a in s.expiring then Done else RestoreVerifying(b);
    assert Step(s, a, MovedTo(s, a, q));
  }

  /** A backup that copies needs nothing it does not hold already. */
  lemma CopierCanStep(s: State, a: Actor)
    requires a in s.pc && s.pc[a].BackupCopying? && s.pc[a].todo <= s.attached.Keys
    ensures CanStep(s, a)
  {
    var todo, images := s.pc[a].todo, s.pc[a].images;
    if todo == {} {
      assert Step(s, a, MovedTo(s, a, BackedUp(images)));
    } else {
      var n :| n in todo;
      assert Step(s, a, MovedTo(s, a, BackupCopying(todo - {n}, images[n := s.attached[n]])));
    }
  }

  lemma CopiesWhatIsThere(s: State, a: Actor)
    requires Inv(s) && a in s.pc && s.pc[a].BackupCopying?
    ensures s.pc[a].todo <= s.attached.Keys
  {
    assert Established(s, s.pc[a]);
  }

  /** Nor does a restore that verifies or swaps. */
  lemma VerifierCanStep(s: State, a: Actor)
    requires a in s.pc && s.pc[a].RestoreVerifying?
    ensures CanStep(s, a)
  {
    var b := s.pc[a].b;
    assert Step(s, a, MovedTo(s, a, if VersionsMatch(s.attached, b) then RestoreSwapping(b, s.attached, s.schemas) else Done));
  }

  lemma SwapperCanStep(s: State, a: Actor)
    requires a in s.pc && s.pc[a].RestoreSwapping? && s.pc[a].todo <= s.pc[a].b.images.Keys
    ensures CanStep(s, a)
  {
    var b, before, todo := s.pc[a].b, s.pc[a].before, s.pc[a].todo;
    if todo == {} {
      assert Step(s, a, MovedTo(s, a, Done));
    } else {
      var n :| n in todo;
      hide Replaced;
      assert Step(s, a, MovedTo(s.(attached := s.attached[n := Replaced(s.engine, n, b.images[n])]), a,
                                RestoreSwapping(b, before, todo - {n})));
    }
  }

  lemma SwapsWhatIsSaved(s: State, a: Actor)
    requires Inv(s) && a in s.pc && s.pc[a].RestoreSwapping?
    ensures s.pc[a].todo <= s.pc[a].b.images.Keys
  {
    assert Established(s, s.pc[a]);
  }

  lemma UnblockedCanStep(s: State, a: Actor)
    requires Inv(s) && a in s.pc && !IsFinished(s.pc[a]) && IsUnblocked(s, a)
    ensures CanStep(s, a)
  {
    hide Inv, CanStep, IsUnblocked;
    match s.pc[a]
    case ClientStart => ClientCanStep(s, a);
    case ClientChecking => ClientCanStep(s, a);
    case ClientWaiting => ClientCanStep(s, a);
    case ClientOpen => ClientCanStep(s, a);
    case ClientBlocked => ClientCanStep(s, a);
    case ClientReading => ClientCanStep(s, a);
    case ClientRegistering => ClientCanStep(s, a);
    case CreateAttaching(_) => CreateWriterCanStep(s, a);
    case CreateWriting(_) => CreateWriterCanStep(s, a);
    case CloseWriting => CloseWriterCanStep(s, a);
    case CloseDraining => CloseWriterCanStep(s, a);
    case CreateStart(_) => CreateCanStart(s, a);
    case CreateLocked(_) => CreateCanBegin(s, a);
    case CreateChecking(_) => CreateCanBegin(s, a);
    case CreateWaiting(_) => CreateCanGoOn(s, a);
    case CreateAttached(_) => CreateCanGoOn(s, a);
    case CreatePending(_) => CreateCanGoOn(s, a);
    case RegisterStart => CloserCanStep(s, a);
    case RegisterChecking => CloserCanStep(s, a);
    case RegisterWriting => CloserCanStep(s, a);
    case CloseStart => CloserCanStep(s, a);
    case ClosePending => CloserCanStep(s, a);
    case BackupCopying(_, _) =>
      CopiesWhatIsThere(s, a);
      CopierCanStep(s, a);
    case RestoreVerifying(_) => VerifierCanStep(s, a);
    case RestoreSwapping(_, _, _) =>
      SwapsWhatIsSaved(s, a);
      SwapperCanStep(s, a);
    case BackupStart => BackupCanStep(s, a);
    case BackupLocked => BackupCanStep(s, a);
    case BackupChecking => BackupCanStep(s, a);
    case BackupWaiting => BackupCanStep(s, a);
    case RestoreStart(_) => RestoreCanBegin(s, a);
    case RestoreLocked(_) => RestoreCanBegin(s, a);
    case _ => RestoreCanGoOn(s, a);
  }

  // ---------- stuck means deadlocked ----------

  /** In a stuck state nobody holds the write lock or the registry, only waiting savers hold the read
      lock, and only a blocked client holds the connection. */
  lemma StuckHolders(s: State, a: Actor)
    requires Inv(s) && IsStuck(s) && a in s.pc
    ensures !HoldsWrite(s.pc[a]) && !HoldsRegistry(s.pc[a])
    ensures HoldsRead(s.pc[a]) ==> s.pc[a].BackupWaiting? || s.pc[a].RestoreWaiting? || s.pc[a].RegisterChecking?
    ensures HoldsConnection(s.pc[a]) ==> s.pc[a].ClientBlocked?
  {
    hide Inv, CanStep;
    if !IsFinished(s.pc[a]) && IsUnblocked(s, a) {
      UnblockedCanStep(s, a);
    }
  }

  lemma StuckReaders(s: State, a: Actor)
    requires Inv(s) && IsStuck(s) && a in s.pc && HoldsRead(s.pc[a])
    ensures s.pc[a].BackupWaiting? || s.pc[a].RestoreWaiting?
  {
    hide Inv, CanStep;
    StuckHolders(s, a);
    if s.pc[a].RegisterChecking? {
      forall b | b in s.pc && b != a
        ensures !HoldsRegistry(s.pc[b])
      {
        StuckHolders(s, b);
      }
      UnblockedCanStep(s, a);
    }
  }

  /** Somebody waits for the readers to leave. */
  lemma StuckHasPendingWriter(s: State)
    requires Inv(s) && IsStuck(s)
    ensures exists y :: y in s.pc && IsPending(s.pc[y])
  {
    var left :| left in s.pc && !IsFinished(s.pc[left]);
    hide Inv, IsStuck, HoldsWrite, HoldsConnection, NeedsRead, IsFinished;
    if forall y :: y in s.pc ==> !IsPending(s.pc[y]) {
      forall a | a in s.pc
        ensures !HoldsConnection(s.pc[a]) && !HoldsWrite(s.pc[a]) && !NeedsRead(s.pc[a]) && !s.pc[a].CreateAttached?
                && !s.pc[a].CloseStart?
      {
        NoWriterNoReaderWaits(s, a);
      }
      forall a | a in s.pc
        ensures IsFinished(s.pc[a]) || NeedsTopology(s.pc[a])
      {
        OnlyTopologyIsLeft(s, a);
      }
      NobodyLeftInTopology(s, left);
    }
  }

  lemma NobodyLeftInTopology(s: State, a: Actor)
    requires Inv(s) && a in s.pc && !IsFinished(s.pc[a])
    requires forall b :: b in s.pc ==> IsFinished(s.pc[b]) || NeedsTopology(s.pc[b])
    ensures CanStep(s, a)
    ensures !IsStuck(s)
  {
    hide Inv, CanStep;
    UnblockedCanStep(s, a);
  }

  lemma NoWriterNoReaderWaits(s: State, a: Actor)
    requires Inv(s) && IsStuck(s) && a in s.pc
    requires forall y :: y in s.pc ==> !IsPending(s.pc[y])
    ensures !HoldsConnection(s.pc[a]) && !HoldsWrite(s.pc[a]) && !NeedsRead(s.pc[a])
    ensures !s.pc[a].CreateAttached? && !s.pc[a].CloseStart?
  {
    hide Inv, CanStep;
    forall b | b in s.pc
      ensures !HoldsWrite(s.pc[b])
    {
      StuckHolders(s, b);
    }
    StuckHolders(s, a);
    if NeedsRead(s.pc[a]) || s.pc[a].CreateAttached? || s.pc[a].CloseStart? {
      UnblockedCanStep(s, a);
    }
  }

  lemma OnlyTopologyIsLeft(s: State, a: Actor)
    requires Inv(s) && IsStuck(s) && a in s.pc
    requires forall b :: b in s.pc ==> !HoldsConnection(s.pc[b]) && !HoldsWrite(s.pc[b]) && !IsPending(s.pc[b])
    requires !NeedsRead(s.pc[a]) && !s.pc[a].CreateAttached? && !s.pc[a].CloseStart?
    ensures IsFinished(s.pc[a]) || NeedsTopology(s.pc[a])
  {
    forall b | b in s.pc
      ensures !HoldsRegistry(s.pc[b])
    {
      StuckHolders(s, b);
    }
    hide Inv, CanStep;
    if !IsFinished(s.pc[a]) && !NeedsTopology(s.pc[a]) {
      UnblockedCanStep(s, a);
    }
  }

  /** The only way to get stuck is the cycle. */
  lemma StuckIsDeadlocked(s: State)
    requires Inv(s) && IsStuck(s)
    ensures exists x, y, z :: IsDeadlocked(s, x, y, z)
  {
    StuckHasPendingWriter(s);
    var y :| y in s.pc && IsPending(s.pc[y]);
    var x := PendingWriterIsBlocked(s, y);
    var z := SaverIsBlocked(s, x);
    hide Inv, CanStep;
    PendingWriterCloses(s, x, y);
    assert IsDeadlocked(s, x, y, z);
  }

  lemma PendingWriterIsBlocked(s: State, y: Actor) returns (x: Actor)
    requires Inv(s) && IsStuck(s) && y in s.pc && IsPending(s.pc[y])
    ensures x in s.pc && (s.pc[x].BackupWaiting? || s.pc[x].RestoreWaiting?)
  {
    hide Inv, CanStep;
    if exists b :: b in s.pc && b != y && HoldsRead(s.pc[b]) {
      x :| x in s.pc && x != y && HoldsRead(s.pc[x]);
      StuckReaders(s, x);
    } else {
      forall b | b in s.pc
        ensures !HoldsWrite(s.pc[b])
      {
        StuckHolders(s, b);
      }
      x := y;
      UnblockedCanStep(s, y);
    }
  }

  lemma SaverIsBlocked(s: State, x: Actor) returns (z: Actor)
    requires Inv(s) && IsStuck(s) && x in s.pc && (s.pc[x].BackupWaiting? || s.pc[x].RestoreWaiting?)
    ensures z in s.pc && s.pc[z].ClientBlocked? && !s.poolClosed && x !in s.expiring
  {
    if !s.poolClosed && x !in s.expiring && exists b :: b in s.pc && b != x && HoldsConnection(s.pc[b]) {
      z :| z in s.pc && z != x && HoldsConnection(s.pc[z]);
      StuckHolders(s, z);
    } else {
      z := x;
      hide Inv, CanStep;
      UnblockedCanStep(s, x);
    }
  }

  /** A pending CreateSchema holds the topology lock, which the saver holds. */
  lemma PendingWriterCloses(s: State, x: Actor, y: Actor)
    requires Inv(s) && x in s.pc && (s.pc[x].BackupWaiting? || s.pc[x].RestoreWaiting?)
    requires y in s.pc && IsPending(s.pc[y])
    ensures s.pc[y].ClosePending?
  {
    assert Compatible(s.pc[x], s.pc[y]);
  }

  lemma CycleMembersCannotStep(s: State, a: Actor, t: State, x: Actor, y: Actor, z: Actor)
    requires Step(s, a, t) && IsDeadlocked(s, x, y, z)
    ensures a != x && a != y && a != z
  {
    hide IsBackup;
  }

  /** The cycle is permanent: none of the three calls ever takes another step. */
  lemma DeadlockIsPermanent(s: State, a: Actor, t: State, x: Actor, y: Actor, z: Actor)
    requires Inv(s) && Step(s, a, t) && IsDeadlocked(s, x, y, z)
    ensures a != x && a != y && a != z && IsDeadlocked(t, x, y, z)
  {
    hide Exclusion, Topology, IsBackup, Moves, MayEnter;
    CycleMembersCannotStep(s, a, t, x, y, z);
    assert Established(s, s.pc[a]) && Established(s, s.pc[x]);
    StepEffects(s, a, t);
  }
}
