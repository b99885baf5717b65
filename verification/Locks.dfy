/** The calls on one database as concurrent actors: who holds which lock, who waits for the engine's
    only connection, and what each step does to the schemas.

    A lock has no owner field: an actor holds a lock while its program counter lies between the
    acquisition and the release.  An actor makes one call; a client call pins the connection, for one
    statement or for a whole transaction. */
module Locks {
  import opened Wrappers
  import opened Text
  import opened Names
  import opened Backup

  type Actor = nat
  type Store = map<string, Image>

  datatype PC =
    // a statement, script or transaction
    | ClientStart
    | ClientChecking
    | ClientWaiting
    | ClientOpen
    | ClientBlocked          // a statement in the transaction asks whether the database is closed
    | ClientReading
    | ClientRegistering      // a callback registers a function
    // CreateSchema
    | CreateStart(requested: string)
    | CreateLocked(name: string)
    | CreateChecking(name: string)
    | CreateWaiting(name: string)
    | CreateAttaching(name: string)
    | CreateAttached(name: string)
    | CreatePending(name: string)
    | CreateWriting(name: string)
    // RegisterFunction
    | RegisterStart
    | RegisterChecking
    | RegisterWriting
    // Close
    | CloseStart
    | ClosePending
    | CloseWriting
    | CloseDraining
    // Backup
    | BackupStart
    | BackupLocked
    | BackupChecking
    | BackupWaiting
    | BackupCopying(todo: set<string>, images: Store)
    | BackedUp(images: Store)
    // Restore
    | RestoreStart(b: Backup)
    | RestoreLocked(b: Backup)
    | RestoreChecking(b: Backup)
    | RestoreWaiting(b: Backup)
    | RestoreVerifying(b: Backup)
    | RestoreSwapping(b: Backup, before: Store, todo: set<string>)
    | Done

  /** `expiring` are the actors whose context ends a wait for the connection.  `asking` are the clients
      that ask for the state while they have the connection: transactions of the adapter that run
      statements, and statements whose callback registers a function.  A statement or script of a schema
      asks only before it takes the connection. */
  datatype State = State(
    pc: map<Actor, PC>, engine: Engine, schemas: set<string>, attached: Store, closed: bool, poolClosed: bool,
    expiring: set<Actor>, asking: set<Actor>)

  // ---------- locks ----------

  predicate HoldsTopology(p: PC) {
    || p.CreateLocked? || p.CreateChecking? || p.CreateWaiting? || p.CreateAttaching? || p.CreateAttached?
    || p.CreatePending? || p.CreateWriting?
    || p.BackupLocked? || p.BackupChecking? || p.BackupWaiting? || p.BackupCopying?
    || p.RestoreLocked? || p.RestoreChecking? || p.RestoreWaiting? || p.RestoreVerifying? || p.RestoreSwapping?
  }

  predicate HoldsRead(p: PC) {
    || p.ClientChecking? || p.ClientReading? || p.ClientRegistering?
    || p.CreateChecking? || p.RegisterChecking? || p.RegisterWriting?
    || p.BackupChecking? || p.BackupWaiting? || p.BackupCopying?
    || p.RestoreChecking? || p.RestoreWaiting? || p.RestoreVerifying? || p.RestoreSwapping?
  }

  /** A writer that waits for the readers to leave; new readers wait behind it. */
  predicate IsPending(p: PC) {
    p.CreatePending? || p.ClosePending?
  }

  predicate HoldsWrite(p: PC) {
    p.CreateWriting? || p.CloseWriting?
  }

  predicate HoldsConnection(p: PC) {
    || p.ClientOpen? || p.ClientBlocked? || p.ClientReading? || p.ClientRegistering?
    || p.CreateAttaching? || p.BackupCopying? || p.RestoreVerifying? || p.RestoreSwapping?
  }

  predicate HoldsRegistry(p: PC) {
    p.ClientRegistering? || p.RegisterWriting?
  }

  /** Whether actor `a` may move on to `q`: every lock that `q` holds and its present counter does
      not must be free. */
  ghost predicate MayEnter(s: State, a: Actor, q: PC)
    requires a in s.pc
  {
    var p := s.pc[a];
    && (HoldsTopology(q) && !HoldsTopology(p) ==> forall b :: b in s.pc && b != a ==> !HoldsTopology(s.pc[b]))
    && (HoldsRead(q) && !HoldsRead(p) ==>
          forall b :: b in s.pc && b != a ==> !HoldsWrite(s.pc[b]) && !IsPending(s.pc[b]))
    && (IsPending(q) && !IsPending(p) ==>
          forall b :: b in s.pc && b != a ==> !HoldsWrite(s.pc[b]) && !IsPending(s.pc[b]))
    && (HoldsWrite(q) && !HoldsWrite(p) ==>
          forall b :: b in s.pc && b != a ==> !HoldsWrite(s.pc[b]) && !HoldsRead(s.pc[b]))
    && (HoldsConnection(q) && !HoldsConnection(p) ==>
          !s.poolClosed && forall b :: b in s.pc && b != a ==> !HoldsConnection(s.pc[b]))
    && (HoldsRegistry(q) && !HoldsRegistry(p) ==> forall b :: b in s.pc && b != a ==> !HoldsRegistry(s.pc[b]))
  }

  // ---------- programs ----------

  /** The name CreateSchema uses for a requested one: an unquoted identifier folds to lower case. */
  function SchemaName(requested: string): Option<string> {
    var name := ToLower(requested);
    if !IsName(requested) || name == "main" || name == "temp" || name == "public" then None else Some(name)
  }

  predicate IsSchemaName(name: string) {
    IsName(name) && ToLower(name) == name && name != "main" && name != "temp" && name != "public"
  }

  const EMPTY := Image(0, map[])

  predicate SameData(s: State, t: State) {
    t.schemas == s.schemas && t.attached == s.attached && t.closed == s.closed && t.poolClosed == s.poolClosed
  }

  /** SQL changes what the schemas contain but neither attaches nor detaches one. */
  predicate ChangesContents(s: State, t: State) {
    t.schemas == s.schemas && t.attached.Keys == s.attached.Keys && t.closed == s.closed && t.poolClosed == s.poolClosed
  }

  predicate VersionsMatch(attached: Store, b: Backup) {
    forall n :: n in b.schemaVersions && n in attached ==> attached[n].version == b.schemaVersions[n]
  }

  predicate GivesUp(s: State, a: Actor, q: PC) {
    q == Done && (s.poolClosed || a in s.expiring)
  }

  /** One step of the program of actor `a`, apart from the locks. */
  ghost predicate Moves(s: State, a: Actor, t: State)
    requires a in s.pc && a in t.pc
  {
    var q := t.pc[a];
    match s.pc[a]
    case ClientStart => q == ClientChecking && SameData(s, t)
    case ClientChecking => q == (if s.closed then Done else ClientWaiting) && SameData(s, t)
    case ClientWaiting => (q == ClientOpen || GivesUp(s, a, q)) && SameData(s, t)
    case ClientOpen =>
      || (q == ClientBlocked && a in s.asking && SameData(s, t))
      || ((q == ClientOpen || q == Done) && ChangesContents(s, t))
    case ClientBlocked => q == ClientReading && SameData(s, t)
    case ClientReading => (q == ClientOpen || q == ClientRegistering) && SameData(s, t)
    case ClientRegistering => q == ClientOpen && SameData(s, t)
    case CreateStart(requested) =>
      q == (match SchemaName(requested) case None => Done case Some(name) => CreateLocked(name)) && SameData(s, t)
    case CreateLocked(name) => q == CreateChecking(name) && SameData(s, t)
    case CreateChecking(name) =>
      q == (if s.closed || name in s.schemas then Done else CreateWaiting(name)) && SameData(s, t)
    case CreateWaiting(name) => (q == CreateAttaching(name) || GivesUp(s, a, q)) && SameData(s, t)
    case CreateAttaching(name) =>
      || (q == CreateAttached(name) && SameData(s.(attached := s.attached[name := EMPTY]), t))
      || (q == Done && SameData(s, t))
    case CreateAttached(name) => q == CreatePending(name) && SameData(s, t)
    case CreatePending(name) => q == CreateWriting(name) && SameData(s, t)
    case CreateWriting(name) =>
      q == Done && SameData(if s.closed then s else s.(schemas := s.schemas + {name}), t)
    case RegisterStart => q == RegisterChecking && SameData(s, t)
    case RegisterChecking => q == (if s.closed then Done else RegisterWriting) && SameData(s, t)
    case RegisterWriting => q == Done && SameData(s, t)
    case CloseStart => q == ClosePending && SameData(s, t)
    case ClosePending => q == CloseWriting && SameData(s, t)
    case CloseWriting => q == (if s.closed then Done else CloseDraining) && SameData(s.(closed := true), t)
    case CloseDraining => q == Done && SameData(s.(poolClosed := true), t)
    case BackupStart => q == BackupLocked && SameData(s, t)
    case BackupLocked => q == BackupChecking && SameData(s, t)
    case BackupChecking => q == (if s.closed then Done else BackupWaiting) && SameData(s, t)
    case BackupWaiting => (q == BackupCopying(s.schemas, map[]) || GivesUp(s, a, q)) && SameData(s, t)
    case BackupCopying(todo, images) =>
      && SameData(s, t)
      && (|| q == Done
          || (todo == {} && q == BackedUp(images))
          || exists n :: n in todo && n in s.attached && q == BackupCopying(todo - {n}, images[n := s.attached[n]]))
    case RestoreStart(b) => q == RestoreLocked(b) && SameData(s, t)
    case RestoreLocked(b) => q == RestoreChecking(b) && SameData(s, t)
    case RestoreChecking(b) =>
      q == (if s.closed || s.schemas != Elements(b.schemaNames) then Done else RestoreWaiting(b)) && SameData(s, t)
    case RestoreWaiting(b) => (q == RestoreVerifying(b) || GivesUp(s, a, q)) && SameData(s, t)
    case RestoreVerifying(b) =>
      && SameData(s, t)
      && (q == Done || (VersionsMatch(s.attached, b) && q == RestoreSwapping(b, s.attached, s.schemas)))
    case RestoreSwapping(b, before, todo) =>
      || (todo == {} && q == Done && SameData(s, t))
      || exists n :: n in todo && n in b.images && q == RestoreSwapping(b, before, todo - {n})
                     && SameData(s.(attached := s.attached[n := Replaced(s.engine, n, b.images[n])]), t)
    case _ => false
  }

  ghost predicate Step(s: State, a: Actor, t: State) {
    && a in s.pc && a in t.pc
    && t.pc == s.pc[a := t.pc[a]] && t.engine == s.engine && t.expiring == s.expiring && t.asking == s.asking
    && MayEnter(s, a, t.pc[a])
    && Moves(s, a, t)
  }

  predicate IsStart(p: PC) {
    p.ClientStart? || p.CreateStart? || p.RegisterStart? || p.CloseStart? || p.BackupStart? || p.RestoreStart?
  }

  ghost predicate Init(s: State) {
    && (forall a :: a in s.pc ==> IsStart(s.pc[a]) && (s.pc[a].RestoreStart? ==> IsBackup(s.pc[a].b)))
    && s.attached.Keys == s.schemas == {"public"} && !s.closed && !s.poolClosed
  }

  ghost predicate SomeStep(s: State, t: State) {
    exists a :: a in s.pc && Step(s, a, t)
  }

  /** A run: each state follows from the one before by a step of some actor. */
  ghost predicate IsRun(run: seq<State>) {
    && |run| > 0 && Init(run[0])
    && forall i :: 0 < i < |run| ==> SomeStep(run[i - 1], run[i])
  }

  // ---------- invariant ----------

  ghost predicate Exclusion(s: State) {
    forall a, b :: a in s.pc && b in s.pc && a != b ==> Compatible(s.pc[a], s.pc[b])
  }

  predicate Compatible(p: PC, q: PC) {
    && !(HoldsTopology(p) && HoldsTopology(q))
    && !(HoldsConnection(p) && HoldsConnection(q))
    && !(HoldsRegistry(p) && HoldsRegistry(q))
    && !(HoldsWrite(p) && (HoldsRead(q) || HoldsWrite(q)))
    && !(HoldsWrite(q) && HoldsRead(p))
    && !((IsPending(p) || HoldsWrite(p)) && (IsPending(q) || HoldsWrite(q)))
  }

  /** What an actor has established at its program counter. */
  ghost predicate Established(s: State, p: PC) {
    match p
    case CreateLocked(name) => IsSchemaName(name)
    case CreateChecking(name) => IsSchemaName(name)
    case CreateWaiting(name) => IsSchemaName(name) && name !in s.schemas
    case CreateAttaching(name) => IsSchemaName(name) && name !in s.schemas
    case CreateAttached(name) => IsSchemaName(name) && name !in s.schemas && name in s.attached
    case CreatePending(name) => IsSchemaName(name) && name !in s.schemas && name in s.attached
    case CreateWriting(name) => IsSchemaName(name) && name !in s.schemas && name in s.attached
    case CloseDraining => s.closed
    case BackupWaiting => !s.closed
    case BackupCopying(todo, images) =>
      && !s.closed && todo <= s.schemas && images.Keys == s.schemas - todo
      && forall n :: n in images ==> n in s.attached && images[n] == s.attached[n]
    case RestoreStart(b) => IsBackup(b)
    case RestoreLocked(b) => IsBackup(b)
    case RestoreChecking(b) => IsBackup(b)
    case RestoreWaiting(b) => IsBackup(b) && !s.closed && s.schemas == Elements(b.schemaNames)
    case RestoreVerifying(b) => IsBackup(b) && !s.closed && s.schemas == Elements(b.schemaNames)
    case RestoreSwapping(b, before, todo) =>
      && IsBackup(b) && !s.closed && s.schemas == Elements(b.schemaNames) && todo <= s.schemas
      && before.Keys == b.images.Keys && s.attached == Split(s.engine, b, before, s.schemas - todo)
    case _ => true
  }

  predicate IsAttachedBy(p: PC, name: string) {
    (p.CreateAttached? || p.CreatePending? || p.CreateWriting?) && p.name == name
  }

  /** The attached databases are those of the schemas and of the schema being created. */
  ghost predicate Topology(s: State) {
    && "public" in s.schemas && s.schemas <= s.attached.Keys
    && (forall n :: n in s.schemas ==> n == "public" || IsSchemaName(n))
    && (forall n :: n in s.attached && n !in s.schemas && !s.closed ==> exists a :: a in s.pc && IsAttachedBy(s.pc[a], n))
  }

  ghost predicate Inv(s: State) {
    && Exclusion(s) && Topology(s)
    && (forall a :: a in s.pc ==> Established(s, s.pc[a]))
    && (forall a :: a in s.pc && s.pc[a].ClientBlocked? ==> a in s.asking)
    && (s.poolClosed ==> s.closed)
  }

  lemma InitInv(s: State)
    requires Init(s)
    ensures Inv(s)
  {
    hide IsBackup, IsSchemaName, Split;
  }

  // ---------- the invariant is preserved ----------

  /** Only a pending writer becomes the writer. */
  lemma WritersWerePending(s: State, a: Actor, t: State)
    requires Step(s, a, t)
    ensures HoldsWrite(t.pc[a]) ==> IsPending(s.pc[a])
    ensures IsPending(t.pc[a]) ==> !HoldsRead(s.pc[a])
  {
  }

  lemma StepKeepsExclusion(s: State, a: Actor, t: State)
    requires Exclusion(s) && Step(s, a, t)
    ensures Exclusion(t)
  {
    hide Moves;
    WritersWerePending(s, a, t);
    forall b | b in s.pc && b != a
      ensures Compatible(t.pc[a], t.pc[b]) && Compatible(t.pc[b], t.pc[a])
    {
      assert t.pc[b] == s.pc[b];
      assert Compatible(s.pc[a], s.pc[b]);
    }
  }

  /** Which locks protect what: nothing changes except under the locks named here. */
  lemma StepEffects(s: State, a: Actor, t: State)
    requires Step(s, a, t) && Established(s, s.pc[a])
    ensures t.schemas != s.schemas ==> HoldsWrite(s.pc[a]) && HoldsTopology(s.pc[a]) && !s.closed
    ensures t.closed != s.closed ==> HoldsWrite(s.pc[a]) && t.closed
    ensures t.attached != s.attached ==> HoldsConnection(s.pc[a])
    ensures t.attached.Keys != s.attached.Keys ==> s.pc[a].CreateAttaching?
    ensures s.schemas <= t.schemas && s.attached.Keys <= t.attached.Keys
    ensures s.poolClosed ==> t.poolClosed
    ensures t.poolClosed != s.poolClosed ==> s.pc[a].CloseDraining?
  {
    hide MayEnter, HoldsRead, IsBackup;
  }

  lemma StepKeepsOthersEstablished(s: State, a: Actor, t: State, c: Actor)
    requires Inv(s) && Step(s, a, t) && c in s.pc && c != a
    ensures Established(t, t.pc[c])
  {
    hide Moves, MayEnter, IsBackup, Topology, Split, Replaced;
    StepEffects(s, a, t);
    assert Compatible(s.pc[a], s.pc[c]) && Compatible(s.pc[c], s.pc[a]);
    assert t.pc[c] == s.pc[c] && Established(s, s.pc[c]);
  }

  /** While an actor other than a schema's creator holds the topology lock, no schema is being created. */
  lemma NothingInFlight(s: State, a: Actor)
    requires Inv(s) && a in s.pc && HoldsTopology(s.pc[a]) && !s.closed
    requires forall n :: !IsAttachedBy(s.pc[a], n)
    ensures s.attached.Keys == s.schemas
  {
    forall c, n | c in s.pc
      ensures !IsAttachedBy(s.pc[c], n)
    {
      if c != a {
        assert Compatible(s.pc[a], s.pc[c]);
      }
    }
  }

  lemma SchemaNamesAreNormal(requested: string)
    ensures SchemaName(requested).Some? ==> IsSchemaName(SchemaName(requested).value)
  {
    if SchemaName(requested).Some? {
      ToLowerIdempotent(requested);
    }
  }

  lemma CreateEstablishes(s: State, a: Actor, t: State)
    requires Inv(s) && Step(s, a, t)
    requires !t.pc[a].BackupWaiting? && !t.pc[a].BackupCopying? && !t.pc[a].RestoreLocked? && !t.pc[a].RestoreChecking?
    requires !t.pc[a].RestoreWaiting? && !t.pc[a].RestoreVerifying? && !t.pc[a].RestoreSwapping?
    ensures Established(t, t.pc[a])
  {
    hide MayEnter, IsBackup, Topology, Exclusion, SchemaName, IsSchemaName, Split;
    assert Established(s, s.pc[a]);
    if s.pc[a].CreateStart? {
      SchemaNamesAreNormal(s.pc[a].requested);
    }
  }

  lemma BackupEstablishes(s: State, a: Actor, t: State)
    requires Inv(s) && Step(s, a, t) && (t.pc[a].BackupWaiting? || t.pc[a].BackupCopying?)
    ensures Established(t, t.pc[a])
  {
    hide MayEnter, IsBackup, Exclusion, Split;
    assert Established(s, s.pc[a]);
  }

  lemma RestoreEstablishes(s: State, a: Actor, t: State)
    requires Inv(s) && Step(s, a, t)
    requires t.pc[a].RestoreLocked? || t.pc[a].RestoreChecking? || t.pc[a].RestoreWaiting? || t.pc[a].RestoreVerifying?
             || t.pc[a].RestoreSwapping?
    ensures Established(t, t.pc[a])
  {
    hide MayEnter, Exclusion, IsBackup, Replaced, IsSchemaName;
    assert Established(s, s.pc[a]);
    if s.pc[a].RestoreVerifying? {
      VerifyEstablishes(s, a, t);
    } else if s.pc[a].RestoreSwapping? {
      SwapEstablishes(s, a, t);
    }
  }

  lemma VerifyEstablishes(s: State, a: Actor, t: State)
    requires Inv(s) && Step(s, a, t) && s.pc[a].RestoreVerifying? && t.pc[a].RestoreSwapping?
    ensures Established(t, t.pc[a])
  {
    hide MayEnter, Exclusion, IsAscending, Topology, Replaced;
    assert Established(s, s.pc[a]);
    NothingInFlight(s, a);
    assert s.schemas - s.schemas == {};
  }

  lemma SwapEstablishes(s: State, a: Actor, t: State)
    requires Step(s, a, t) && Established(s, s.pc[a]) && s.pc[a].RestoreSwapping? && t.pc[a].RestoreSwapping?
    ensures Established(t, t.pc[a])
  {
    hide MayEnter, IsAscending, Split, Replaced;
    var b, before, todo := s.pc[a].b, s.pc[a].before, s.pc[a].todo;
    var n :| n in todo && n in b.images && t.pc[a] == RestoreSwapping(b, before, todo - {n})
             && t.attached == s.attached[n := Replaced(s.engine, n, b.images[n])];
    SplitStep(s.engine, b, before, s.schemas - todo, n);
    assert s.schemas - (todo - {n}) == s.schemas - todo + {n};
  }

  lemma StepKeepsTopology(s: State, a: Actor, t: State)
    requires Inv(s) && Step(s, a, t)
    ensures Topology(t)
  {
    hide MayEnter, Exclusion, IsSchemaName, SchemaName, IsBackup;
    assert Established(s, s.pc[a]);
    StepEffects(s, a, t);
    forall n | n in t.attached && n !in t.schemas && !t.closed
      ensures exists c :: c in t.pc && IsAttachedBy(t.pc[c], n)
    {
      if n in s.attached {
        var c :| c in s.pc && IsAttachedBy(s.pc[c], n);
        assert c in t.pc && IsAttachedBy(t.pc[c], n);
      } else {
        assert IsAttachedBy(t.pc[a], n);
      }
    }
  }

  lemma StepKeepsInv(s: State, a: Actor, t: State)
    requires Inv(s) && Step(s, a, t)
    ensures Inv(t)
  {
    hide Exclusion, Topology;
    StepKeepsExclusion(s, a, t);
    StepKeepsTopology(s, a, t);
    forall c | c in t.pc
      ensures Established(t, t.pc[c])
    {
      if c != a {
        StepKeepsOthersEstablished(s, a, t, c);
      } else if t.pc[a].BackupWaiting? || t.pc[a].BackupCopying? {
        BackupEstablishes(s, a, t);
      } else if t.pc[a].RestoreLocked? || t.pc[a].RestoreChecking? || t.pc[a].RestoreWaiting?
                || t.pc[a].RestoreVerifying? || t.pc[a].RestoreSwapping? {
        RestoreEstablishes(s, a, t);
      } else {
        CreateEstablishes(s, a, t);
      }
    }
    assert Established(s, s.pc[a]);
    StepEffects(s, a, t);
  }

  lemma {:induction false} RunKeepsInv(run: seq<State>, i: nat)
    requires IsRun(run) && i < |run|
    ensures Inv(run[i])
  {
    hide Inv, Step, Init;
    if i == 0 {
      InitInv(run[0]);
    } else {
      RunKeepsInv(run, i - 1);
      assert SomeStep(run[i - 1], run[i]);
      var a :| a in run[i - 1].pc && Step(run[i - 1], a, run[i]);
      StepKeepsInv(run[i - 1], a, run[i]);
    }
  }

  lemma StepAt(run: seq<State>, k: nat) returns (c: Actor)
    requires IsRun(run) && 0 < k < |run|
    ensures Inv(run[k - 1]) && Step(run[k - 1], c, run[k])
  {
    hide Inv, Step, Init;
    RunKeepsInv(run, k - 1);
    assert SomeStep(run[k - 1], run[k]);
    c :| c in run[k - 1].pc && Step(run[k - 1], c, run[k]);
  }

  lemma StepFrame(s: State, c: Actor, t: State)
    requires Step(s, c, t)
    ensures c in s.pc && t.pc.Keys == s.pc.Keys && t.expiring == s.expiring && t.asking == s.asking
    ensures forall b :: b in s.pc && b != c ==> t.pc[b] == s.pc[b]
  {
  }
}
