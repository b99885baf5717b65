/** Exactly which sets of calls can block each other for good. */
module Blocking {
  import opened Wrappers
  import opened Names
  import opened Backup
  import opened Locks
  import opened Deadlock

  // ---------- the condition ----------

  /** Some call creates a schema of this name. */
  ghost predicate IsCreated(s: State, name: string) {
    exists a :: a in s.pc && s.pc[a].CreateStart? && SchemaName(s.pc[a].requested) == Some(name)
  }

  /** A Backup, or a Restore whose schemas can come to be the current ones, without a deadline. */
  ghost predicate MayWaitForever(s: State, a: Actor)
    requires a in s.pc
  {
    && a !in s.expiring
    && match s.pc[a]
       case BackupStart => true
       case RestoreStart(b) => forall n :: n in Elements(b.schemaNames) ==> n == "public" || IsCreated(s, n)
       case _ => false
  }

  /** Among the calls are such a saver, a Close and a client that asks for the state while it has the
      connection. */
  ghost predicate CanBlock(s: State) {
    && (exists x :: x in s.pc && MayWaitForever(s, x))
    && (exists y :: y in s.pc && s.pc[y].CloseStart?)
    && (exists z :: z in s.pc && s.pc[z].ClientStart? && z in s.asking)
  }

  // ---------- paths ----------

  ghost predicate IsPath(path: seq<State>) {
    |path| > 0 && forall i :: 0 < i < |path| ==> SomeStep(path[i - 1], path[i])
  }

  ghost predicate Leads(s: State, t: State) {
    exists path :: IsPath(path) && path[0] == s && path[|path| - 1] == t
  }

  lemma LeadsNowhere(s: State)
    ensures Leads(s, s)
  {
    assert IsPath([s]);
  }

  lemma LeadsOn(s: State, t: State, a: Actor, u: State)
    requires Leads(s, t) && Step(t, a, u)
    ensures Leads(s, u)
  {
    hide Step;
    var path :| IsPath(path) && path[0] == s && path[|path| - 1] == t;
    assert a in t.pc by {
      StepFrame(t, a, u);
    }
    assert SomeStep(t, u);
    hide SomeStep;
    assert IsPath(path + [u]);
  }

  lemma RunsArePaths(s: State, t: State)
    requires Init(s) && Leads(s, t)
    ensures exists run :: IsRun(run) && run[0] == s && run[|run| - 1] == t
  {
    hide Init, SomeStep;
    var path :| IsPath(path) && path[0] == s && path[|path| - 1] == t;
    assert IsRun(path);
  }

  lemma LeadsKeepsInv(s: State, t: State)
    requires Init(s) && Leads(s, t)
    ensures Inv(t)
  {
    hide Init, Inv, Leads, SomeStep;
    RunsArePaths(s, t);
    var run :| IsRun(run) && run[0] == s && run[|run| - 1] == t;
    RunKeepsInv(run, |run| - 1);
  }

  // ---------- the condition is necessary ----------

  /** What an actor at counter p started as. */
  predicate CameFrom(start: PC, p: PC) {
    CreateOrigin(start, p) && RestoreOrigin(start, p) && OtherOrigin(start, p)
  }

  predicate CreateOrigin(start: PC, p: PC) {
    match p
    case CreateStart(_) => start == p
    case CreateLocked(name) => IsRequest(start, name)
    case CreateChecking(name) => IsRequest(start, name)
    case CreateWaiting(name) => IsRequest(start, name)
    case CreateAttaching(name) => IsRequest(start, name)
    case CreateAttached(name) => IsRequest(start, name)
    case CreatePending(name) => IsRequest(start, name)
    case CreateWriting(name) => IsRequest(start, name)
    case _ => true
  }

  predicate IsRequest(start: PC, name: string) {
    start.CreateStart? && SchemaName(start.requested) == Some(name)
  }

  predicate RestoreOrigin(start: PC, p: PC) {
    p.RestoreStart? || p.RestoreLocked? || p.RestoreChecking? || p.RestoreWaiting? ==> start == RestoreStart(p.b)
  }

  predicate OtherOrigin(start: PC, p: PC) {
    && (p.BackupStart? || p.BackupLocked? || p.BackupChecking? || p.BackupWaiting? ==> start == BackupStart)
    && (p.CloseStart? || p.ClosePending? ==> start == CloseStart)
    && (IsClient(p) ==> start == ClientStart)
  }

  lemma StepKeepsCreateOrigin(s: State, a: Actor, t: State, start: PC)
    requires Step(s, a, t) && CreateOrigin(start, s.pc[a])
    ensures CreateOrigin(start, t.pc[a])
  {
    hide MayEnter, SchemaName, IsBackup, Replaced, VersionsMatch, ChangesContents, SameData;
  }

  lemma StepKeepsRestoreOrigin(s: State, a: Actor, t: State, start: PC)
    requires Step(s, a, t) && RestoreOrigin(start, s.pc[a])
    ensures RestoreOrigin(start, t.pc[a])
  {
    hide MayEnter, SchemaName, IsBackup, Replaced, VersionsMatch, ChangesContents, SameData;
  }

  lemma StepKeepsOtherOrigin(s: State, a: Actor, t: State, start: PC)
    requires Step(s, a, t) && OtherOrigin(start, s.pc[a])
    ensures OtherOrigin(start, t.pc[a])
  {
    hide MayEnter, SchemaName, IsBackup, Replaced, VersionsMatch, ChangesContents, SameData;
  }

  lemma StepKeepsOrigin(s: State, a: Actor, t: State, start: PC)
    requires Step(s, a, t) && CameFrom(start, s.pc[a])
    ensures a in s.pc && a in t.pc && CameFrom(start, t.pc[a])
  {
    hide MayEnter, Moves, CreateOrigin, RestoreOrigin, OtherOrigin;
    StepKeepsCreateOrigin(s, a, t, start);
    StepKeepsRestoreOrigin(s, a, t, start);
    StepKeepsOtherOrigin(s, a, t, start);
  }

  lemma StepCreatesRequested(s: State, a: Actor, t: State, n: string)
    requires Step(s, a, t) && n in t.schemas && n !in s.schemas
    ensures s.pc[a] == CreateWriting(n)
  {
    hide MayEnter, IsBackup;
  }

  lemma {:induction false} Origins(run: seq<State>, i: nat)
    requires IsRun(run) && i < |run|
    ensures run[i].pc.Keys == run[0].pc.Keys && run[i].expiring == run[0].expiring && run[i].asking == run[0].asking
    ensures forall a :: a in run[i].pc ==> CameFrom(run[0].pc[a], run[i].pc[a])
    ensures forall n :: n in run[i].schemas ==> n == "public" || IsCreated(run[0], n)
  {
    hide IsRun, Inv, Step, CameFrom;
    if i == 0 {
      StartsComeFromThemselves(run);
    } else {
      Origins(run, i - 1);
      var c := StepAt(run, i);
      var s, t := run[i - 1], run[i];
      StepFrame(s, c, t);
      StepKeepsOrigin(s, c, t, run[0].pc[c]);
      forall n | n in t.schemas
        ensures n == "public" || IsCreated(run[0], n)
      {
        if n !in s.schemas {
          StepCreatesRequested(s, c, t, n);
          WriterWasAsked(run[0].pc[c], n);
        }
      }
    }
  }

  lemma WriterWasAsked(start: PC, n: string)
    requires CameFrom(start, CreateWriting(n))
    ensures start.CreateStart? && SchemaName(start.requested) == Some(n)
  {
    hide SchemaName;
  }

  lemma StartsComeFromThemselves(run: seq<State>)
    requires IsRun(run)
    ensures forall a :: a in run[0].pc ==> CameFrom(run[0].pc[a], run[0].pc[a])
    ensures run[0].schemas == {"public"}
  {
    hide SomeStep, SchemaName, IsBackup;
  }

  lemma CycleNeeds(s: State, t: State, x: Actor, y: Actor, z: Actor)
    requires Inv(t) && IsDeadlocked(t, x, y, z)
    requires t.pc.Keys == s.pc.Keys && t.expiring == s.expiring && t.asking == s.asking
    requires CameFrom(s.pc[x], t.pc[x]) && CameFrom(s.pc[y], t.pc[y]) && CameFrom(s.pc[z], t.pc[z])
    requires forall n :: n in t.schemas ==> n == "public" || IsCreated(s, n)
    ensures CanBlock(s)
  {
    hide IsCreated, CreateOrigin, Inv;
    BlockedClientsAsk(t, z);
    if t.pc[x].RestoreWaiting? {
      WaitingRestoreIsCurrent(t, x);
    }
    assert MayWaitForever(s, x);
    assert s.pc[y].CloseStart? && s.pc[z].ClientStart?;
  }

  lemma BlockedClientsAsk(t: State, z: Actor)
    requires Inv(t) && z in t.pc && t.pc[z].ClientBlocked?
    ensures z in t.asking
  {
  }

  /** Calls that get stuck include a saver that may wait for ever, a Close and a client that asks. */
  lemma StuckNeeds(run: seq<State>)
    requires IsRun(run) && |run| > 0 && IsStuck(run[|run| - 1])
    ensures CanBlock(run[0])
  {
    hide *;
    var t := run[|run| - 1];
    RunKeepsInv(run, |run| - 1);
    Origins(run, |run| - 1);
    StuckIsDeadlocked(t);
    var x, y, z :| IsDeadlocked(t, x, y, z);
    CycleMembers(t, x, y, z);
    CycleNeeds(run[0], t, x, y, z);
  }

  lemma CycleMembers(t: State, x: Actor, y: Actor, z: Actor)
    requires IsDeadlocked(t, x, y, z)
    ensures x in t.pc && y in t.pc && z in t.pc && x != y && y != z && z != x
  {
  }

  lemma WaitingRestoreIsCurrent(t: State, x: Actor)
    requires Inv(t) && x in t.pc && t.pc[x].RestoreWaiting?
    ensures t.schemas == Elements(t.pc[x].b.schemaNames)
  {
    assert Established(t, t.pc[x]);
  }

  // ---------- quiet states ----------

  /** The actor is not in the middle of its call. */
  predicate IsQuiet(p: PC) {
    IsStart(p) || p == Done
  }

  /** Nobody but these is in the middle of a call. */
  ghost predicate AllQuiet(s: State, but: set<Actor>) {
    && !s.closed && !s.poolClosed
    && forall b :: b in s.pc && b !in but ==> IsQuiet(s.pc[b])
  }

  /** The state with one counter moved on, and perhaps a schema attached or entered. */
  function Next(s: State, a: Actor, q: PC): State
    requires a in s.pc
  {
    match s.pc[a]
    case CreateAttaching(name) => MovedTo(s.(attached := s.attached[name := EMPTY]), a, q)
    case CreateWriting(name) => MovedTo(s.(schemas := s.schemas + {name}), a, q)
    case _ => MovedTo(s, a, q)
  }

  lemma QuietOthersLetEnter(s: State, a: Actor, q: PC)
    requires a in s.pc && AllQuiet(s, {a})
    ensures MayEnter(s, a, q)
  {
    forall b | b in s.pc && b != a
      ensures !HoldsTopology(s.pc[b]) && !HoldsRead(s.pc[b]) && !IsPending(s.pc[b]) && !HoldsWrite(s.pc[b])
              && !HoldsConnection(s.pc[b]) && !HoldsRegistry(s.pc[b])
    {
      assert IsQuiet(s.pc[b]);
    }
  }

  // ---------- creating the schemas of a backup ----------

  /** The successor of a CreateSchema whose name is free. */
  function CreateNext(p: PC, name: string): PC {
    match p
    case CreateStart(_) => CreateLocked(name)
    case CreateLocked(_) => CreateChecking(name)
    case CreateChecking(_) => CreateWaiting(name)
    case CreateWaiting(_) => CreateAttaching(name)
    case CreateAttaching(_) => CreateAttached(name)
    case CreateAttached(_) => CreatePending(name)
    case CreatePending(_) => CreateWriting(name)
    case _ => Done
  }

  predicate Creates(p: PC, name: string) {
    match p
    case CreateStart(requested) => SchemaName(requested) == Some(name)
    case CreateLocked(n) => n == name
    case CreateChecking(n) => n == name
    case CreateWaiting(n) => n == name
    case CreateAttaching(n) => n == name
    case CreateAttached(n) => n == name
    case CreatePending(n) => n == name
    case CreateWriting(n) => n == name
    case _ => false
  }

  lemma CreateStep(s: State, a: Actor, name: string)
    requires a in s.pc && AllQuiet(s, {a}) && Creates(s.pc[a], name) && name !in s.schemas
    ensures var t := Next(s, a, CreateNext(s.pc[a], name));
            && Step(s, a, t) && AllQuiet(t, {a})
            && t.schemas == (if s.pc[a].CreateWriting? then s.schemas + {name} else s.schemas)
            && (if s.pc[a].CreateWriting? then t.pc[a] == Done else Creates(t.pc[a], name))
  {
    hide MayEnter, SchemaName, Replaced, IsBackup, VersionsMatch, ChangesContents;
    QuietOthersLetEnter(s, a, CreateNext(s.pc[a], name));
  }

  /** How many steps are left. */
  function StepsLeft(p: PC): nat {
    match p
    case CreateStart(_) => 7
    case CreateLocked(_) => 6
    case CreateChecking(_) => 5
    case CreateWaiting(_) => 4
    case CreateAttaching(_) => 3
    case CreateAttached(_) => 2
    case CreatePending(_) => 1
    case _ => 0
  }

  /** The same calls, apart from the one of actor a. */
  predicate SameOthers(s: State, t: State, a: Actor) {
    && t.pc.Keys == s.pc.Keys && t.expiring == s.expiring && t.asking == s.asking
    && forall b :: b in s.pc && b != a ==> t.pc[b] == s.pc[b]
  }

  lemma {:induction false} CreateRuns(s: State, a: Actor, name: string) returns (t: State)
    requires a in s.pc && AllQuiet(s, {a}) && Creates(s.pc[a], name) && name !in s.schemas
    ensures Leads(s, t) && AllQuiet(t, {}) && SameOthers(s, t, a) && t.pc[a] == Done && t.schemas == s.schemas + {name}
    decreases StepsLeft(s.pc[a])
  {
    hide Leads, Step, Creates, SchemaName;
    var u := Next(s, a, CreateNext(s.pc[a], name));
    CreateStep(s, a, name);
    LeadsNowhere(s);
    LeadsOn(s, s, a, u);
    CreatorsAre(s.pc[a], name);
    if s.pc[a].CreateWriting? {
      t := u;
    } else {
      t := CreateRuns(u, a, name);
      LeadsAlong(s, u, t);
    }
  }

  lemma CreatorsAre(p: PC, name: string)
    requires Creates(p, name)
    ensures StepsLeft(p) == 0 <==> p.CreateWriting?
    ensures StepsLeft(p) > 0 ==> StepsLeft(CreateNext(p, name)) < StepsLeft(p)
  {
  }

  lemma LeadsAlong(s: State, t: State, u: State)
    requires Leads(s, t) && Leads(t, u)
    ensures Leads(s, u)
  {
    hide SomeStep;
    var p :| IsPath(p) && p[0] == s && p[|p| - 1] == t;
    var q :| IsPath(q) && q[0] == t && q[|q| - 1] == u;
    var r := p + q[1..];
    forall i | 0 < i < |r|
      ensures SomeStep(r[i - 1], r[i])
    {
      if i >= |p| {
        assert r[i] == q[i - |p| + 1] && r[i - 1] == q[i - |p|];
      }
    }
    assert IsPath(r) && r[0] == s && r[|r| - 1] == u;
  }

  lemma AllQuietBut(s: State, but: set<Actor>)
    requires AllQuiet(s, {})
    ensures AllQuiet(s, but)
  {
  }

  /** Creates schemas one after the other; the calls that create nothing are not touched. */
  lemma {:induction false} CreateAll(s: State, names: set<string>) returns (t: State)
    requires AllQuiet(s, {}) && names !! s.schemas && forall n :: n in names ==> IsCreated(s, n)
    ensures Leads(s, t) && AllQuiet(t, {}) && t.schemas == s.schemas + names
    ensures t.pc.Keys == s.pc.Keys && t.expiring == s.expiring && t.asking == s.asking
    ensures forall b :: b in s.pc && !s.pc[b].CreateStart? ==> t.pc[b] == s.pc[b]
    decreases names
  {
    hide Leads, AllQuiet, SchemaName;
    if names == {} {
      LeadsNowhere(s);
      t := s;
    } else {
      var n :| n in names;
      var a :| a in s.pc && s.pc[a].CreateStart? && SchemaName(s.pc[a].requested) == Some(n);
      AllQuietBut(s, {a});
      var u := CreateRuns(s, a, n);
      forall m | m in names - {n}
        ensures IsCreated(u, m)
      {
        var c :| c in s.pc && s.pc[c].CreateStart? && SchemaName(s.pc[c].requested) == Some(m);
        assert c != a && u.pc[c] == s.pc[c];
      }
      t := CreateAll(u, names - {n});
      LeadsAlong(s, u, t);
    }
  }

  // ---------- closing the cycle ----------

  function Opening(p: PC): PC {
    if p.ClientStart? then ClientChecking else if p.ClientChecking? then ClientWaiting else ClientOpen
  }

  lemma ClientStep(s: State, z: Actor)
    requires z in s.pc && AllQuiet(s, {z})
    requires s.pc[z].ClientStart? || s.pc[z].ClientChecking? || s.pc[z].ClientWaiting?
    ensures Step(s, z, MovedTo(s, z, Opening(s.pc[z])))
  {
    hide MayEnter;
    QuietOthersLetEnter(s, z, Opening(s.pc[z]));
  }

  lemma ClientOpens(s: State, z: Actor) returns (t: State)
    requires z in s.pc && s.pc[z] == ClientStart && AllQuiet(s, {z})
    ensures Leads(s, t) && t == MovedTo(s, z, ClientOpen)
  {
    hide Leads, Step;
    var u := MovedTo(s, z, Opening(s.pc[z]));
    var v := MovedTo(u, z, Opening(u.pc[z]));
    t := MovedTo(v, z, Opening(v.pc[z]));
    ClientStep(s, z);
    ClientStep(u, z);
    ClientStep(v, z);
    LeadsNowhere(s);
    LeadsOn(s, s, z, u);
    LeadsOn(s, u, z, v);
    LeadsOn(s, v, z, t);
  }

  predicate IsEarlySaver(s: State, p: PC) {
    p.BackupStart? || p.BackupLocked? || p.BackupChecking?
    || ((p.RestoreStart? || p.RestoreLocked? || p.RestoreChecking?) && s.schemas == Elements(p.b.schemaNames))
  }

  function SaverNext(p: PC): PC {
    match p
    case BackupStart => BackupLocked
    case BackupLocked => BackupChecking
    case BackupChecking => BackupWaiting
    case RestoreStart(b) => RestoreLocked(b)
    case RestoreLocked(b) => RestoreChecking(b)
    case RestoreChecking(b) => RestoreWaiting(b)
    case _ => Done
  }

  /** A saver is not in the way of a client that only holds the connection, until it wants it too. */
  lemma SaverMayEnter(s: State, x: Actor, z: Actor)
    requires x in s.pc && z in s.pc && x != z && s.pc[z] == ClientOpen && AllQuiet(s, {x, z}) && IsEarlySaver(s, s.pc[x])
    ensures MayEnter(s, x, SaverNext(s.pc[x]))
  {
    forall b | b in s.pc && b != x
      ensures !HoldsTopology(s.pc[b]) && !HoldsRead(s.pc[b]) && !IsPending(s.pc[b]) && !HoldsWrite(s.pc[b])
    {
      assert b != z ==> IsQuiet(s.pc[b]);
    }
  }

  lemma SaverStep(s: State, x: Actor, z: Actor)
    requires x in s.pc && z in s.pc && x != z && s.pc[z] == ClientOpen && AllQuiet(s, {x, z}) && IsEarlySaver(s, s.pc[x])
    ensures Step(s, x, MovedTo(s, x, SaverNext(s.pc[x])))
  {
    hide MayEnter;
    SaverMayEnter(s, x, z);
  }

  lemma SaverWaits(s: State, x: Actor, z: Actor) returns (t: State)
    requires x in s.pc && z in s.pc && x != z && s.pc[z] == ClientOpen && AllQuiet(s, {x, z})
    requires IsEarlySaver(s, s.pc[x]) && (s.pc[x].BackupStart? || s.pc[x].RestoreStart?)
    ensures Leads(s, t) && x in t.pc && t == MovedTo(s, x, t.pc[x]) && (t.pc[x].BackupWaiting? || t.pc[x].RestoreWaiting?)
  {
    hide Leads, Step;
    var u := MovedTo(s, x, SaverNext(s.pc[x]));
    var v := MovedTo(u, x, SaverNext(u.pc[x]));
    t := MovedTo(v, x, SaverNext(v.pc[x]));
    SaverStep(s, x, z);
    SaverStep(u, x, z);
    SaverStep(v, x, z);
    LeadsNowhere(s);
    LeadsOn(s, s, x, u);
    LeadsOn(s, u, x, v);
    LeadsOn(s, v, x, t);
  }

  lemma CloserStep(s: State, x: Actor, y: Actor, z: Actor)
    requires x in s.pc && y in s.pc && z in s.pc && AllQuiet(s, {x, z}) && s.pc[y] == CloseStart
    requires s.pc[z] == ClientOpen && (s.pc[x].BackupWaiting? || s.pc[x].RestoreWaiting?)
    ensures Step(s, y, MovedTo(s, y, ClosePending))
  {
    forall b | b in s.pc && b != y
      ensures !HoldsWrite(s.pc[b]) && !IsPending(s.pc[b])
    {
      assert b != x && b != z ==> IsQuiet(s.pc[b]);
    }
  }

  lemma AskingStep(s: State, z: Actor)
    requires z in s.pc && s.pc[z] == ClientOpen && z in s.asking
    ensures Step(s, z, MovedTo(s, z, ClientBlocked))
  {
  }

  /** With the saver waiting, the Close begins to wait and then the client asks whether it is closed. */
  lemma CycleCloses(s: State, x: Actor, y: Actor, z: Actor) returns (t: State)
    requires x in s.pc && y in s.pc && z in s.pc && AllQuiet(s, {x, z}) && s.pc[y] == CloseStart
    requires s.pc[z] == ClientOpen && z in s.asking
    requires (s.pc[x].BackupWaiting? || s.pc[x].RestoreWaiting?) && x !in s.expiring
    ensures Leads(s, t) && IsDeadlocked(t, x, y, z) && AllQuiet(t, {x, y, z})
    ensures t.pc.Keys == s.pc.Keys
  {
    hide Leads, Step;
    var u := MovedTo(s, y, ClosePending);
    t := MovedTo(u, z, ClientBlocked);
    CloserStep(s, x, y, z);
    AskingStep(u, z);
    LeadsNowhere(s);
    LeadsOn(s, s, y, u);
    LeadsOn(s, u, z, t);
  }

  // ---------- what is left ----------

  /** A CreateSchema call with a name that it refuses. */
  predicate IsRefused(p: PC) {
    p.CreateStart? && SchemaName(p.requested).None?
  }

  function Refused(s: State): (r: set<Actor>)
    ensures forall a :: a in r <==> a in s.pc && IsRefused(s.pc[a])
  {
    set a | a in s.pc.Keys && IsRefused(s.pc[a])
  }

  lemma RefusedStep(s: State, a: Actor)
    requires a in s.pc && IsRefused(s.pc[a])
    ensures Step(s, a, MovedTo(s, a, Done))
  {
    hide SchemaName;
  }

  /** Calls with refused names come to their end; nothing else changes. */
  lemma {:induction false} Drain(s: State, x: Actor, y: Actor, z: Actor) returns (t: State)
    requires IsDeadlocked(s, x, y, z) && AllQuiet(s, {x, y, z})
    ensures Leads(s, t) && IsDeadlocked(t, x, y, z) && AllQuiet(t, {x, y, z}) && Refused(t) == {}
    decreases |Refused(s)|
  {
    hide Leads, Step, SchemaName;
    if Refused(s) == {} {
      LeadsNowhere(s);
      t := s;
    } else {
      var a :| a in Refused(s);
      var u := MovedTo(s, a, Done);
      RefusedStep(s, a);
      LeadsNowhere(s);
      LeadsOn(s, s, a, u);
      assert Refused(u) == Refused(s) - {a};
      t := Drain(u, x, y, z);
      LeadsAlong(s, u, t);
    }
  }

  /** Every call that has not begun waits behind the pending Close or behind the saver. */
  lemma QuietCannotStep(s: State, x: Actor, y: Actor, z: Actor, a: Actor, t: State)
    requires IsDeadlocked(s, x, y, z) && a in s.pc && IsQuiet(s.pc[a]) && !IsRefused(s.pc[a])
    ensures !Step(s, a, t)
  {
    hide SchemaName, IsBackup;
  }

  lemma QuietIsBlocked(s: State, x: Actor, y: Actor, z: Actor, a: Actor)
    requires IsDeadlocked(s, x, y, z) && a in s.pc && IsQuiet(s.pc[a]) && !IsRefused(s.pc[a])
    ensures !CanStep(s, a)
  {
    forall t
      ensures !Step(s, a, t)
    {
      QuietCannotStep(s, x, y, z, a, t);
    }
    hide Step;
  }

  lemma CycleMembersAreBlocked(s: State, x: Actor, y: Actor, z: Actor, a: Actor)
    requires Inv(s) && IsDeadlocked(s, x, y, z) && (a == x || a == y || a == z)
    ensures !CanStep(s, a)
  {
    hide Inv, Step, IsDeadlocked;
    if CanStep(s, a) {
      var t :| Step(s, a, t);
      DeadlockIsPermanent(s, a, t, x, y, z);
    }
  }

  lemma DrainedIsStuck(s: State, x: Actor, y: Actor, z: Actor)
    requires Inv(s) && IsDeadlocked(s, x, y, z) && AllQuiet(s, {x, y, z}) && Refused(s) == {}
    ensures IsStuck(s)
  {
    hide Inv, CanStep, SchemaName, IsRefused;
    forall a | a in s.pc
      ensures !CanStep(s, a)
    {
      if a == x || a == y || a == z {
        CycleMembersAreBlocked(s, x, y, z, a);
      } else {
        assert a !in Refused(s);
        QuietIsBlocked(s, x, y, z, a);
      }
    }
    assert !IsFinished(s.pc[y]);
  }

  // ---------- the condition is sufficient ----------

  lemma InitIsQuiet(s: State)
    requires Init(s)
    ensures AllQuiet(s, {}) && s.schemas == {"public"}
    ensures forall a :: a in s.pc && s.pc[a].RestoreStart? ==> "public" in Elements(s.pc[a].b.schemaNames)
  {
  }

  /** First the schemas of the backup are created, if the saver is a Restore. */
  lemma Prepare(s: State, x: Actor) returns (t: State)
    requires Init(s) && x in s.pc && MayWaitForever(s, x)
    ensures Leads(s, t) && AllQuiet(t, {}) && IsEarlySaver(t, s.pc[x])
    ensures t.pc.Keys == s.pc.Keys && t.expiring == s.expiring && t.asking == s.asking && t.pc[x] == s.pc[x]
    ensures forall b :: b in s.pc && !s.pc[b].CreateStart? ==> t.pc[b] == s.pc[b]
  {
    InitIsQuiet(s);
    hide Init, Leads, AllQuiet, IsCreated, IsBackup;
    if s.pc[x].RestoreStart? {
      var names := Elements(s.pc[x].b.schemaNames);
      t := CreateAll(s, names - {"public"});
      assert t.schemas == names;
    } else {
      LeadsNowhere(s);
      t := s;
    }
  }

  lemma CycleIsReached(s: State, x: Actor, y: Actor, z: Actor) returns (t: State)
    requires Init(s) && x in s.pc && y in s.pc && z in s.pc
    requires MayWaitForever(s, x) && s.pc[y].CloseStart? && s.pc[z].ClientStart? && z in s.asking
    ensures Leads(s, t) && IsStuck(t)
  {
    hide Init, Leads, IsCreated, IsStuck, Inv;
    var u := Prepare(s, x);
    AllQuietBut(u, {z});
    var v := ClientOpens(u, z);
    var w := SaverWaits(v, x, z);
    var c := CycleCloses(w, x, y, z);
    t := Drain(c, x, y, z);
    LeadsAlong(s, u, v);
    LeadsAlong(s, v, w);
    LeadsAlong(s, w, c);
    LeadsAlong(s, c, t);
    LeadsKeepsInv(s, t);
    DrainedIsStuck(t, x, y, z);
  }

  /** Calls that start together can come to a state in which none of them can ever go on, exactly when
      there are a Close, a client that asks while it has the connection, and a Backup without a deadline or such a Restore whose schemas can
      come to be the current ones. */
  lemma CallsCanBlockIff(s: State)
    requires Init(s)
    ensures (exists run :: IsRun(run) && run[0] == s && IsStuck(run[|run| - 1])) <==> CanBlock(s)
  {
    if exists run :: IsRun(run) && run[0] == s && IsStuck(run[|run| - 1]) {
      hide Init, SomeStep, IsStuck, CanBlock;
      var run :| IsRun(run) && run[0] == s && IsStuck(run[|run| - 1]);
      StuckNeeds(run);
    }
    if CanBlock(s) {
      hide Init, SomeStep, IsStuck, MayWaitForever;
      var x :| x in s.pc && MayWaitForever(s, x);
      var y :| y in s.pc && s.pc[y].CloseStart?;
      var z :| z in s.pc && s.pc[z].ClientStart? && z in s.asking;
      var t := CycleIsReached(s, x, y, z);
      RunsArePaths(s, t);
    }
  }

  // ---------- two consequences ----------

  predicate IsSaver(p: PC) {
    || p.BackupStart? || p.BackupLocked? || p.BackupChecking? || p.BackupWaiting? || p.BackupCopying?
    || p.RestoreStart? || p.RestoreLocked? || p.RestoreChecking? || p.RestoreWaiting? || p.RestoreVerifying?
    || p.RestoreSwapping?
  }

  /** When every Backup and every Restore call has a deadline, and in particular when there are none,
      no interleaving gets stuck, even though a pending writer keeps new readers out. */
  lemma NoDeadlockWithDeadlines(run: seq<State>, i: nat)
    requires IsRun(run) && i < |run|
    requires forall a :: a in run[0].pc && IsSaver(run[0].pc[a]) ==> a in run[0].expiring
    ensures !IsStuck(run[i])
  {
    hide *;
    RunStarts(run);
    DeadlinesSuffice(run[0]);
    if IsStuck(run[i]) {
      PrefixIsRun(run, i);
      StuckNeeds(run[..i + 1]);
    }
  }

  lemma RunStarts(run: seq<State>)
    requires IsRun(run)
    ensures |run| > 0 && Init(run[0])
  {
    hide Init;
  }

  lemma DeadlinesSuffice(s: State)
    requires Init(s) && forall a :: a in s.pc && IsSaver(s.pc[a]) ==> a in s.expiring
    ensures !CanBlock(s)
  {
    hide IsCreated;
  }

  lemma PrefixIsRun(run: seq<State>, i: nat)
    requires IsRun(run) && i < |run|
    ensures IsRun(run[..i + 1])
  {
    hide Init, SomeStep;
  }

  /** The condition on deadlines is needed: one transaction, one Backup and one Close, none of them with
      a deadline, can block each other. */
  lemma DeadlockIsReachable()
    ensures exists run :: IsRun(run) && IsStuck(run[|run| - 1])
  {
    var s := State(map[0 := ClientStart, 1 := BackupStart, 2 := CloseStart], Engine((name, version) => version),
                   {"public"}, map["public" := EMPTY], false, false, {}, {0});
    assert 0 in s.pc && 1 in s.pc && 2 in s.pc;
    assert MayWaitForever(s, 1);
    CallsCanBlockIff(s);
    hide Init, SomeStep, IsStuck;
  }
}
