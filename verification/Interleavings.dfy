/** Safety over every interleaving of calls on one database. */
module Interleavings {
  import opened Text
  import opened Names
  import opened Backup
  import opened Locks
  import Resolution

  /** While a restore swaps schemas, no other actor holds the connection or can change the schemas'
      names, the names are those the restore has checked, and the schemas are split into those
      restored and those as they were before. */
  lemma RestoreIsNeverSeenHalfDone(run: seq<State>, i: nat, a: Actor)
    requires IsRun(run) && i < |run| && a in run[i].pc && run[i].pc[a].RestoreSwapping?
    ensures forall c :: c in run[i].pc && c != a ==>
              !HoldsConnection(run[i].pc[c]) && !HoldsTopology(run[i].pc[c]) && !HoldsWrite(run[i].pc[c])
    ensures run[i].schemas == Elements(run[i].pc[a].b.schemaNames)
    ensures run[i].pc[a].before.Keys == run[i].pc[a].b.images.Keys
    ensures run[i].attached
            == Split(run[i].engine, run[i].pc[a].b, run[i].pc[a].before, run[i].schemas - run[i].pc[a].todo)
  {
    hide IsRun, Topology, Split;
    RunKeepsInv(run, i);
    assert Established(run[i], run[i].pc[a]);
    forall c | c in run[i].pc && c != a
      ensures Compatible(run[i].pc[a], run[i].pc[c]) && Compatible(run[i].pc[c], run[i].pc[a])
    {
    }
  }

  // ---------- single steps ----------

  lemma CommitBegins(s: State, c: Actor, t: State, a: Actor)
    requires Inv(s) && Step(s, c, t) && a in s.pc && s.pc[a].RestoreVerifying? && t.pc[a].RestoreSwapping?
    ensures t.pc[a].before == s.attached && t.pc[a].b == s.pc[a].b && t.schemas == s.schemas && t.engine == s.engine
    ensures s.schemas == Elements(s.pc[a].b.schemaNames)
    ensures forall n :: n in s.schemas ==>
              && n in s.attached && n in s.pc[a].b.schemaVersions
              && s.attached[n].version == s.pc[a].b.schemaVersions[n]
  {
    hide MayEnter, IsAscending, Split, Exclusion;
    assert c == a;
    assert Established(s, s.pc[a]);
  }

  lemma CommitGoesOn(s: State, c: Actor, t: State, a: Actor)
    requires Inv(s) && Step(s, c, t) && a in s.pc && s.pc[a].RestoreSwapping? && t.pc[a].RestoreSwapping?
    ensures t.pc[a].before == s.pc[a].before && t.pc[a].b == s.pc[a].b
    ensures t.schemas == s.schemas && t.engine == s.engine
  {
    hide MayEnter, Topology, IsBackup, Split;
    assert Established(s, s.pc[c]);
    StepEffects(s, c, t);
    if c != a {
      hide Moves;
      assert Compatible(s.pc[c], s.pc[a]);
    }
  }

  lemma CommitEnds(s: State, c: Actor, t: State, a: Actor)
    requires Inv(s) && Step(s, c, t) && a in s.pc && s.pc[a].RestoreSwapping? && t.pc[a].Done?
    ensures t.attached == Replacement(s.engine, s.pc[a].b) && t.schemas == s.schemas == t.attached.Keys
  {
    hide MayEnter, Exclusion, Topology, Split;
    assert c == a;
    assert Established(s, s.pc[a]);
    assert s.schemas - {} == s.schemas;
    SplitComplete(s.engine, s.pc[a].b, s.pc[a].before, s.schemas);
  }

  lemma CopyEnds(s: State, c: Actor, t: State, a: Actor)
    requires Inv(s) && Step(s, c, t) && a in s.pc && s.pc[a].BackupCopying? && t.pc[a].BackedUp?
    ensures t.pc[a].images == t.attached && t.attached.Keys == t.schemas
  {
    hide MayEnter, Exclusion, Topology;
    assert c == a;
    assert Established(s, s.pc[a]);
    NothingInFlight(s, a);
  }

  // ---------- whole runs ----------

  /** A restore that enters its commit at `i` remembers the store of that moment until it is done. */
  lemma {:induction false} RestoreRemembers(run: seq<State>, i: nat, k: nat, a: Actor)
    requires IsRun(run) && i < k < |run| && a in run[i].pc && run[i].pc[a].RestoreVerifying?
    requires forall j :: i < j <= k ==> a in run[j].pc && run[j].pc[a].RestoreSwapping?
    ensures run[k].pc[a].before == run[i].attached && run[k].pc[a].b == run[i].pc[a].b
    ensures run[k].schemas == run[i].schemas && run[k].engine == run[i].engine
  {
    hide IsRun, Inv, Step;
    var c := StepAt(run, k);
    if k == i + 1 {
      CommitBegins(run[i], c, run[k], a);
    } else {
      RestoreRemembers(run, i, k - 1, a);
      CommitGoesOn(run[k - 1], c, run[k], a);
    }
  }

  /** A restore that commits between `i` and `j` replaces every schema by its image, as one step: no
      other actor changes a schema between its first and its last swap. */
  lemma RestoreReplacesEverything(run: seq<State>, i: nat, j: nat, a: Actor)
    requires IsRun(run) && i + 1 < j < |run| && a in run[i].pc && a in run[j].pc
    requires run[i].pc[a].RestoreVerifying? && run[j].pc[a].Done?
    requires forall k :: i < k < j ==> a in run[k].pc && run[k].pc[a].RestoreSwapping?
    ensures run[j].attached == Replacement(run[i].engine, run[i].pc[a].b)
    ensures run[j].schemas == run[i].schemas == run[j].attached.Keys
    ensures run[i].schemas == Elements(run[i].pc[a].b.schemaNames)
    ensures forall n :: n in run[i].schemas ==>
              && n in run[i].attached && n in run[i].pc[a].b.schemaVersions
              && run[i].attached[n].version == run[i].pc[a].b.schemaVersions[n]
  {
    hide IsRun, Inv, Step, Replacement;
    var first := StepAt(run, i + 1);
    CommitBegins(run[i], first, run[i + 1], a);
    RestoreRemembers(run, i, j - 1, a);
    var c := StepAt(run, j);
    CommitEnds(run[j - 1], c, run[j], a);
  }

  /** The images of a backup are the whole store of one moment. */
  lemma BackupIsOneMoment(run: seq<State>, i: nat, a: Actor)
    requires IsRun(run) && 0 < i < |run| && a in run[i].pc && a in run[i - 1].pc
    requires run[i - 1].pc[a].BackupCopying? && run[i].pc[a].BackedUp?
    ensures run[i].pc[a].images == run[i].attached && run[i].attached.Keys == run[i].schemas
  {
    hide IsRun, Inv, Step;
    var c := StepAt(run, i);
    CopyEnds(run[i - 1], c, run[i], a);
  }

  /** Whenever the topology lock is free and the database is open, the engine's databases are exactly
      those of the schemas, and every schema name is public or a folded, unreserved identifier. */
  lemma TopologyIsConsistent(run: seq<State>, i: nat)
    requires IsRun(run) && i < |run| && !run[i].closed
    requires forall a :: a in run[i].pc ==> !HoldsTopology(run[i].pc[a])
    ensures run[i].attached.Keys == run[i].schemas && "public" in run[i].schemas
    ensures forall n :: n in run[i].schemas ==> n == "public" || IsSchemaName(n)
  {
    RunKeepsInv(run, i);
  }

  /** The names that a run produces are those under which relation names resolve as they should. */
  lemma TopologyIsResolvable(run: seq<State>, i: nat)
    requires IsRun(run) && i < |run|
    ensures Resolution.IsTopology(run[i].schemas)
  {
    hide Established, Exclusion, IsRun;
    RunKeepsInv(run, i);
    assert SqliteFold("public") == "public";
    forall n | n in run[i].schemas && n != "public"
      ensures n != "" && SqliteFold(n) == n
    {
      NamesAreFolded(n);
    }
  }

  lemma NamesAreFolded(name: string)
    requires IsSchemaName(name)
    ensures name != "" && SqliteFold(name) == name
  {
    forall i | 0 <= i < |name|
      ensures AsciiLower(name[i]) == name[i]
    {
      assert ToLower(name)[i] == LowerChar(name[i]);
    }
  }

  /** Schemas are never removed, and a closed database stays closed. */
  lemma {:induction false} HistoryIsMonotone(run: seq<State>, i: nat, j: nat)
    requires IsRun(run) && i <= j < |run|
    ensures run[i].schemas <= run[j].schemas
    ensures run[i].closed ==> run[j].closed
  {
    if i < j {
      hide IsRun, Step;
      HistoryIsMonotone(run, i, j - 1);
      var c := StepAt(run, j);
      assert c in run[j - 1].pc by {
        StepFrame(run[j - 1], c, run[j]);
      }
      assert Established(run[j - 1], run[j - 1].pc[c]);
      StepEffects(run[j - 1], c, run[j]);
    }
  }

  // ---------- after Close ----------

  /** The call has not yet asked whether the database is closed. */
  predicate HasNotAsked(p: PC) {
    || p.ClientStart? || p.ClientChecking? || p.CreateStart? || p.CreateLocked? || p.CreateChecking?
    || p.RegisterStart? || p.RegisterChecking? || p.BackupStart? || p.BackupLocked? || p.BackupChecking?
    || p.RestoreStart? || p.RestoreLocked? || p.RestoreChecking?
  }

  lemma ClosedRefuses(s: State, a: Actor, t: State)
    requires Step(s, a, t) && s.closed && HasNotAsked(s.pc[a])
    ensures (HasNotAsked(t.pc[a]) || t.pc[a] == Done) && t.schemas == s.schemas && t.attached == s.attached
  {
    hide MayEnter, SchemaName, IsBackup, Replaced, VersionsMatch, ChangesContents;
  }

  /** Once a database is closed, no call that has not asked before ever gets the connection, the function
      registry or a schema; it comes to nothing. */
  lemma {:induction false} NothingBeginsAfterClose(run: seq<State>, i: nat, j: nat, a: Actor)
    requires IsRun(run) && i <= j < |run| && run[i].closed && a in run[i].pc && HasNotAsked(run[i].pc[a])
    ensures a in run[j].pc && (HasNotAsked(run[j].pc[a]) || run[j].pc[a] == Done)
    ensures !HoldsConnection(run[j].pc[a]) && !HoldsRegistry(run[j].pc[a]) && !HoldsWrite(run[j].pc[a])
    ensures run[j].schemas == run[i].schemas
  {
    hide IsRun, Step, Inv, HasNotAsked, HoldsConnection, HoldsRegistry, HoldsWrite;
    NotAskedHoldsNothing(run[i].pc[a]);
    if i < j {
      NothingBeginsAfterClose(run, i, j - 1, a);
      HistoryIsMonotone(run, i, j - 1);
      var c := StepAt(run, j);
      StepFrame(run[j - 1], c, run[j]);
      NoSchemaAfterClose(run[j - 1], c, run[j]);
      if c == a {
        NotAskedOrDone(run[j - 1], a, run[j]);
      }
      NotAskedHoldsNothing(run[j].pc[a]);
    }
  }

  lemma NotAskedOrDone(s: State, a: Actor, t: State)
    requires Step(s, a, t) && s.closed && a in s.pc && (HasNotAsked(s.pc[a]) || s.pc[a] == Done)
    ensures a in t.pc && (HasNotAsked(t.pc[a]) || t.pc[a] == Done)
  {
    hide MayEnter, SchemaName, IsBackup, Replaced, VersionsMatch, ChangesContents;
    if HasNotAsked(s.pc[a]) {
      ClosedRefuses(s, a, t);
    }
  }

  lemma NoSchemaAfterClose(s: State, c: Actor, t: State)
    requires Inv(s) && Step(s, c, t) && s.closed
    ensures t.schemas == s.schemas
  {
    hide Moves, MayEnter, Exclusion, Topology, Established;
    StepFrame(s, c, t);
    assert Established(s, s.pc[c]);
    StepEffects(s, c, t);
  }

  lemma NotAskedHoldsNothing(p: PC)
    requires HasNotAsked(p) || p == Done
    ensures !HoldsConnection(p) && !HoldsRegistry(p) && !HoldsWrite(p)
  {
  }
}
