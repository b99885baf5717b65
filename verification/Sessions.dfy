/** One engine connection and the transaction it may be in, with the statements that control it.

    A session is generic in what the engine stores, so that the same transitions also run over marks
    that say whether anything was written at all. */
module Sessions {
  import opened Wrappers
  import opened Text

  /** What a statement is to the engine: a plain one, or one that controls the transaction. */
  datatype Command =
    | Plain
    | BeginWork
    | CommitWork
    | RollbackWork
    | Savepoint(name: string)
    | ReleasePoint(name: string)
    | RollbackTo(name: string)

  datatype Mark<D> = Mark(name: string, data: D)

  /** `undo` is what an open transaction returns to, `marks` are its savepoints, and `nested` says that
      it was opened by the first of them. */
  datatype Session<D> = Session(data: D, undo: Option<D>, marks: seq<Mark<D>>, nested: bool)

  function Idle<D>(data: D): Session<D> {
    Session(data, None, [], false)
  }

  function Opened<D>(data: D): Session<D> {
    Session(data, Some(data), [], false)
  }

  /** What is stored if the transaction does not go on. */
  function Durable<D>(s: Session<D>): D {
    if s.undo.Some? then s.undo.value else s.data
  }

  function Discarded<D>(s: Session<D>): Session<D> {
    if s.undo.Some? then Idle(s.undo.value) else s
  }

  /** The position of the newest savepoint of this name, in any ASCII case, plus one; 0 if there is none. */
  function Newest<D>(marks: seq<Mark<D>>, name: string): (k: nat)
    ensures k <= |marks|
  {
    if marks == [] then 0
    else if SqliteFold(marks[|marks| - 1].name) == SqliteFold(name) then |marks|
    else Newest(marks[..|marks| - 1], name)
  }

  /** A controlling statement; none if it fails, which changes nothing. */
  function Control<D>(s: Session<D>, c: Command): Option<Session<D>> {
    match c
    case Plain => None
    case BeginWork => if s.undo.Some? then None else Some(s.(undo := Some(s.data)))
    case CommitWork => if s.undo.Some? then Some(Idle(s.data)) else None
    case RollbackWork => if s.undo.Some? then Some(Idle(s.undo.value)) else None
    case Savepoint(name) =>
      Some(Session(s.data, Some(Durable(s)), s.marks + [Mark(name, s.data)], s.nested || s.undo.None?))
    case ReleasePoint(name) =>
      var k := Newest(s.marks, name);
      if k == 0 then None
      else if k == 1 && s.nested then Some(Idle(s.data))
      else Some(s.(marks := s.marks[..k - 1]))
    case RollbackTo(name) =>
      var k := Newest(s.marks, name);
      if k == 0 then None else Some(s.(data := s.marks[k - 1].data, marks := s.marks[..k]))
  }

  // ---------- statements ----------

  /** A statement fails without effect or leaves new data. */
  datatype Effect<D> = Changed(data: D, rowCount: int) | Failed(code: nat)

  /** The engine's SQL: what plain statements do, which ones control transactions, and whether a
      transaction whose commit by the adapter is refused is discarded or stays open. */
  datatype Sql<!D> = Sql(run: (string, D) -> Effect<D>, kind: string -> Command, discards: bool)

  /** After a commit by the adapter that was refused. */
  function Refused<D>(sql: Sql<D>, s: Session<D>): Session<D> {
    if sql.discards then Discarded(s) else s
  }

  /** The session after some statements, and the row count of the last one; none if it failed. */
  datatype Ran<D> = Ran(session: Session<D>, result: Option<int>)

  function Execute<D>(sql: Sql<D>, text: string, s: Session<D>): Ran<D> {
    if sql.kind(text).Plain? then
      match sql.run(text, s.data)
      case Changed(data, rowCount) => Ran(s.(data := data), Some(rowCount))
      case Failed(_) => Ran(s, None)
    else
      match Control(s, sql.kind(text))
      case Some(after) => Ran(after, Some(0))
      case None => Ran(s, None)
  }

  /** Statement after statement, whether they fail or not. */
  function RunSession<D>(sql: Sql<D>, texts: seq<string>, s: Session<D>): Session<D> {
    if texts == [] then s
    else Execute(sql, texts[|texts| - 1], RunSession(sql, texts[..|texts| - 1], s)).session
  }

  /** Statement after statement up to the first that fails. */
  function RunScript<D>(sql: Sql<D>, texts: seq<string>, s: Session<D>): Ran<D> {
    if texts == [] then Ran(s, Some(0))
    else
      var r := RunScript(sql, texts[..|texts| - 1], s);
      if r.result.None? then r else Execute(sql, texts[|texts| - 1], r.session)
  }

  // ---------- two engines in step ----------

  /** The sessions have the same transactions and savepoints, and related data in every place. */
  ghost predicate Similar<D(!new), E(!new)>(s: Session<D>, t: Session<E>, rel: (D, E) -> bool) {
    && rel(s.data, t.data)
    && (s.undo.Some? <==> t.undo.Some?)
    && (s.undo.Some? ==> rel(s.undo.value, t.undo.value))
    && s.nested == t.nested && |s.marks| == |t.marks|
    && forall i :: 0 <= i < |s.marks| ==> s.marks[i].name == t.marks[i].name && rel(s.marks[i].data, t.marks[i].data)
  }

  lemma {:induction false} SimilarNewest<D, E>(m: seq<Mark<D>>, n: seq<Mark<E>>, name: string)
    requires |m| == |n| && forall i :: 0 <= i < |m| ==> m[i].name == n[i].name
    ensures Newest(m, name) == Newest(n, name)
  {
    if m != [] {
      SimilarNewest(m[..|m| - 1], n[..|n| - 1], name);
    }
  }

  lemma SimilarControl<D(!new), E(!new)>(s: Session<D>, t: Session<E>, c: Command, rel: (D, E) -> bool)
    requires Similar(s, t, rel)
    ensures Control(s, c).Some? <==> Control(t, c).Some?
    ensures Control(s, c).Some? ==> Similar(Control(s, c).value, Control(t, c).value, rel)
  {
    match c {
      case ReleasePoint(name) =>
        SimilarNewest(s.marks, t.marks, name);
        hide Newest;
      case RollbackTo(name) =>
        SimilarNewest(s.marks, t.marks, name);
        hide Newest;
      case _ =>
    }
  }

  /** The data stay related, whatever a plain statement does to it on either side. */
  ghost predicate KeepsRelation<D(!new), E(!new)>(sql: Sql<D>, other: Sql<E>, rel: (D, E) -> bool) {
    && sql.kind == other.kind
    && forall text, d, e :: rel(d, e) && sql.kind(text).Plain? ==>
         rel(Left(sql, text, d), Left(other, text, e))
  }

  function Left<D>(sql: Sql<D>, text: string, data: D): D {
    match sql.run(text, data)
    case Changed(after, _) => after
    case Failed(_) => data
  }

  lemma SimilarExecute<D(!new), E(!new)>(
    sql: Sql<D>, other: Sql<E>, text: string, s: Session<D>, t: Session<E>, rel: (D, E) -> bool)
    requires KeepsRelation(sql, other, rel) && Similar(s, t, rel)
    ensures Similar(Execute(sql, text, s).session, Execute(other, text, t).session, rel)
    ensures !sql.kind(text).Plain? ==> (Execute(sql, text, s).result.None? <==> Execute(other, text, t).result.None?)
  {
    if sql.kind(text).Plain? {
      assert Execute(sql, text, s).session == s.(data := Left(sql, text, s.data));
      assert Execute(other, text, t).session == t.(data := Left(other, text, t.data));
    } else {
      SimilarControl(s, t, sql.kind(text), rel);
    }
  }

  lemma {:induction false} SimilarSession<D(!new), E(!new)>(
    sql: Sql<D>, other: Sql<E>, texts: seq<string>, s: Session<D>, t: Session<E>, rel: (D, E) -> bool)
    requires KeepsRelation(sql, other, rel) && Similar(s, t, rel)
    ensures Similar(RunSession(sql, texts, s), RunSession(other, texts, t), rel)
  {
    if texts != [] {
      var init, last := texts[..|texts| - 1], texts[|texts| - 1];
      SimilarSession(sql, other, init, s, t, rel);
      SimilarExecute(sql, other, last, RunSession(sql, init, s), RunSession(other, init, t), rel);
    }
  }

  // ---------- what escapes a transaction ----------

  /** The engine that only notes that a plain statement ran. */
  function Noting(kind: string -> Command): Sql<bool> {
    Sql((text, noted) => Changed(true, 0), kind, true)
  }

  /** Something is written for good while the statements run, although the transaction they were
      started in is then rolled back. */
  predicate Escapes(kind: string -> Command, texts: seq<string>) {
    Durable(RunSession(Noting(kind), texts, Opened(false)))
  }

  /** The same when the statements stop at the first that the engine refuses as out of place. */
  predicate ScriptEscapes(kind: string -> Command, texts: seq<string>) {
    Durable(RunScript(Noting(kind), texts, Opened(false)).session)
  }

  const WRITTEN: map<string, seq<string>> := map["" := []]

  /** The engine on which every plain statement leaves the same new store. */
  function Writing(kind: string -> Command, discards: bool): Sql<map<string, seq<string>>> {
    Sql((text, store) => Changed(WRITTEN, 0), kind, discards)
  }

  /** Nothing noted means nothing changed. */
  ghost function Unchanged<D(!new)>(initial: D): (D, bool) -> bool {
    (d, noted) => !noted ==> d == initial
  }

  /** What is noted is what is written. */
  ghost function Exactly(): (map<string, seq<string>>, bool) -> bool {
    (d, noted) => d == if noted then WRITTEN else map[]
  }

  lemma NotingIsSound<D(!new)>(sql: Sql<D>, initial: D)
    ensures KeepsRelation(sql, Noting(sql.kind), Unchanged(initial))
    ensures Similar(Opened(initial), Opened(false), Unchanged(initial))
  {
    var rel, other := Unchanged(initial), Noting(sql.kind);
    forall text, d, e | rel(d, e) && sql.kind(text).Plain?
      ensures rel(Left(sql, text, d), Left(other, text, e))
    {
      assert Left(other, text, e);
    }
  }

  lemma NotingIsExact(kind: string -> Command, discards: bool)
    ensures KeepsRelation(Writing(kind, discards), Noting(kind), Exactly())
    ensures Similar(Opened(map[]), Opened(false), Exactly())
  {
  }

  lemma SimilarDurable<D(!new), E(!new)>(s: Session<D>, t: Session<E>, rel: (D, E) -> bool)
    requires Similar(s, t, rel)
    ensures rel(Durable(s), Durable(t))
  {
  }

  /** A transaction that is rolled back leaves no trace under any engine exactly when its statements
      let nothing escape. */
  lemma RollbackUndoesIffNothingEscapes(kind: string -> Command, discards: bool, texts: seq<string>)
    ensures (forall run: (string, map<string, seq<string>>) -> Effect<map<string, seq<string>>>, store ::
               Durable(RunSession(Sql(run, kind, discards), texts, Opened(store))) == store)
            <==> !Escapes(kind, texts)
  {
    if Escapes(kind, texts) {
      var writing := Writing(kind, discards);
      NotingIsExact(kind, discards);
      SimilarSession(writing, Noting(kind), texts, Opened(map[]), Opened(false), Exactly());
      SimilarDurable(RunSession(writing, texts, Opened(map[])), RunSession(Noting(kind), texts, Opened(false)), Exactly());
      assert Durable(RunSession(Sql(writing.run, kind, discards), texts, Opened(map[]))) == WRITTEN;
      assert "" in WRITTEN;
    } else {
      forall run: (string, map<string, seq<string>>) -> Effect<map<string, seq<string>>>, store
        ensures Durable(RunSession(Sql(run, kind, discards), texts, Opened(store))) == store
      {
        var sql := Sql(run, kind, discards);
        NotingIsSound(sql, store);
        SimilarSession(sql, Noting(kind), texts, Opened(store), Opened(false), Unchanged(store));
        SimilarDurable(RunSession(sql, texts, Opened(store)), RunSession(Noting(kind), texts, Opened(false)), Unchanged(store));
      }
    }
  }

  // ---------- scripts ----------

  /** A script runs in a transaction of its own, which is then committed; it fails if a statement
      fails, if a statement has ended the transaction, or if the commit is not accepted. */
  predicate ScriptFails<D>(sql: Sql<D>, texts: seq<string>, store: D, accepted: bool) {
    var r := RunScript(sql, texts, Opened(store));
    r.result.None? || r.session.undo.None? || !accepted
  }

  /** The session a script leaves behind. */
  function AfterScript<D>(sql: Sql<D>, texts: seq<string>, store: D, accepted: bool): Session<D> {
    var r := RunScript(sql, texts, Opened(store));
    if r.result.None? then Discarded(r.session)
    else if ScriptFails(sql, texts, store, accepted) then Refused(sql, r.session)
    else Idle(r.session.data)
  }

  /** Whatever has been written for good is still there now and in every savepoint. */
  predicate WellNoted(s: Session<bool>) {
    && IsClean(s)
    && (Durable(s) ==> s.data && forall i :: 0 <= i < |s.marks| ==> s.marks[i].data)
  }

  lemma NotesStay(kind: string -> Command, text: string, s: Session<bool>)
    requires WellNoted(s)
    ensures var t := Execute(Noting(kind), text, s).session; WellNoted(t) && (Durable(s) ==> Durable(t))
  {
  }

  lemma {:induction false} NotesOfScript(kind: string -> Command, texts: seq<string>)
    ensures WellNoted(RunScript(Noting(kind), texts, Opened(false)).session)
  {
    if texts != [] {
      NotesOfScript(kind, texts[..|texts| - 1]);
      NotesStay(kind, texts[|texts| - 1], RunScript(Noting(kind), texts[..|texts| - 1], Opened(false)).session);
    }
  }

  /** A script may stop earlier than its notes, never later; what it leaves was noted. */
  lemma {:induction false} ScriptIsNoted<D(!new)>(sql: Sql<D>, texts: seq<string>, store: D)
    ensures var r, noted := RunScript(sql, texts, Opened(store)), RunScript(Noting(sql.kind), texts, Opened(false));
            && (r.result.Some? ==> noted.result.Some? && Similar(r.session, noted.session, Unchanged(store)))
            && (!Durable(noted.session) ==> Durable(r.session) == store)
  {
    var rel, other := Unchanged(store), Noting(sql.kind);
    NotingIsSound(sql, store);
    if texts != [] {
      var init, last := texts[..|texts| - 1], texts[|texts| - 1];
      ScriptIsNoted(sql, init, store);
      NotesOfScript(sql.kind, init);
      var r, noted := RunScript(sql, init, Opened(store)), RunScript(other, init, Opened(false));
      NotesStay(sql.kind, last, noted.session);
      if r.result.Some? {
        SimilarExecute(sql, other, last, r.session, noted.session, rel);
        SimilarDurable(Execute(sql, last, r.session).session, Execute(other, last, noted.session).session, rel);
      }
    }
  }

  lemma {:induction false} WrittenScript(kind: string -> Command, discards: bool, texts: seq<string>)
    ensures var r := RunScript(Writing(kind, discards), texts, Opened(map[]));
            var noted := RunScript(Noting(kind), texts, Opened(false));
            (r.result.None? <==> noted.result.None?) && Similar(r.session, noted.session, Exactly())
  {
    NotingIsExact(kind, discards);
    if texts != [] {
      var init, last := texts[..|texts| - 1], texts[|texts| - 1];
      WrittenScript(kind, discards, init);
      SimilarExecute(Writing(kind, discards), Noting(kind), last,
                     RunScript(Writing(kind, discards), init, Opened(map[])).session,
                     RunScript(Noting(kind), init, Opened(false)).session, Exactly());
    }
  }

  /** The script can come to its end with its transaction still open, to be committed by the adapter. */
  predicate ReachesCommit(kind: string -> Command, texts: seq<string>) {
    var noted := RunScript(Noting(kind), texts, Opened(false));
    noted.result.Some? && noted.session.undo.Some?
  }

  /** A script that fails leaves the store as it was and the engine in no transaction, whatever plain
      statements do, exactly when its statements let nothing escape, and either the engine discards a
      transaction whose commit it refuses or the script never comes to that commit. */
  lemma ScriptIsAtomicIffNothingEscapes(kind: string -> Command, discards: bool, texts: seq<string>)
    ensures (forall run: (string, map<string, seq<string>>) -> Effect<map<string, seq<string>>>, store, accepted ::
               ScriptFails(Sql(run, kind, discards), texts, store, accepted)
               ==> AfterScript(Sql(run, kind, discards), texts, store, accepted) == Idle(store))
            <==> !ScriptEscapes(kind, texts) && (discards || !ReachesCommit(kind, texts))
  {
    if !ScriptEscapes(kind, texts) && (discards || !ReachesCommit(kind, texts)) {
      forall run: (string, map<string, seq<string>>) -> Effect<map<string, seq<string>>>, store, accepted
        ensures ScriptFails(Sql(run, kind, discards), texts, store, accepted)
                ==> AfterScript(Sql(run, kind, discards), texts, store, accepted) == Idle(store)
      {
        ScriptIsNoted(Sql(run, kind, discards), texts, store);
        ScriptIsClean(Sql(run, kind, discards), texts, store);
      }
    } else {
      var writing := Writing(kind, discards);
      var r := RunScript(writing, texts, Opened(map[]));
      WrittenScript(kind, discards, texts);
      SimilarDurable(r.session, RunScript(Noting(kind), texts, Opened(false)).session, Exactly());
      assert "" in WRITTEN;
      assert ScriptFails(Sql(writing.run, kind, discards), texts, map[], false);
      assert AfterScript(Sql(writing.run, kind, discards), texts, map[], false) != Idle(map[]);
    }
  }

  /** Outside a transaction there are no savepoints. */
  predicate IsClean<D>(s: Session<D>) {
    s.undo.None? ==> s.marks == [] && !s.nested
  }

  lemma ExecuteKeepsClean<D>(sql: Sql<D>, text: string, s: Session<D>)
    requires IsClean(s)
    ensures IsClean(Execute(sql, text, s).session)
  {
  }

  lemma {:induction false} ScriptIsClean<D>(sql: Sql<D>, texts: seq<string>, store: D)
    ensures IsClean(RunScript(sql, texts, Opened(store)).session)
  {
    if texts != [] {
      ScriptIsClean(sql, texts[..|texts| - 1], store);
    }
  }

  // ---------- statements that cannot escape ----------

  predicate EndsWork(c: Command) {
    c.CommitWork? || c.RollbackWork?
  }

  /** Only a commit or a rollback among its own statements can let something escape a transaction that
      a BEGIN has opened. */
  lemma {:induction false} NothingEscapesWithoutEnd(kind: string -> Command, texts: seq<string>)
    requires forall x :: x in texts ==> !EndsWork(kind(x))
    ensures !Escapes(kind, texts) && !ScriptEscapes(kind, texts)
  {
    StaysOpen(Noting(kind), texts, false);
    ScriptStaysOpen(Noting(kind), texts, false);
  }

  /** The transaction that was opened on these data is still open. */
  predicate IsOpen<D(==)>(s: Session<D>, data: D) {
    s.undo == Some(data) && !s.nested
  }

  lemma {:induction false} StaysOpen<D>(sql: Sql<D>, texts: seq<string>, data: D)
    requires forall x :: x in texts ==> !EndsWork(sql.kind(x))
    ensures IsOpen(RunSession(sql, texts, Opened(data)), data)
  {
    if texts != [] {
      StaysOpen(sql, texts[..|texts| - 1], data);
    }
  }

  lemma {:induction false} ScriptStaysOpen<D>(sql: Sql<D>, texts: seq<string>, data: D)
    requires forall x :: x in texts ==> !EndsWork(sql.kind(x))
    ensures IsOpen(RunScript(sql, texts, Opened(data)).session, data)
  {
    if texts != [] {
      ScriptStaysOpen(sql, texts[..|texts| - 1], data);
    }
  }

  // ---------- the closed form ----------

  /** How many plain statements stand at the beginning. */
  function Lead(kind: string -> Command, texts: seq<string>): (n: nat)
    ensures n <= |texts| && (n < |texts| ==> !kind(texts[n]).Plain?)
    ensures forall i :: 0 <= i < n ==> kind(texts[i]).Plain?
  {
    if texts == [] || !kind(texts[0]).Plain? then 0 else 1 + Lead(kind, texts[1..])
  }

  lemma {:induction false} RunAppended<D>(sql: Sql<D>, a: seq<string>, b: seq<string>, s: Session<D>)
    ensures RunScript(sql, a + b, s)
            == if RunScript(sql, a, s).result.None? then RunScript(sql, a, s)
               else if b == [] then RunScript(sql, a, s)
               else RunScript(sql, b, RunScript(sql, a, s).session)
  {
    if b == [] {
      assert a + b == a;
    } else {
      RunAppended(sql, a, b[..|b| - 1], s);
      assert (a + b)[..|a + b| - 1] == a + b[..|b| - 1];
    }
  }

  lemma {:induction false} PlainIsNoted(kind: string -> Command, texts: seq<string>, s: Session<bool>)
    requires forall x :: x in texts ==> kind(x).Plain?
    ensures RunScript(Noting(kind), texts, s) == Ran(s.(data := s.data || texts != []), Some(0))
  {
    if texts != [] {
      PlainIsNoted(kind, texts[..|texts| - 1], s);
    }
  }

  /** Outside a transaction only plain statements get through, up to the first commit or rollback. */
  lemma IdleNotesItsLead(kind: string -> Command, texts: seq<string>, noted: bool)
    requires forall x :: x in texts ==> kind(x).Plain? || EndsWork(kind(x))
    ensures RunScript(Noting(kind), texts, Idle(noted)).session == Idle(noted || Lead(kind, texts) > 0)
  {
    var n := Lead(kind, texts);
    PlainIsNoted(kind, texts[..n], Idle(noted));
    if n == |texts| {
      assert texts[..n] == texts;
    } else {
      StopsAt(kind, texts, n, Idle(noted));
    }
  }

  /** Plain statements, then a controlling one. */
  lemma StopsAt(kind: string -> Command, texts: seq<string>, n: nat, s: Session<bool>)
    requires n < |texts| && forall i :: 0 <= i < n ==> kind(texts[i]).Plain?
    ensures var one := Execute(Noting(kind), texts[n], s.(data := s.data || n > 0));
            RunScript(Noting(kind), texts, s)
            == if one.result.None? || n + 1 == |texts| then one else RunScript(Noting(kind), texts[n + 1..], one.session)
  {
    PlainIsNoted(kind, texts[..n], s);
    assert texts[..n + 1][..n] == texts[..n];
    RunAppended(Noting(kind), texts[..n + 1], texts[n + 1..], s);
    assert texts[..n + 1] + texts[n + 1..] == texts;
  }

  /** When the only controlling statements of a script are commits and rollbacks, something escapes
      exactly if a plain statement stands between the first of them and the next, or before the first
      if that is a commit. */
  lemma ScriptEscapesIff(kind: string -> Command, texts: seq<string>)
    requires forall x :: x in texts ==> kind(x).Plain? || EndsWork(kind(x))
    ensures var n := Lead(kind, texts);
            ScriptEscapes(kind, texts)
            <==> n < |texts| && ((kind(texts[n]).CommitWork? && n > 0) || Lead(kind, texts[n + 1..]) > 0)
  {
    var n := Lead(kind, texts);
    if n == |texts| {
      PlainIsNoted(kind, texts, Opened(false));
    } else {
      assert texts[n] in texts;
      StopsAt(kind, texts, n, Opened(false));
      IdleNotesItsLead(kind, texts[n + 1..], kind(texts[n]).CommitWork? && n > 0);
    }
  }

  // ---------- plain scripts, and one that is not ----------

  /** What plain statements leave of some data, one after the other. */
  function Fold<D>(sql: Sql<D>, texts: seq<string>, data: D): D {
    if texts == [] then data else Left(sql, texts[|texts| - 1], Fold(sql, texts[..|texts| - 1], data))
  }

  /** A script of plain statements that does not fail leaves the fold of all of them. */
  lemma {:induction false} ScriptIsTheFold<D>(sql: Sql<D>, texts: seq<string>, data: D)
    requires forall x :: x in texts ==> sql.kind(x).Plain?
    requires RunScript(sql, texts, Opened(data)).result.Some?
    ensures RunScript(sql, texts, Opened(data)).session == Opened(data).(data := Fold(sql, texts, data))
  {
    if texts != [] {
      ScriptIsTheFold(sql, texts[..|texts| - 1], data);
    }
  }

  /** A row that can be inserted once. */
  function InsertOnce(text: string, store: map<string, seq<string>>): Effect<map<string, seq<string>>> {
    if store == map[] then Changed(WRITTEN, 1) else Failed(0)
  }

  /** A script that inserts the row, commits and inserts it again fails and leaves it behind: the commit
      has ended the script's transaction, and nothing is left for the rollback to undo. */
  lemma CommittedRowOutlivesTheFailure(kind: string -> Command, discards: bool, insert: string, commit: string)
    requires kind(insert).Plain? && kind(commit).CommitWork?
    ensures var sql, texts := Sql(InsertOnce, kind, discards), [insert, commit, insert];
            && ScriptFails(sql, texts, map[], true) && AfterScript(sql, texts, map[], true) == Idle(WRITTEN)
            && WRITTEN != map[] && ScriptEscapes(kind, texts)
  {
    var texts := [insert, commit, insert];
    assert texts[..2] == [insert, commit] && texts[..2][..1] == [insert] && [insert][..0] == [];
    var sql, noting := Sql(InsertOnce, kind, discards), Noting(kind);
    assert "" in WRITTEN;
    assert RunScript(sql, [insert], Opened(map[])) == Ran(Opened(map[]).(data := WRITTEN), Some(1));
    assert RunScript(sql, [insert, commit], Opened(map[])) == Ran(Idle(WRITTEN), Some(0));
    assert RunScript(noting, [insert], Opened(false)).session == Opened(false).(data := true);
    assert RunScript(noting, [insert, commit], Opened(false)).session == Idle(true);
  }
}
