/** Running the statements of a script as one transaction. */
module Script {
  import opened Wrappers
  import opened Sessions
  import opened History
  import opened Driver
  import Intercept

  /** A script cut into its statements by the parser, or not cut when it has no separator or does not
      parse. */
  datatype Source = Whole(text: string) | Parts(parts: seq<string>)

  datatype Translation = Translation(run: string -> Option<string>, isBlank: string -> bool)

  // ---------- specification ----------

  function NonBlank(parts: seq<string>, t: Translation): seq<string> {
    if parts == [] then []
    else if t.isBlank(parts[|parts| - 1]) then NonBlank(parts[..|parts| - 1], t)
    else NonBlank(parts[..|parts| - 1], t) + [parts[|parts| - 1]]
  }

  /** These are the positions of the parts that are not blank, from first to last. */
  ghost predicate ArePlaces(places: seq<nat>, parts: seq<string>, t: Translation) {
    && (forall i, j :: 0 <= i < j < |places| ==> places[i] < places[j])
    && (forall i :: 0 <= i < |places| ==> places[i] < |parts| && !t.isBlank(parts[places[i]]))
    && forall k {:trigger k in places} :: 0 <= k < |parts| && !t.isBlank(parts[k]) ==> k in places
  }

  lemma BlankIsNoPlace(before: seq<nat>, parts: seq<string>, part: string, t: Translation)
    requires ArePlaces(before, parts, t) && t.isBlank(part)
    ensures ArePlaces(before, parts + [part], t)
  {
    forall k | 0 <= k < |parts + [part]| && !t.isBlank((parts + [part])[k])
      ensures k in before
    {
      assert (parts + [part])[k] == parts[k];
    }
  }

  lemma NextPlace(before: seq<nat>, parts: seq<string>, part: string, t: Translation)
    requires ArePlaces(before, parts, t) && !t.isBlank(part)
    ensures ArePlaces(before + [|parts|], parts + [part], t)
  {
    var places, all := before + [|parts|], parts + [part];
    forall k | 0 <= k < |all| && !t.isBlank(all[k])
      ensures k in places
    {
      assert places[|before|] == |parts|;
      if k < |parts| {
        assert all[k] == parts[k] && k in before;
      }
    }
  }

  lemma NoPlaces(t: Translation)
    ensures ArePlaces([], [], t)
  {
  }

  /** The parts at these positions. */
  function At(places: seq<nat>, parts: seq<string>): (r: seq<string>)
    ensures |r| == |places|
  {
    seq(|places|, i requires 0 <= i < |places| => if places[i] < |parts| then parts[places[i]] else "")
  }

  lemma AtMoreParts(places: seq<nat>, parts: seq<string>, part: string, t: Translation)
    requires ArePlaces(places, parts, t)
    ensures At(places, parts + [part]) == At(places, parts)
    ensures At(places + [|parts|], parts + [part]) == At(places, parts) + [part]
  {
  }

  /** The statements of a script are its parts that are not blank, in their order. */
  lemma {:induction false} StatementsKeepTheirOrder(parts: seq<string>, t: Translation) returns (places: seq<nat>)
    ensures ArePlaces(places, parts, t) && Statements(Parts(parts), t) == At(places, parts)
  {
    hide ArePlaces, At;
    NoPlaces(t);
    if parts == [] {
      places := [];
    } else {
      var init, part := parts[..|parts| - 1], parts[|parts| - 1];
      assert parts == init + [part];
      places := StatementsKeepTheirOrder(init, t);
      AtMoreParts(places, init, part, t);
      if t.isBlank(part) {
        BlankIsNoPlace(places, init, part, t);
      } else {
        NextPlace(places, init, part, t);
        places := places + [|init|];
      }
    }
  }

  function Statements(source: Source, t: Translation): seq<string> {
    match source
    case Whole(text) => [text]
    case Parts(parts) => NonBlank(parts, t)
  }

  /** There are statements, and each of them has a translation. */
  predicate AllTranslate(statements: seq<string>, t: Translation) {
    statements != [] && forall i :: 0 <= i < |statements| ==> t.run(statements[i]).Some?
  }

  function Translations(statements: seq<string>, t: Translation): seq<string>
    requires AllTranslate(statements, t)
  {
    seq(|statements|, i requires 0 <= i < |statements| => t.run(statements[i]).value)
  }

  function InterceptorError(e: Intercept.Error): Error {
    match e
    case Cancelled => Cancelled
    case Closed => Closed
    case CallbackFailed(_) => InterceptorFailed
  }

  // ---------- the schema ----------

  class Schema {
    const database: Database
    const translation: Translation

    constructor (database: Database, translation: Translation)
      ensures this.database == database && this.translation == translation
    {
      this.database, this.translation := database, translation;
    }

    /** Translates every statement of a script; nothing runs before all of them are translated. */
    method TranslateStatements(source: Source) returns (r: Option<seq<string>>, ghost places: seq<nat>)
      ensures r.Some? <==> AllTranslate(Statements(source, translation), translation)
      ensures r.Some? ==> r.value == Translations(Statements(source, translation), translation)
      ensures source.Whole? ==>
                r == match translation.run(source.text) case Some(one) => Some([one]) case None => None
      ensures source.Parts? ==>
                && (forall i, j :: 0 <= i < j < |places| ==> places[i] < places[j])
                && (forall i :: 0 <= i < |places| ==> places[i] < |source.parts| && !translation.isBlank(source.parts[places[i]]))
                && (forall k {:trigger k in places} :: 0 <= k < |source.parts| && !translation.isBlank(source.parts[k]) ==> k in places)
                && (r.Some? <==> places != []
                                 && forall i :: 0 <= i < |places| ==> translation.run(source.parts[places[i]]).Some?)
                && (r.Some? ==> && |r.value| == |places|
                                && forall i :: 0 <= i < |places| ==>
                                     translation.run(source.parts[places[i]]) == Some(r.value[i]))
    {
      if source.Whole? {
        var translated := translation.run(source.text);
        assert Statements(source, translation)[0] == source.text;
        return if translated.None? then None else Some([translated.value]), [];
      }
      var parts := source.parts;
      var translated: seq<string> := [];
      for i := 0 to |parts|
        invariant |translated| == |NonBlank(parts[..i], translation)|
        invariant forall j :: 0 <= j < |translated| ==>
                    translation.run(NonBlank(parts[..i], translation)[j]) == Some(translated[j])
      {
        assert parts[..i + 1][..i] == parts[..i];
        if !translation.isBlank(parts[i]) {
          var one := translation.run(parts[i]);
          if one.None? {
            PrefixStatement(parts, i, translation);
            places := StatementsKeepTheirOrder(parts, translation);
            assert forall i :: 0 <= i < |places| ==> At(places, parts)[i] == parts[places[i]];
            return None, places;
          }
          translated := translated + [one.value];
        }
      }
      assert parts[..|parts|] == parts;
      places := StatementsKeepTheirOrder(parts, translation);
      assert forall i :: 0 <= i < |places| ==> At(places, parts)[i] == parts[places[i]];
      return if translated == [] then None else Some(translated), places;
    }

    /** Runs a script.  `decision` is what the interceptors decide about it; they may answer for the
        engine.  Nothing runs unless every statement has been translated. */
    method ExecContext(source: Source, decision: Intercept.Decision, hasArguments: bool, connectionFails: bool,
                       commitFails: bool)
      returns (r: Result<int, Error>)
      requires database.Valid()
      modifies database`engine, database`phase, database`events, database`leases
      ensures database.Valid() && database.phase == old(database.phase)
      ensures decision.Handled? ==> r == Ok(decision.result.rowCount)
      ensures decision.Failed? ==>
                r == match decision.error
                     case Cancelled => Err(Cancelled)
                     case Closed => Err(Closed)
                     case CallbackFailed(_) => Err(InterceptorFailed)
      ensures decision.Passed? && !AllTranslate(Statements(source, translation), translation) ==> r == Err(NotTranslated)
      ensures var statements := Statements(source, translation);
              if decision.Passed? && AllTranslate(statements, translation) then
                Executed(Translations(statements, translation), hasArguments, connectionFails, commitFails,
                         old(database.phase), old(database.engine), old(Committed(database.events)), r)
              else
                && (decision.Passed? ==> r.Err?)
                && database.events == old(database.events) && database.engine == old(database.engine)
    {
      if decision.Handled? {
        return Ok(decision.result.rowCount);
      }
      if decision.Failed? {
        return Err(InterceptorError(decision.error));
      }
      var translated, _ := TranslateStatements(source);
      if translated.None? {
        return Err(NotTranslated);
      }
      r := ExecTranslated(translated.value, hasArguments, connectionFails, commitFails);
    }

    /** What translated statements have done to the engine.  A single one ran as it is.  Several ran in a
        transaction, if one could be opened; they count as one unit of the history, or as none. */
    ghost predicate Executed(
      translated: seq<string>, hasArguments: bool, connectionFails: bool, commitFails: bool, phase: Phase,
      before: Session<Store>, committed: seq<seq<string>>, r: Result<int, Error>)
      requires translated != []
      reads this, database
    {
      var sql, available := database.sql, phase == Free && !connectionFails;
      if |translated| == 1 && available then
        && database.engine == Execute(sql, translated[0], before).session
        && r == (match Execute(sql, translated[0], before).result
                 case Some(rowCount) => Ok(rowCount)
                 case None => Err(EngineFailed))
        && Committed(database.events) == committed + [translated]
      else if |translated| > 1 && available && !hasArguments && before.undo.None? then
        && (r.Err? <==> ScriptFails(sql, translated, before.data, !commitFails))
        && (forall n :: r == Ok(n) ==> RunScript(sql, translated, Opened(before.data)).result == Some(n))
        && database.engine == AfterScript(sql, translated, before.data, !commitFails)
        && Committed(database.events) == committed + if r.Ok? then [translated] else []
      else
        && r == Err(if |translated| > 1 && hasArguments then Unsupported else EngineFailed)
        && database.engine == before && Committed(database.events) == committed
    }

    /** Runs translated statements: a single one on its own, several in one transaction that commits all
        of them or none. */
    method ExecTranslated(translated: seq<string>, hasArguments: bool, connectionFails: bool, commitFails: bool)
      returns (r: Result<int, Error>)
      requires translated != [] && database.Valid()
      modifies database`engine, database`phase, database`events, database`leases
      ensures database.Valid() && database.phase == old(database.phase)
      ensures Executed(translated, hasArguments, connectionFails, commitFails,
                       old(database.phase), old(database.engine), old(Committed(database.events)), r)
    {
      hide PhaseOf, Replay, Committed, Execute, RunScript;
      var available := database.phase == Free && !connectionFails;
      if |translated| == 1 {
        if !available {
          return Err(EngineFailed);
        }
        SingleContributes(database.events, database.leases, translated[0]);
        r := ResultOf(Execute(database.sql, translated[0], database.engine).result);
        database.RunAlone(translated[0]);
        assert translated == [translated[0]];
        return;
      }
      if hasArguments {
        return Err(Unsupported);
      }
      if !available {
        return Err(EngineFailed);
      }
      r := RunInTransaction(translated, commitFails);
      forall e | e in old(database.events)
        ensures e in database.events
      {
        var i :| 0 <= i < |old(database.events)| && old(database.events)[i] == e;
        assert database.events[i] == e;
      }
    }

    /** Opens a transaction, runs the statements in it, and commits it if none of them failed. */
    method RunInTransaction(translated: seq<string>, commitFails: bool) returns (r: Result<int, Error>)
      requires translated != [] && database.Valid() && database.phase == Free
      modifies database`engine, database`phase, database`events, database`leases
      ensures database.FollowsEvents() && database.phase == Free && database.leases == old(database.leases) + 1
      ensures old(database.events) <= database.events
      ensures old(database.engine).undo.Some? ==>
                && r == Err(EngineFailed) && database.engine == old(database.engine)
                && Committed(database.events) == old(Committed(database.events))
      ensures old(database.engine).undo.None? ==>
                var sql, store := database.sql, old(database.engine.data);
                && (r.Err? <==> ScriptFails(sql, translated, store, !commitFails))
                && (r.Ok? ==> r == ResultOf(RunScript(sql, translated, Opened(store)).result))
                && database.engine == AfterScript(sql, translated, store, !commitFails)
                && Committed(database.events) == old(Committed(database.events)) + if r.Ok? then [translated] else []
    {
      hide PhaseOf, Replay, RunScript, Committed, Execute;
      ghost var before, store := database.events, database.engine.data;
      var begun, lease := database.Open(false);
      if !begun {
        NothingContributed(before, lease);
        return Err(EngineFailed);
      }
      ghost var n;
      r, n := RunAll(lease, translated);
      assert r.Ok? ==> translated[..n] == translated;
      var end := if r.Err? then Rollback(lease)
                 else if commitFails || database.engine.undo.None? then CommitFails(lease) else Commit(lease);
      if end.CommitFails? {
        r := Err(EngineFailed);
      }
      TransactionContributes(before, lease, translated[..n], end);
      database.End(lease, end);
      assert database.events == before + TransactionEvents(lease, translated[..n], end);
    }

    /** Runs statements in an open transaction up to the first that fails. */
    method RunAll(lease: nat, translated: seq<string>) returns (r: Result<int, Error>, ghost n: nat)
      requires translated != [] && database.FollowsEvents() && database.phase == InTransaction(lease)
      modifies database`engine, database`phase, database`events, database`leases
      ensures database.FollowsEvents() && database.phase == InTransaction(lease) && database.leases == old(database.leases)
      ensures var ran := RunScript(database.sql, translated, old(database.engine));
              r == ResultOf(ran.result) && database.engine == ran.session
      ensures n <= |translated| && (r.Ok? ==> n == |translated|)
      ensures database.events == old(database.events) + StatementEvents(lease, translated[..n])
    {
      ghost var before := database.engine;
      r, n := Ok(0), |translated|;
      for i := 0 to |translated|
        invariant database.FollowsEvents() && database.phase == InTransaction(lease)
        invariant database.leases == old(database.leases)
        invariant database.engine == RunScript(database.sql, translated[..i], before).session
        invariant database.events == old(database.events) + StatementEvents(lease, translated[..i])
        invariant r.Ok? && r == ResultOf(RunScript(database.sql, translated[..i], before).result)
      {
        hide PhaseOf, Replay, Database.FollowsEvents, Execute;
        NextStatement(lease, translated, i);
        r := ResultOf(Execute(database.sql, translated[i], database.engine).result);
        database.Record(Statement(lease, translated[i]));
        if r.Err? {
          FailureIsFinal(database.sql, translated, i + 1, before);
          return r, i + 1;
        }
      }
      assert translated[..|translated|] == translated;
    }
  }

  lemma NothingContributed(events: seq<Event>, l: nat)
    requires PhaseOf(events) == Some(Free) && Pin(l) !in events
    ensures Committed(events + [Pin(l), Event.Release(l)]) == Committed(events)
  {
    var all := events + [Pin(l), Event.Release(l)];
    assert all[..|all| - 1] == events + [Pin(l)];
    assert (events + [Pin(l)])[..|events|] == events;
  }

  /** A statement on its own is one unit of the history. */
  lemma SingleContributes(events: seq<Event>, l: nat, text: string)
    requires PhaseOf(events) == Some(Free) && Pin(l) !in events
    ensures Committed(events + SingleStatement(l, text)) == Committed(events) + [[text]]
  {
    var pinned, ended := events + [Pin(l)], events + [Pin(l), Statement(l, text)];
    var all := events + SingleStatement(l, text);
    assert pinned[..|pinned| - 1] == events;
    assert PhaseOf(pinned) == Some(Pinned(l)) && Committed(pinned) == Committed(events);
    assert ended[..|ended| - 1] == pinned;
    assert Committed(ended) == Committed(pinned) + [[text]];
    assert all[..|all| - 1] == ended;
  }

  lemma NextStatement(lease: nat, translated: seq<string>, i: nat)
    requires i < |translated|
    ensures translated[..i + 1][..i] == translated[..i] && translated[..i + 1][i] == translated[i]
    ensures StatementEvents(lease, translated[..i + 1])
            == StatementEvents(lease, translated[..i]) + [Statement(lease, translated[i])]
  {
  }

  lemma {:induction false} FailureIsFinal(sql: Engine, translated: seq<string>, n: nat, s: Session<Store>)
    requires n <= |translated| && RunScript(sql, translated[..n], s).result.None?
    ensures RunScript(sql, translated, s) == RunScript(sql, translated[..n], s)
    decreases |translated| - n
  {
    if n < |translated| {
      assert translated[..n + 1][..n] == translated[..n];
      FailureIsFinal(sql, translated, n + 1, s);
    } else {
      assert translated[..n] == translated;
    }
  }

  /** A non-blank part that precedes the rest is one of the statements. */
  lemma {:induction false} PrefixStatement(parts: seq<string>, i: nat, t: Translation)
    requires i < |parts| && !t.isBlank(parts[i])
    ensures parts[i] in NonBlank(parts, t)
  {
    if i < |parts| - 1 {
      PrefixStatement(parts[..|parts| - 1], i, t);
    }
  }
}
