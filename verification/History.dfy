/** The engine's only connection as a trace of events, and why its history is serial. */
module History {
  import opened Wrappers
  import opened Sessions

  /** What the engine stores: rows by table. */
  type Store = map<string, seq<string>>

  type Engine = Sql<Store>

  /** A lease numbers one acquisition of the connection.  Begin, Commit, CommitFails and Rollback are
      what the adapter does, not statements with such a text.  A commit that fails leaves
      behind what the engine leaves behind of it. */
  datatype Event =
    | Pin(lease: nat)
    | Begin(lease: nat)
    | Statement(lease: nat, text: string)
    | Commit(lease: nat)
    | CommitFails(lease: nat)
    | Rollback(lease: nat)
    | Release(lease: nat)

  /** Who has the connection and what it may do next. */
  datatype Phase = Free | Pinned(lease: nat) | InTransaction(lease: nat) | Ended(lease: nat)

  // ---------- what the engine does ----------

  function Apply(sql: Engine, s: Session<Store>, e: Event): Session<Store> {
    match e
    case Begin(_) => if s.undo.Some? then s else s.(undo := Some(s.data))
    case Statement(_, text) => Execute(sql, text, s).session
    case Commit(_) => if s.undo.Some? then Idle(s.data) else s
    case CommitFails(_) => Refused(sql, s)
    case Rollback(_) => Discarded(s)
    case _ => s
  }

  lemma ApplyKeepsClean(sql: Engine, s: Session<Store>, e: Event)
    requires IsClean(s)
    ensures IsClean(Apply(sql, s, e))
  {
    hide Execute;
    if e.Statement? {
      ExecuteKeepsClean(sql, e.text, s);
    }
  }

  function Replay(sql: Engine, initial: Store, events: seq<Event>): Session<Store> {
    if events == [] then Idle(initial)
    else Apply(sql, Replay(sql, initial, events[..|events| - 1]), events[|events| - 1])
  }

  // ---------- the protocol ----------

  function NextPhase(p: Phase, e: Event): Option<Phase> {
    match (p, e)
    case (Free, Pin(l)) => Some(Pinned(l))
    case (Pinned(l), Begin(m)) => if l == m then Some(InTransaction(l)) else None
    case (Pinned(l), Statement(m, _)) => if l == m then Some(Ended(l)) else None
    case (Pinned(l), Release(m)) => if l == m then Some(Free) else None
    case (InTransaction(l), Statement(m, _)) => if l == m then Some(p) else None
    case (InTransaction(l), Commit(m)) => if l == m then Some(Ended(l)) else None
    case (InTransaction(l), CommitFails(m)) => if l == m then Some(Ended(l)) else None
    case (InTransaction(l), Rollback(m)) => if l == m then Some(Ended(l)) else None
    case (Ended(l), Release(m)) => if l == m then Some(Free) else None
    case _ => None
  }

  /** The phase after a trace that follows the protocol and pins every lease at most once. */
  function PhaseOf(events: seq<Event>): Option<Phase> {
    if events == [] then Some(Free)
    else
      var init, last := events[..|events| - 1], events[|events| - 1];
      match PhaseOf(init)
      case None => None
      case Some(p) => if last.Pin? && last in init then None else NextPhase(p, last)
  }

  // ---------- the serial history ----------

  /** The statements of the transaction that is open at the end of a trace. */
  function OpenStatements(events: seq<Event>): seq<string> {
    if events == [] then []
    else
      var init, last := events[..|events| - 1], events[|events| - 1];
      match last
      case Begin(_) => []
      case Statement(_, text) => OpenStatements(init) + [text]
      case _ => OpenStatements(init)
  }

  /** The committed units in order: whole transactions and single statements outside of any. */
  function Committed(events: seq<Event>): seq<seq<string>> {
    if events == [] then []
    else
      var init, last := events[..|events| - 1], events[|events| - 1];
      match last
      case Commit(_) => Committed(init) + [OpenStatements(init)]
      case Statement(l, text) => if PhaseOf(init) == Some(Pinned(l)) then Committed(init) + [[text]] else Committed(init)
      case _ => Committed(init)
  }

  /** What a unit leaves of a store, statement after statement in a transaction. */
  function RunUnit(sql: Engine, unit: seq<string>, store: Store): Store {
    RunSession(sql, unit, Opened(store)).data
  }

  function RunUnits(sql: Engine, units: seq<seq<string>>, store: Store): Store {
    if units == [] then store
    else RunUnit(sql, units[|units| - 1], RunUnits(sql, units[..|units| - 1], store))
  }

  /** The engine is where the committed units, run one after the other, lead: outside of an adapter
      transaction in no transaction at all, inside of one in that very transaction, with its own
      statements run so far. */
  predicate IsSerial(sql: Engine, initial: Store, events: seq<Event>) {
    var s, serial := Replay(sql, initial, events), RunUnits(sql, Committed(events), initial);
    match PhaseOf(events)
    case None => true
    case Some(InTransaction(_)) => s == RunSession(sql, OpenStatements(events), Opened(serial)) && IsOpen(s, serial)
    case _ => s == Idle(serial)
  }

  /** No statement ends the adapter transaction it runs in, none that runs alone opens one, and a commit
      that is refused leaves none behind. */
  predicate IsContained(kind: string -> Command, discards: bool, events: seq<Event>) {
    events == []
    || var init, last := events[..|events| - 1], events[|events| - 1];
       && IsContained(kind, discards, init)
       && (last.CommitFails? ==> discards)
       && (last.Statement? && PhaseOf(init).Some? ==>
             if PhaseOf(init).value.InTransaction? then !EndsWork(kind(last.text))
             else !kind(last.text).BeginWork? && !kind(last.text).Savepoint?)
  }

  lemma AloneOrInATransaction(sql: Engine, text: string, store: Store)
    requires !sql.kind(text).BeginWork? && !sql.kind(text).Savepoint?
    ensures Execute(sql, text, Idle(store)).session == Idle(RunUnit(sql, [text], store))
  {
    assert RunSession(sql, [text][..0], Opened(store)) == Opened(store);
  }

  lemma AppendUnit(sql: Engine, units: seq<seq<string>>, unit: seq<string>, store: Store)
    ensures RunUnits(sql, units + [unit], store) == RunUnit(sql, unit, RunUnits(sql, units, store))
  {
    assert (units + [unit])[..|units|] == units;
  }

  lemma ContainedStaysOpen(sql: Engine, text: string, s: Session<Store>, store: Store)
    requires IsOpen(s, store) && !EndsWork(sql.kind(text))
    ensures IsOpen(Execute(sql, text, s).session, store)
  {
  }

  lemma OneMoreStatement(sql: Engine, texts: seq<string>, text: string, s: Session<Store>)
    ensures RunSession(sql, texts + [text], s) == Execute(sql, text, RunSession(sql, texts, s)).session
  {
    assert (texts + [text])[..|texts|] == texts;
  }

  /** Over every trace that follows the protocol the history is serial, as long as no statement takes
      the control of transactions out of the adapter's hands. */
  lemma {:induction false} HistoryIsSerial(sql: Engine, initial: Store, events: seq<Event>)
    requires PhaseOf(events).Some? && IsContained(sql.kind, sql.discards, events)
    ensures IsSerial(sql, initial, events)
  {
    hide Execute, RunSession, RunUnit, RunUnits;
    if events == [] {
      NoUnits(sql, initial);
    } else {
      var init, last := events[..|events| - 1], events[|events| - 1];
      HistoryIsSerial(sql, initial, init);
      match last {
        case Statement(_, text) => StatementIsSerial(sql, initial, init, text);
        case Begin(_) => NothingRunYet(sql, RunUnits(sql, Committed(init), initial));
        case Commit(_) =>
          AppendUnit(sql, Committed(init), OpenStatements(init), initial);
          UnitOfOpen(sql, OpenStatements(init), RunUnits(sql, Committed(init), initial));
        case _ =>
      }
    }
  }

  lemma NoUnits(sql: Engine, initial: Store)
    ensures RunUnits(sql, [], initial) == initial
  {
  }

  lemma NothingRunYet(sql: Engine, store: Store)
    ensures RunSession(sql, [], Opened(store)) == Opened(store) && IsOpen(Opened(store), store)
  {
  }

  lemma UnitOfOpen(sql: Engine, unit: seq<string>, store: Store)
    ensures RunUnit(sql, unit, store) == RunSession(sql, unit, Opened(store)).data
  {
  }

  lemma StatementIsSerial(sql: Engine, initial: Store, init: seq<Event>, text: string)
    requires IsSerial(sql, initial, init) && PhaseOf(init).Some? && !PhaseOf(init).value.Free? && !PhaseOf(init).value.Ended?
    requires if PhaseOf(init).value.InTransaction? then !EndsWork(sql.kind(text))
             else !sql.kind(text).BeginWork? && !sql.kind(text).Savepoint?
    ensures var s, serial := Execute(sql, text, Replay(sql, initial, init)).session, RunUnits(sql, Committed(init), initial);
            if PhaseOf(init).value.InTransaction?
            then s == RunSession(sql, OpenStatements(init) + [text], Opened(serial)) && IsOpen(s, serial)
            else s == Idle(RunUnits(sql, Committed(init) + [[text]], initial))
  {
    hide Execute, RunSession, RunUnit, RunUnits, Committed, OpenStatements, Replay;
    var serial := RunUnits(sql, Committed(init), initial);
    if PhaseOf(init).value.InTransaction? {
      OneMoreStatement(sql, OpenStatements(init), text, Opened(serial));
      ContainedStaysOpen(sql, text, Replay(sql, initial, init), serial);
    } else {
      AloneOrInATransaction(sql, text, serial);
      AppendUnit(sql, Committed(init), [text], initial);
    }
  }

  /** The engine that refuses every plain statement. */
  function Refusing(kind: string -> Command, discards: bool): Engine {
    Sql((text, store) => Failed(0), kind, discards)
  }

  /** The first statement that is not contained makes the history go astray at once. */
  lemma {:induction false} EscapeIsSeen(kind: string -> Command, discards: bool, events: seq<Event>) returns (n: nat)
    requires PhaseOf(events).Some? && !IsContained(kind, discards, events)
    ensures n <= |events| && !IsSerial(Refusing(kind, discards), map[], events[..n])
  {
    var init, last := events[..|events| - 1], events[|events| - 1];
    if IsContained(kind, discards, init) {
      n := |events|;
      assert events[..n] == events;
      HistoryIsSerial(Refusing(kind, discards), map[], init);
      hide RunSession, RunUnits, Committed, OpenStatements;
      assert last.Statement? ==>
          Replay(Refusing(kind, discards), map[], events)
          == Execute(Refusing(kind, discards), last.text, Replay(Refusing(kind, discards), map[], init)).session;
    } else {
      n := EscapeIsSeen(kind, discards, init);
      assert events[..n] == init[..n];
    }
  }

  /** Whatever the engine does with plain statements, the history is serial at every moment, in store
      and in transactions, exactly when every event is contained. */
  lemma HistoryIsSerialIffContained(kind: string -> Command, discards: bool, events: seq<Event>)
    requires PhaseOf(events).Some?
    ensures (forall run: (string, Store) -> Effect<Store>, initial, n: nat ::
               n <= |events| ==> IsSerial(Sql(run, kind, discards), initial, events[..n]))
            <==> IsContained(kind, discards, events)
  {
    if IsContained(kind, discards, events) {
      forall run: (string, Store) -> Effect<Store>, initial, n: nat | n <= |events|
        ensures IsSerial(Sql(run, kind, discards), initial, events[..n])
      {
        PrefixIsContained(kind, discards, events, n);
        HistoryIsSerial(Sql(run, kind, discards), initial, events[..n]);
      }
    } else {
      var n := EscapeIsSeen(kind, discards, events);
      assert !IsSerial(Sql(Refusing(kind, discards).run, kind, discards), map[], events[..n]);
    }
  }

  lemma {:induction false} PrefixIsContained(kind: string -> Command, discards: bool, events: seq<Event>, n: nat)
    requires PhaseOf(events).Some? && IsContained(kind, discards, events) && n <= |events|
    ensures PhaseOf(events[..n]).Some? && IsContained(kind, discards, events[..n])
  {
    if n < |events| {
      PrefixIsContained(kind, discards, events[..|events| - 1], n);
      assert events[..|events| - 1][..n] == events[..n];
    } else {
      assert events[..n] == events;
    }
  }

  // ---------- the store alone ----------

  /** What is stored for good is what the committed units leave in their order. */
  predicate IsStoreSerial(sql: Engine, initial: Store, events: seq<Event>) {
    Durable(Replay(sql, initial, events)) == RunUnits(sql, Committed(events), initial)
  }

  /** The engine that keeps a log of the plain statements. */
  function Logging(kind: string -> Command, discards: bool): Engine {
    Sql((text, store) => Changed(Logged(LogOf(store) + [text]), 0), kind, discards)
  }

  function Logged(log: seq<string>): Store {
    map["" := log]
  }

  function LogOf(store: Store): seq<string> {
    if "" in store then store[""] else []
  }

  /** A store is what the logged statements leave. */
  ghost function FromLog(sql: Engine, initial: Store): (Store, Store) -> bool {
    (store, log) => log == Logged(LogOf(log)) && store == Fold(sql, LogOf(log), initial)
  }

  lemma LogsDecide(sql: Engine, initial: Store)
    ensures KeepsRelation(sql, Logging(sql.kind, sql.discards), FromLog(sql, initial))
    ensures FromLog(sql, initial)(initial, Logged([]))
  {
    var other, rel := Logging(sql.kind, sql.discards), FromLog(sql, initial);
    forall text, d, e | rel(d, e) && sql.kind(text).Plain?
      ensures rel(Left(sql, text, d), Left(other, text, e))
    {
      var log := LogOf(e);
      assert Left(other, text, e) == Logged(log + [text]);
      assert (log + [text])[..|log|] == log;
    }
  }

  lemma SimilarApply(sql: Engine, other: Engine, e: Event, s: Session<Store>, t: Session<Store>, rel: (Store, Store) -> bool)
    requires KeepsRelation(sql, other, rel) && sql.discards == other.discards && Similar(s, t, rel)
    ensures Similar(Apply(sql, s, e), Apply(other, t, e), rel)
  {
    hide Execute, KeepsRelation;
    if e.Statement? {
      SimilarExecute(sql, other, e.text, s, t, rel);
    }
  }

  lemma {:induction false} ReplayIsLogged(sql: Engine, initial: Store, events: seq<Event>)
    ensures Similar(Replay(sql, initial, events), Replay(Logging(sql.kind, sql.discards), Logged([]), events),
                    FromLog(sql, initial))
  {
    var other, rel := Logging(sql.kind, sql.discards), FromLog(sql, initial);
    LogsDecide(sql, initial);
    if events != [] {
      var init, last := events[..|events| - 1], events[|events| - 1];
      ReplayIsLogged(sql, initial, init);
      hide FromLog, Apply, KeepsRelation;
      SimilarApply(sql, other, last, Replay(sql, initial, init), Replay(other, Logged([]), init), rel);
    }
  }

  lemma {:induction false} UnitsAreLogged(sql: Engine, initial: Store, units: seq<seq<string>>)
    ensures FromLog(sql, initial)(RunUnits(sql, units, initial),
                                  RunUnits(Logging(sql.kind, sql.discards), units, Logged([])))
  {
    var other, rel := Logging(sql.kind, sql.discards), FromLog(sql, initial);
    LogsDecide(sql, initial);
    if units != [] {
      var init, last := units[..|units| - 1], units[|units| - 1];
      UnitsAreLogged(sql, initial, init);
      hide FromLog, Logging, RunSession;
      SimilarSession(sql, other, last, Opened(RunUnits(sql, init, initial)), Opened(RunUnits(other, init, Logged([]))), rel);
    }
  }

  /** Over every trace, the store is serial whatever the engine does with plain statements exactly when
      the statements that took effect are, in this order, those of the committed units: a comparison of
      two lists of statements, which only their kinds decide. */
  lemma StoreIsSerialIffLogsAgree(kind: string -> Command, discards: bool, events: seq<Event>)
    ensures (forall run: (string, Store) -> Effect<Store>, initial :: IsStoreSerial(Sql(run, kind, discards), initial, events))
            <==> IsStoreSerial(Logging(kind, discards), Logged([]), events)
  {
    var logging := Logging(kind, discards);
    if IsStoreSerial(logging, Logged([]), events) {
      forall run: (string, Store) -> Effect<Store>, initial
        ensures IsStoreSerial(Sql(run, kind, discards), initial, events)
      {
        var sql := Sql(run, kind, discards);
        ReplayIsLogged(sql, initial, events);
        UnitsAreLogged(sql, initial, Committed(events));
        SimilarDurable(Replay(sql, initial, events), Replay(logging, Logged([]), events), FromLog(sql, initial));
      }
    } else {
      assert !IsStoreSerial(Sql(logging.run, kind, discards), Logged([]), events);
    }
  }

  // ---------- what a transaction contributes ----------

  function StatementEvents(lease: nat, texts: seq<string>): seq<Event> {
    seq(|texts|, i requires 0 <= i < |texts| => Statement(lease, texts[i]))
  }

  lemma {:induction false} OpenTransaction(events: seq<Event>, l: nat, texts: seq<string>)
    requires PhaseOf(events) == Some(Free) && Pin(l) !in events
    ensures var open := events + [Pin(l), Begin(l)] + StatementEvents(l, texts);
            && PhaseOf(open) == Some(InTransaction(l))
            && OpenStatements(open) == texts && Committed(open) == Committed(events)
  {
    hide PhaseOf, OpenStatements, Committed;
    var begun := events + [Pin(l), Begin(l)];
    if texts == [] {
      assert begun + StatementEvents(l, texts) == begun;
      TransactionBegins(events, l);
    } else {
      var init, text := texts[..|texts| - 1], texts[|texts| - 1];
      OpenTransaction(events, l, init);
      assert begun + StatementEvents(l, texts) == begun + StatementEvents(l, init) + [Statement(l, text)];
      TransactionGoesOn(begun + StatementEvents(l, init), l, text);
      assert init + [text] == texts;
    }
  }

  lemma TransactionBegins(events: seq<Event>, l: nat)
    requires PhaseOf(events) == Some(Free) && Pin(l) !in events
    ensures var begun := events + [Pin(l), Begin(l)];
            && PhaseOf(begun) == Some(InTransaction(l))
            && OpenStatements(begun) == [] && Committed(begun) == Committed(events)
  {
    var begun := events + [Pin(l), Begin(l)];
    assert begun[..|begun| - 1] == events + [Pin(l)];
    assert (events + [Pin(l)])[..|events|] == events;
  }

  lemma TransactionGoesOn(open: seq<Event>, l: nat, text: string)
    requires PhaseOf(open) == Some(InTransaction(l))
    ensures var more := open + [Statement(l, text)];
            && PhaseOf(more) == Some(InTransaction(l))
            && OpenStatements(more) == OpenStatements(open) + [text] && Committed(more) == Committed(open)
  {
    assert (open + [Statement(l, text)])[..|open|] == open;
  }

  /** The engine after a transaction has been opened and its statements have run. */
  lemma {:induction false} OpenTransactionRuns(sql: Engine, initial: Store, events: seq<Event>, l: nat, texts: seq<string>)
    requires Replay(sql, initial, events).undo.None? && IsClean(Replay(sql, initial, events))
    ensures Replay(sql, initial, events + [Pin(l), Begin(l)] + StatementEvents(l, texts))
            == RunSession(sql, texts, Opened(Replay(sql, initial, events).data))
  {
    hide Execute;
    var begun := events + [Pin(l), Begin(l)];
    if texts == [] {
      assert begun + StatementEvents(l, texts) == begun;
      assert begun[..|begun| - 1] == events + [Pin(l)];
      assert (events + [Pin(l)])[..|events|] == events;
    } else {
      var init := texts[..|texts| - 1];
      OpenTransactionRuns(sql, initial, events, l, init);
      var open := begun + StatementEvents(l, texts);
      assert open[..|open| - 1] == begun + StatementEvents(l, init);
      assert open[|open| - 1] == Statement(l, texts[|texts| - 1]);
    }
  }

  predicate IsEnd(e: Event, l: nat) {
    e == Commit(l) || e == Rollback(l) || e == CommitFails(l)
  }

  lemma EndOfTransaction(open: seq<Event>, l: nat, end: Event)
    requires PhaseOf(open) == Some(InTransaction(l)) && IsEnd(end, l)
    ensures PhaseOf(open + [end]) == Some(Ended(l))
    ensures Committed(open + [end]) == Committed(open) + if end == Commit(l) then [OpenStatements(open)] else []
    ensures forall sql, initial :: Replay(sql, initial, open + [end]) == Apply(sql, Replay(sql, initial, open), end)
  {
    hide Apply;
    assert (open + [end])[..|open|] == open;
  }

  lemma ReleaseOfTransaction(ended: seq<Event>, l: nat)
    requires PhaseOf(ended) == Some(Ended(l))
    ensures PhaseOf(ended + [Release(l)]) == Some(Free)
    ensures Committed(ended + [Release(l)]) == Committed(ended)
    ensures forall sql, initial :: Replay(sql, initial, ended + [Release(l)]) == Replay(sql, initial, ended)
  {
    assert (ended + [Release(l)])[..|ended|] == ended;
  }

  /** A whole transaction in the adapter's hands. */
  function TransactionEvents(l: nat, texts: seq<string>, end: Event): seq<Event> {
    [Pin(l), Begin(l)] + StatementEvents(l, texts) + [end, Release(l)]
  }

  lemma TransactionContributes(events: seq<Event>, l: nat, texts: seq<string>, end: Event)
    requires PhaseOf(events) == Some(Free) && Pin(l) !in events && IsEnd(end, l)
    ensures var all := events + TransactionEvents(l, texts, end);
            && PhaseOf(all) == Some(Free)
            && Committed(all) == Committed(events) + if end == Commit(l) then [texts] else []
  {
    hide PhaseOf, Committed, OpenStatements, StatementEvents, Replay;
    OpenTransaction(events, l, texts);
    var open := events + [Pin(l), Begin(l)] + StatementEvents(l, texts);
    EndOfTransaction(open, l, end);
    ReleaseOfTransaction(open + [end], l);
    assert events + TransactionEvents(l, texts, end) == open + [end] + [Release(l)];
  }

  /** What a transaction leaves of the session it began in: all its statements if it is committed while
      it is still open; otherwise what had become durable meanwhile, unless the engine keeps a transaction
      whose commit it refuses. */
  lemma TransactionLeaves(sql: Engine, initial: Store, events: seq<Event>, l: nat, texts: seq<string>, end: Event)
    requires PhaseOf(events) == Some(Free) && Pin(l) !in events && IsEnd(end, l)
    requires Replay(sql, initial, events).undo.None? && IsClean(Replay(sql, initial, events))
    ensures var run := RunSession(sql, texts, Opened(Replay(sql, initial, events).data));
            Replay(sql, initial, events + TransactionEvents(l, texts, end))
            == if end == Commit(l) && run.undo.Some? then Idle(run.data)
               else if end == CommitFails(l) then Refused(sql, run)
               else Discarded(run)
  {
    hide PhaseOf, Committed, OpenStatements, StatementEvents, Replay, RunSession;
    OpenTransaction(events, l, texts);
    OpenTransactionRuns(sql, initial, events, l, texts);
    var open := events + [Pin(l), Begin(l)] + StatementEvents(l, texts);
    EndOfTransaction(open, l, end);
    ReleaseOfTransaction(open + [end], l);
    assert events + TransactionEvents(l, texts, end) == open + [end] + [Release(l)];
  }

  lemma RolledBackLeaves(sql: Engine, initial: Store, l: nat, texts: seq<string>)
    ensures Replay(sql, initial, TransactionEvents(l, texts, Rollback(l))).data
            == Durable(RunSession(sql, texts, Opened(initial)))
  {
    hide RunSession, TransactionEvents;
    TransactionLeaves(sql, initial, [], l, texts, Rollback(l));
    assert [] + TransactionEvents(l, texts, Rollback(l)) == TransactionEvents(l, texts, Rollback(l));
  }

  /** A transaction that an idle engine runs and rolls back contributes nothing to the store, whatever
      the engine does with plain statements, exactly when its statements let nothing escape. */
  lemma RolledBackContributesNothingIff(kind: string -> Command, discards: bool, l: nat, texts: seq<string>)
    ensures (forall run: (string, Store) -> Effect<Store>, initial ::
               Replay(Sql(run, kind, discards), initial, TransactionEvents(l, texts, Rollback(l))).data == initial)
            <==> !Escapes(kind, texts)
  {
    hide Replay, RunSession, TransactionEvents, Durable, Escapes;
    RollbackUndoesIffNothingEscapes(kind, discards, texts);
    if Escapes(kind, texts) {
      var run: (string, Store) -> Effect<Store>, initial :|
        Durable(RunSession(Sql(run, kind, discards), texts, Opened(initial))) != initial;
      RolledBackLeaves(Sql(run, kind, discards), initial, l, texts);
      assert Replay(Sql(run, kind, discards), initial, TransactionEvents(l, texts, Rollback(l))).data != initial;
    } else {
      forall run: (string, Store) -> Effect<Store>, initial
        ensures Replay(Sql(run, kind, discards), initial, TransactionEvents(l, texts, Rollback(l))).data == initial
      {
        RolledBackLeaves(Sql(run, kind, discards), initial, l, texts);
        assert Durable(RunSession(Sql(run, kind, discards), texts, Opened(initial))) == initial;
      }
    }
  }

  // ---------- exactly one release ----------

  function Count(events: seq<Event>, e: Event): nat {
    multiset(events)[e]
  }

  /** Every lease that was pinned is released exactly once, except the one that has the connection. */
  lemma {:induction false} ReleasedOnce(events: seq<Event>, l: nat)
    requires PhaseOf(events).Some?
    ensures Count(events, Pin(l)) <= 1
    ensures var p := PhaseOf(events).value;
            Count(events, Release(l)) == if !p.Free? && p.lease == l then 0 else Count(events, Pin(l))
    ensures var p := PhaseOf(events).value; !p.Free? && p.lease == l ==> Count(events, Pin(l)) == 1
  {
    if events == [] {
    } else {
      var init, last := events[..|events| - 1], events[|events| - 1];
      assert events == init + [last];
      ReleasedOnce(init, l);
      assert last == Pin(l) ==> (last in init <==> Count(init, Pin(l)) > 0);
    }
  }
}
