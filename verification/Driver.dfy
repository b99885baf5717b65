/** The database/sql adapter: connections and transactions as linked mutable objects over the
    engine's only connection, and scripts that use the same connection. */
module Driver {
  import opened Wrappers
  import opened Sessions
  import opened History

  datatype Error =
    | Cancelled
    | Closed
    | AlreadyActive
    | TxDone
    | NotTranslated
    | InterceptorFailed
    | EngineFailed
    | Unsupported

  /** The database and its engine connection.  The pool behind it is external: its methods here are
      what database/sql and SQLite do, and each records one event. */
  class Database {
    var closed: bool
    var engine: Session<Store>
    var phase: Phase
    const sql: Engine
    const initial: Store
    ghost var events: seq<Event>
    /** The adapter objects that exist. */
    ghost var connections: set<SqlConnection>
    ghost var transactions: set<SqlTransaction>
    /** The number of the next lease. */
    var leases: nat

    /** The engine is where its events lead. */
    ghost predicate FollowsEvents()
      reads this
    {
      && PhaseOf(events) == Some(phase)
      && engine == Replay(sql, initial, events) && IsClean(engine)
      && forall l: nat :: Pin(l) in events ==> l < leases
    }

    /** A transaction is unfinished exactly when its owner holds it, and then it has the connection;
        the connection is in no other use between two calls. */
    ghost predicate Links(p: Phase)
      reads this, connections, transactions
    {
      && (forall t :: t in transactions ==>
            && t.owner in connections && t.lease < leases
            && (!t.finished <==> t.owner.transaction == t)
            && (!t.finished ==> p == InTransaction(t.lease)))
      && (forall c :: c in connections ==>
            && c.database == this
            && (c.transaction != null ==> !c.closed && c.transaction in transactions && c.transaction.owner == c))
      && (forall t, u :: t in transactions && u in transactions && t.lease == u.lease ==> t == u)
      && (p == Free || exists t :: t in transactions && !t.finished)
    }

    ghost predicate Valid()
      reads this, connections, transactions
    {
      FollowsEvents() && Links(phase) && forall t :: t in transactions ==> Pin(t.lease) in events
    }

    constructor (sql: Engine, initial: Store)
      ensures Valid() && phase == Free && !closed
      ensures this.sql == sql && this.initial == initial && events == [] && connections == {} && transactions == {}
    {
      this.sql, this.initial := sql, initial;
      closed, engine, phase, leases := false, Idle(initial), Free, 0;
      events, connections, transactions := [], {}, {};
    }

    /** Appends an event to the history of the connection. */
    method Record(e: Event)
      requires FollowsEvents() && NextPhase(phase, e).Some?
      requires e.Pin? ==> e.lease == leases
      modifies this`engine, this`phase, this`events, this`leases
      ensures FollowsEvents() && events == old(events) + [e] && Some(phase) == NextPhase(old(phase), e)
      ensures leases == (if e.Pin? then old(leases) + 1 else old(leases)) && engine == Apply(sql, old(engine), e)
    {
      ApplyKeepsClean(sql, engine, e);
      engine, phase := Apply(sql, engine, e), NextPhase(phase, e).value;
      if e.Pin? {
        leases := leases + 1;
      }
      events := events + [e];
      assert events[..|events| - 1] == old(events);
    }

    /** Opens a connection of the adapter. */
    method Connect(cancelled: bool) returns (c: SqlConnection?, err: Option<Error>)
      requires Valid()
      modifies this`connections
      ensures Valid()
      ensures err == if cancelled then Some(Cancelled) else if closed then Some(Closed) else None
      ensures err.None? <==> c != null
      ensures c != null ==>
                && fresh(c) && c.database == this && c.transaction == null && !c.closed
                && connections == old(connections) + {c}
      ensures c == null ==> connections == old(connections)
    {
      if cancelled {
        return null, Some(Cancelled);
      }
      if closed {
        return null, Some(Closed);
      }
      c := new SqlConnection(this);
      connections := connections + {c};
      return c, None;
    }

    /** Closes the database.  Open transactions are left to be finished by their owners. */
    method Close()
      requires Valid()
      modifies this`closed
      ensures Valid() && closed
    {
      closed := true;
    }

    /** Pins the connection and begins a transaction on it, which the engine refuses inside another. */
    method Open(beginFails: bool) returns (ok: bool, lease: nat)
      requires FollowsEvents() && phase == Free
      modifies this`engine, this`phase, this`events, this`leases
      ensures FollowsEvents() && lease == old(leases) && leases == lease + 1
      ensures ok <==> old(engine).undo.None? && !beginFails
      ensures events == old(events) + [Pin(lease), if ok then Begin(lease) else Event.Release(lease)]
      ensures phase == if ok then InTransaction(lease) else Free
      ensures engine == if ok then Opened(old(engine.data)) else old(engine)
    {
      hide PhaseOf, Replay;
      lease := leases;
      ok := engine.undo.None? && !beginFails;
      Record(Pin(lease));
      Record(if ok then Begin(lease) else Event.Release(lease));
    }

    /** Ends the adapter's transaction and releases its connection. */
    method End(lease: nat, end: Event)
      requires FollowsEvents() && phase == InTransaction(lease) && IsEnd(end, lease)
      modifies this`engine, this`phase, this`events, this`leases
      ensures FollowsEvents() && phase == Free && leases == old(leases)
      ensures events == old(events) + [end, Event.Release(lease)] && engine == Apply(sql, old(engine), end)
    {
      hide PhaseOf, Replay, Apply;
      Record(end);
      ReleaseIsIdle(sql, engine, lease);
      Record(Event.Release(lease));
    }

    /** A statement outside of any transaction of the adapter. */
    method RunAlone(text: string)
      requires FollowsEvents() && phase == Free
      modifies this`engine, this`phase, this`events, this`leases
      ensures FollowsEvents() && phase == Free && leases == old(leases) + 1
      ensures events == old(events) + SingleStatement(old(leases), text)
      ensures engine == Execute(sql, text, old(engine)).session
    {
      hide PhaseOf, Replay, Execute;
      var lease := leases;
      Record(Pin(lease));
      Record(Statement(lease, text));
      Record(Event.Release(lease));
    }
  }

  class SqlTransaction {
    const owner: SqlConnection
    const lease: nat
    var finished: bool

    constructor (owner: SqlConnection, lease: nat)
      ensures this.owner == owner && this.lease == lease && !finished
    {
      this.owner, this.lease, finished := owner, lease, false;
    }

    /** Commit or Rollback.  The first call that finishes the transaction decides; a later one has no
        effect. */
    method Finish(commit: bool, commitFails: bool) returns (err: Option<Error>)
      requires owner.database.Valid() && this in owner.database.transactions
      modifies this`finished, owner`transaction
      modifies owner.database`engine, owner.database`phase, owner.database`events, owner.database`leases
      ensures owner.database.Valid() && finished
      ensures old(finished) ==>
                && err == Some(TxDone) && owner.transaction == old(owner.transaction)
                && owner.database.events == old(owner.database.events)
      ensures !old(finished) ==>
                && owner.transaction == null && owner.database.phase == Free
                && (err.None? <==> old(owner.database.engine).undo.Some? && !(commit && commitFails))
                && owner.database.engine
                   == (if commit && err.None? then Idle(old(owner.database.engine).data)
                       else if commit then Refused(owner.database.sql, old(owner.database.engine))
                       else Discarded(old(owner.database.engine)))
                && owner.database.events
                   == old(owner.database.events)
                      + [if !commit then Rollback(lease) else if err.Some? then CommitFails(lease) else Commit(lease),
                         Event.Release(lease)]
    {
      hide PhaseOf, Replay, Execute;
      if finished || owner.transaction != this {
        return Some(TxDone);
      }
      owner.Unlink();
      // A statement may have ended the transaction in the engine already.
      err := if owner.database.engine.undo.None? || (commit && commitFails) then Some(EngineFailed) else None;
      owner.database.End(lease, if !commit then Rollback(lease) else if err.Some? then CommitFails(lease) else Commit(lease));
    }
  }

  class SqlConnection {
    const database: Database
    var transaction: SqlTransaction?
    var closed: bool

    constructor (database: Database)
      ensures this.database == database && transaction == null && !closed
    {
      this.database, transaction, closed := database, null, false;
    }

    /** Begins a transaction, which pins the connection until it is finished. */
    method BeginTx(cancelled: bool, connectionFails: bool, beginFails: bool)
      returns (t: SqlTransaction?, err: Option<Error>)
      requires database.Valid() && this in database.connections
      modifies this`transaction, database`engine, database`phase, database`events, database`leases, database`transactions
      ensures database.Valid() && database.connections == old(database.connections)
      ensures t != null <==> err.None?
      ensures t != null <==>
                && !cancelled && !closed && !database.closed && old(transaction) == null
                && old(database.phase) == Free && !connectionFails
                && old(database.engine).undo.None? && !beginFails
      ensures t != null ==>
                && fresh(t) && transaction == t && t.owner == this && !t.finished
                && database.transactions == old(database.transactions) + {t}
                && database.events == old(database.events) + [Pin(t.lease), Begin(t.lease)]
                && database.engine == Opened(old(database.engine.data))
      ensures err.Some? ==>
                err == Some(if cancelled then Cancelled
                            else if closed || database.closed then Closed
                            else if old(transaction) != null then AlreadyActive
                            else EngineFailed)
      ensures t == null ==> transaction == old(transaction) && database.transactions == old(database.transactions)
      ensures t == null ==> database.engine == old(database.engine)
      ensures t == null ==>
                || database.events == old(database.events)
                || database.events == old(database.events) + [Pin(old(database.leases)), Event.Release(old(database.leases))]
    {
      hide PhaseOf, Replay, Apply;
      if cancelled {
        return null, Some(Cancelled);
      }
      if closed || database.closed {
        return null, Some(Closed);
      }
      if transaction != null {
        return null, Some(AlreadyActive);
      }
      // A connection that another transaction has pinned is waited for until the context ends.
      if database.phase != Free || connectionFails {
        return null, Some(EngineFailed);
      }
      var begun, lease := database.Open(beginFails);
      if !begun {
        return null, Some(EngineFailed);
      }
      t := Adopt(lease);
      return t, None;
    }

    /** Makes a transaction over a lease this connection's active one. */
    method Adopt(lease: nat) returns (t: SqlTransaction)
      requires database.Links(Free) && this in database.connections && !closed && transaction == null
      requires lease < database.leases && forall u :: u in database.transactions ==> u.lease < lease
      modifies this`transaction, database`transactions
      ensures database.Links(InTransaction(lease))
      ensures fresh(t) && transaction == t && t.owner == this && t.lease == lease && !t.finished
      ensures database.transactions == old(database.transactions) + {t}
    {
      t := new SqlTransaction(this, lease);
      transaction := t;
      database.transactions := database.transactions + {t};
    }

    /** Drops the active transaction, which is then finished. */
    method Unlink()
      requires transaction != null && this in database.connections && database.Links(database.phase)
      modifies this`transaction, transaction`finished
      ensures transaction == null && old(transaction).finished && database.Links(Free)
    {
      transaction.finished := true;
      transaction := null;
    }

    /** Closes the connection and rolls its active transaction back. */
    method Close() returns (err: Option<Error>)
      requires database.Valid() && this in database.connections
      modifies this`closed, this`transaction
      modifies if transaction == null then {} else {transaction}
      modifies database`engine, database`phase, database`events, database`leases
      ensures database.Valid() && closed && transaction == null
      ensures old(transaction) != null ==>
                && !old(closed) && old(transaction).finished
                && database.engine == Discarded(old(database.engine))
                && database.events
                   == old(database.events) + [Rollback(old(transaction).lease), Event.Release(old(transaction).lease)]
      ensures old(transaction) == null ==> database.events == old(database.events)
      ensures err.Some? <==> old(transaction) != null && old(database.engine).undo.None?
    {
      hide PhaseOf, Replay, Execute;
      if closed {
        return None;
      }
      if transaction == null {
        closed := true;
        return None;
      }
      var lease := transaction.lease;
      Unlink();
      closed := true;
      err := if database.engine.undo.None? then Some(EngineFailed) else None;
      database.End(lease, Rollback(lease));
    }

    /** Runs one translated statement: inside the active transaction, or on its own. */
    method ExecContext(cancelled: bool, translated: Option<string>, connectionFails: bool) returns (r: Result<int, Error>)
      requires database.Valid() && this in database.connections
      modifies database`engine, database`phase, database`events, database`leases
      ensures database.Valid() && database.phase == old(database.phase)
      ensures var runs := !cancelled && !closed && !database.closed && translated.Some?
                          && (transaction != null || (old(database.phase) == Free && !connectionFails));
              && (!runs ==>
                    && database.events == old(database.events)
                    && r == Err(if cancelled then Cancelled
                                else if closed || database.closed then Closed
                                else if translated.None? then NotTranslated
                                else EngineFailed))
              && (runs ==>
                    && database.events
                       == old(database.events)
                          + (if transaction != null then [Statement(transaction.lease, translated.value)]
                             else SingleStatement(old(database.leases), translated.value))
                    && r == (match Execute(database.sql, translated.value, old(database.engine)).result
                             case Some(rowCount) => Ok(rowCount)
                             case None => Err(EngineFailed))
                    && database.engine == Execute(database.sql, translated.value, old(database.engine)).session)
    {
      hide PhaseOf, Replay, Execute;
      if cancelled {
        return Err(Cancelled);
      }
      if closed || database.closed {
        return Err(Closed);
      }
      if translated.None? {
        return Err(NotTranslated);
      }
      r := ResultOf(Execute(database.sql, translated.value, database.engine).result);
      if transaction != null {
        database.Record(Statement(transaction.lease, translated.value));
      } else if database.phase != Free || connectionFails {
        return Err(EngineFailed);
      } else {
        database.RunAlone(translated.value);
      }
    }

    /** Whether a pool may hand this connection out again: it is open, so is its database, and every
        transaction it ever began is finished. */
    method IsValid() returns (r: bool)
      requires database.Valid() && this in database.connections
      ensures r <==> !closed && !database.closed
                     && forall t :: t in database.transactions && t.owner == this ==> t.finished
      ensures r ==> forall l :: database.phase == InTransaction(l) ==>
                      exists t :: t in database.transactions && t.lease == l && t.owner != this
    {
      return !closed && transaction == null && !database.closed;
    }
  }

  /** Between two calls, whatever calls were made before, the store is the one the committed
      transactions, scripts and single statements leave in their order, plus the statements of the
      one transaction that may be open, and the engine is in a transaction exactly when the adapter is;
      provided no event took the control of transactions out of the adapter's hands. */
  lemma DatabaseHistoryIsSerial(d: Database)
    requires d.Valid() && IsContained(d.sql.kind, d.sql.discards, d.events)
    ensures var serial := RunUnits(d.sql, Committed(d.events), d.initial);
            && (d.phase.InTransaction? ==> d.engine == RunSession(d.sql, OpenStatements(d.events), Opened(serial)))
            && (d.phase.Free? ==> d.engine == Idle(serial))
            && (d.engine.undo.Some? <==> d.phase.InTransaction?)
    ensures d.phase.Free? || d.phase.InTransaction?
  {
    HistoryIsSerial(d.sql, d.initial, d.events);
  }

  /** At most one transaction is unfinished, whichever connections they belong to; every other lease
      has been released exactly once, and the unfinished one not at all. */
  lemma LeasesAreReleased(d: Database, t: SqlTransaction)
    requires d.Valid() && t in d.transactions
    ensures !t.finished ==> d.phase == InTransaction(t.lease) && t.owner.transaction == t && !t.owner.closed
    ensures !t.finished ==> forall u :: u in d.transactions && !u.finished ==> u == t
    ensures Count(d.events, Pin(t.lease)) == 1 && Count(d.events, Event.Release(t.lease)) == if t.finished then 1 else 0
  {
    ReleasedOnce(d.events, t.lease);
  }

  lemma ReleaseIsIdle(sql: Engine, s: Session<Store>, lease: nat)
    ensures Apply(sql, s, Event.Release(lease)) == s
  {
  }

  function ResultOf(result: Option<int>): Result<int, Error> {
    match result
    case Some(rowCount) => Ok(rowCount)
    case None => Err(EngineFailed)
  }

  /** A statement outside of any transaction. */
  function SingleStatement(lease: nat, text: string): seq<Event> {
    [Pin(lease), Statement(lease, text), Event.Release(lease)]
  }
}
