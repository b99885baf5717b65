/** The databases of one process and the global map through which the dispatcher finds them. */
module Process {
  import opened Wrappers
  import opened Overloads
  import opened Text
  import opened Dispatch

  class DB {
    const dispatchID: string
    const functions: FunctionRegistry
    var closed: bool

    constructor (dispatchID: string)
      ensures this.dispatchID == dispatchID && !closed
      ensures fresh(functions) && functions.Valid() && functions.log == []
    {
      this.dispatchID, closed := dispatchID, false;
      functions := new FunctionRegistry();
    }
  }

  /** The map takes exactly the ids of the open ones among these databases to these databases. */
  ghost predicate MapsOpen(m: map<string, DB>, databases: set<DB>)
    reads databases
  {
    && (forall id :: id in m ==> m[id] in databases && m[id].dispatchID == id && !m[id].closed)
    && (forall d :: d in databases && !d.closed ==> d.dispatchID in m && m[d.dispatchID] == d)
  }

  ghost predicate AreDistinct(databases: set<DB>)
  {
    forall d, e :: d in databases && e in databases && d != e ==>
      d.dispatchID != e.dispatchID && d.functions != e.functions
  }

  /** The registrations of the databases in a map. */
  ghost function Logs(m: map<string, DB>): map<string, seq<Registration>>
    reads set d | d in m.Values :: d.functions
  {
    map id | id in m :: m[id].functions.log
  }

  lemma MapsOneMore(m: map<string, DB>, databases: set<DB>, d: DB)
    requires MapsOpen(m, databases) && d !in databases && !d.closed
    requires forall e :: e in databases ==> e.dispatchID != d.dispatchID
    ensures MapsOpen(m[d.dispatchID := d], databases + {d})
  {
  }

  lemma MapsOneLess(m: map<string, DB>, databases: set<DB>, d: DB)
    requires MapsOpen(m, databases) && AreDistinct(databases) && d in databases && !d.closed
    ensures MapsOpen(m - {d.dispatchID}, databases - {d})
  {
  }

  lemma MapsNoClosed(m: map<string, DB>, databases: set<DB>, d: DB)
    requires MapsOpen(m, databases - {d}) && d.closed && d.dispatchID !in m
    ensures MapsOpen(m, databases)
  {
    forall e | e in databases && !e.closed
      ensures e.dispatchID in m && m[e.dispatchID] == e
    {
      assert e in databases - {d};
    }
  }

  lemma ClosedIsNotMapped(m: map<string, DB>, databases: set<DB>, d: DB)
    requires MapsOpen(m, databases) && AreDistinct(databases) && d in databases && d.closed
    ensures d.dispatchID !in m
  {
  }

  lemma LogsWith(m: map<string, DB>, id: string, d: DB)
    ensures Logs(m[id := d]) == Logs(m)[id := d.functions.log]
  {
  }

  lemma LogsWithout(m: map<string, DB>, id: string)
    ensures Logs(m - {id}) == Logs(m) - {id}
  {
  }

  class Process {
    var functionDatabases: map<string, DB>
    /** All databases that were ever opened. */
    ghost var databases: set<DB>

    ghost predicate Valid()
      reads this, databases, set d | d in databases :: d.functions
    {
      && (forall d :: d in databases ==> d.functions.Valid())
      && AreDistinct(databases) && MapsOpen(functionDatabases, databases)
    }

    /** The registrations the dispatcher can reach. */
    ghost function Reachable(): map<string, seq<Registration>>
      reads this, databases, set d | d in databases :: d.functions
      requires Valid()
    {
      Logs(functionDatabases)
    }

    constructor ()
      ensures Valid() && databases == {} && functionDatabases == map[]
    {
      functionDatabases, databases := map[], {};
    }

    /** Opens a database under an id that no other one has. */
    method New(id: string) returns (d: DB)
      requires Valid() && forall e :: e in databases ==> e.dispatchID != id
      modifies this
      ensures Valid() && fresh(d) && fresh(d.functions) && !d.closed && d.dispatchID == id
      ensures databases == old(databases) + {d} && d.functions.log == []
      ensures Reachable() == old(Reachable())[id := []]
    {
      hide FunctionRegistry.Valid, MapsOpen, Logs;
      d := new DB(id);
      MapsOneMore(functionDatabases, databases, d);
      LogsWith(functionDatabases, id, d);
      functionDatabases := functionDatabases[id := d];
      databases := databases + {d};
    }

    /** Closes a database; closing it again has no effect. */
    method Close(d: DB)
      requires Valid() && d in databases
      modifies this`functionDatabases, d`closed
      ensures Valid() && d.closed
      ensures Reachable() == old(Reachable()) - {d.dispatchID}
    {
      hide FunctionRegistry.Valid, MapsOpen, Logs, AreDistinct;
      LogsWithout(functionDatabases, d.dispatchID);
      if d.closed {
        ClosedIsNotMapped(functionDatabases, databases, d);
        assert functionDatabases - {d.dispatchID} == functionDatabases;
        return;
      }
      MapsOneLess(functionDatabases, databases, d);
      d.closed := true;
      functionDatabases := functionDatabases - {d.dispatchID};
      MapsNoClosed(functionDatabases, databases, d);
    }

    /** Registers a function of one database; the others do not notice. */
    method RegisterFunction(d: DB, schema: string, definition: Function) returns (err: Option<RegisterError>)
      requires Valid() && d in databases
      modifies d.functions
      ensures Valid()
      ensures err == Some(InvalidName) <==> !AllowedName(definition.name)
      ensures err == Some(NegativeArity) <==> AllowedName(definition.name) && definition.arity < 0
      ensures err == Some(NilImplementation) <==>
                AllowedName(definition.name) && definition.arity >= 0 && definition.implementation.None?
      ensures err == Some(Closed) <==>
                AllowedName(definition.name) && definition.arity >= 0 && definition.implementation.Some? && d.closed
      ensures err.Some? ==> Reachable() == old(Reachable())
      ensures err.None? ==>
                && definition.implementation.Some? && d.dispatchID in old(Reachable())
                && Reachable()
                   == old(Reachable())[
                        d.dispatchID :=
                          old(Reachable())[d.dispatchID]
                          + [Registration(schema, ToLower(definition.name), definition.arity, definition.variadic,
                                          definition.implementation.value)]]
    {
      hide FunctionRegistry.Valid, AllowedName;
      ghost var others := functionDatabases - {d.dispatchID};
      assert forall id :: id in others ==> others[id] != d && others[id].functions != d.functions;
      LogsWith(others, d.dispatchID, d);
      assert !d.closed ==> functionDatabases == others[d.dispatchID := d];
      err := d.functions.RegisterFunction(schema, definition, d.closed);
      LogsWith(others, d.dispatchID, d);
    }

    /** What the engine calls: it looks the database up by the first argument. */
    method DispatchScalarFunction(arguments: seq<Value>, run: (ScalarFunction, seq<Value>) -> Reply) returns (r: Outcome)
      requires Valid()
      ensures r == CallDispatcher(World(Reachable(), run), arguments)
      ensures |arguments| < 3 ==> r == Err(NoRoutingArguments)
      ensures |arguments| >= 3 && !(arguments[0].Text? && arguments[1].Text? && arguments[2].Text?) ==>
                r == Err(InvalidRoutingArguments)
      ensures |arguments| >= 3 && arguments[0].Text? && arguments[1].Text? && arguments[2].Text? ==>
                var id, schema, name, rest := arguments[0].s, arguments[1].s, arguments[2].s, arguments[3..];
                if id !in functionDatabases then r == Err(DatabaseClosed(schema, name))
                else
                  var target := Resolve(functionDatabases[id].functions.log, schema, name, |rest|);
                  if target.None? then r == Err(NoOverload(schema, name, |rest|))
                  else
                    match run(target.value, rest)
                    case Failed(message) => r == Err(CallFailed(schema, name, message))
                    case Panicked(message) => r == Err(CallPanicked(schema, name, message))
                    case Returned(Plain(v)) => r == Ok(v)
                    case Returned(Small(i)) => r == Ok(Int(i))
                    case Returned(Float32(x)) => r == Ok(Float(x))
                    case Returned(Unsigned(n)) =>
                      r == (if n <= 9223372036854775807 then Ok(Int(n)) else Err(InvalidResult(schema, name)))
                    case Returned(Unsupported) => r == Err(InvalidResult(schema, name))
    {
      hide LatestFixed, LatestVariadic;
      if |arguments| < 3 {
        return Err(NoRoutingArguments);
      }
      if !arguments[0].Text? || !arguments[1].Text? || !arguments[2].Text? {
        return Err(InvalidRoutingArguments);
      }
      var id, schema, name := arguments[0].s, arguments[1].s, arguments[2].s;
      if id !in functionDatabases {
        return Err(DatabaseClosed(schema, name));
      }
      LookupRefinesLog(functionDatabases[id].functions.log, schema, name, |arguments| - 3);
      var implementation := Implementation(functionDatabases[id].functions.bySchema, schema, name, |arguments| - 3);
      if implementation.None? {
        return Err(NoOverload(schema, name, |arguments| - 3));
      }
      return Invoke(schema, name, run(implementation.value, arguments[3..]));
    }
  }

  /** A rewritten call reaches its own database, and there the overload its registrations prescribe,
      or fails because that database is closed; whatever else was opened, closed or registered. */
  lemma CallsReachTheirDatabase(
    p: Process, d: DB, run: (ScalarFunction, seq<Value>) -> Reply, schema: string, name: string, arguments: seq<Value>)
    requires p.Valid() && d in p.databases
    ensures CallDispatcher(World(p.Reachable(), run), [Text(d.dispatchID), Text(schema), Text(name)] + arguments)
            == if d.closed then Err(DatabaseClosed(schema, name))
               else
                 match Resolve(d.functions.log, schema, name, |arguments|)
                 case None => Err(NoOverload(schema, name, |arguments|))
                 case Some(f) => Invoke(schema, name, run(f, arguments))
  {
    DispatcherFindsItsTarget(World(p.Reachable(), run), d.dispatchID, schema, name, arguments);
  }
}
