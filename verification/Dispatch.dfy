/** What rewritten calls mean: the dispatcher, and the theorem that routing registered calls
    through it changes no value and no error. */
module Dispatch {
  import opened Wrappers
  import opened Ast
  import opened Overloads
  import opened FunctionRewrite

  // ---------- values and callbacks ----------

  datatype Value = Null | Int(i: int) | Float(r: real) | Bool(b: bool) | Text(s: string) | Blob(bytes: seq<bv8>) | Time(t: int)

  /** What a callback may hand back: a driver value, one of the other Go number types, or anything else. */
  datatype GoValue = Plain(value: Value) | Small(i: int) | Unsigned(n: nat) | Float32(r: real) | Unsupported

  datatype Reply = Returned(value: GoValue) | Failed(message: string) | Panicked(message: string)

  datatype Failure =
    | NoRoutingArguments
    | InvalidRoutingArguments
    | DatabaseClosed(schema: string, name: string)
    | NoOverload(schema: string, name: string, arity: nat)
    | CallFailed(schema: string, name: string, message: string)
    | CallPanicked(schema: string, name: string, message: string)
    | InvalidResult(schema: string, name: string)
    | EngineFailure(code: nat)

  type Outcome = Result<Value, Failure>

  const MAX_INT64 := 0x7fff_ffff_ffff_ffff

  function Normalize(v: GoValue): Option<Value> {
    match v
    case Plain(value) => Some(value)
    case Small(i) => Some(Int(i))
    case Unsigned(n) => if n > MAX_INT64 then None else Some(Int(n))
    case Float32(r) => Some(Float(r))
    case Unsupported => None
  }

  function Invoke(schema: string, name: string, reply: Reply): Outcome {
    match reply
    case Failed(message) => Err(CallFailed(schema, name, message))
    case Panicked(message) => Err(CallPanicked(schema, name, message))
    case Returned(value) =>
      match Normalize(value)
      case Some(v) => Ok(v)
      case None => Err(InvalidResult(schema, name))
  }

  /** A callback's reply reaches the statement as it is: numbers widened, an unsigned one refused above
      the largest 64-bit integer, an error and a panic each as its own failure. */
  lemma RepliesReachTheStatement(schema: string, name: string, reply: Reply)
    ensures Invoke(schema, name, reply).Ok?
            <==> && reply.Returned?
                 && (|| reply.value.Plain? || reply.value.Small? || reply.value.Float32?
                     || (reply.value.Unsigned? && reply.value.n <= 9223372036854775807))
    ensures forall v :: Invoke(schema, name, reply) == Ok(v) ==>
              match reply.value
              case Plain(x) => v == x
              case Small(i) => v == Int(i)
              case Unsigned(n) => v == Int(n)
              case Float32(x) => v == Float(x)
              case Unsupported => false
    ensures forall m :: reply == Failed(m) ==> Invoke(schema, name, reply) == Err(CallFailed(schema, name, m))
    ensures forall m :: reply == Panicked(m) ==> Invoke(schema, name, reply) == Err(CallPanicked(schema, name, m))
    ensures reply.Returned? && Invoke(schema, name, reply).Err? ==>
              Invoke(schema, name, reply) == Err(InvalidResult(schema, name))
  {
  }

  /** The open databases by dispatch id, each with the registrations it has accepted so far, and
      what every callback answers. */
  datatype World = World(databases: map<string, seq<Registration>>, run: (ScalarFunction, seq<Value>) -> Reply)

  /** The one function the engine knows: it finds its target from its first three arguments. */
  function CallDispatcher(w: World, arguments: seq<Value>): Outcome {
    if |arguments| < 3 then Err(NoRoutingArguments)
    else if !arguments[0].Text? || !arguments[1].Text? || !arguments[2].Text? then Err(InvalidRoutingArguments)
    else
      var id, schema, name := arguments[0].s, arguments[1].s, arguments[2].s;
      if id !in w.databases then Err(DatabaseClosed(schema, name))
      else
        match Implementation(Build(w.databases[id]), schema, name, |arguments| - 3)
        case None => Err(NoOverload(schema, name, |arguments| - 3))
        case Some(f) => Invoke(schema, name, w.run(f, arguments[3..]))
  }

  /** What a registered call means: the callback the registrations prescribe, applied to the
      arguments. */
  function CallRegistered(w: World, id: string, schema: string, name: string, arguments: seq<Value>): Outcome {
    if id !in w.databases then Err(DatabaseClosed(schema, name))
    else
      match Resolve(w.databases[id], schema, name, |arguments|)
      case None => Err(NoOverload(schema, name, |arguments|))
      case Some(f) => Invoke(schema, name, w.run(f, arguments))
  }

  lemma DispatcherFindsItsTarget(w: World, id: string, schema: string, name: string, arguments: seq<Value>)
    ensures CallDispatcher(w, [Text(id), Text(schema), Text(name)] + arguments)
            == CallRegistered(w, id, schema, name, arguments)
  {
    var all := [Text(id), Text(schema), Text(name)] + arguments;
    assert all[3..] == arguments;
    if id in w.databases {
      LookupRefinesLog(w.databases[id], schema, name, |arguments|);
    }
  }

  // ---------- evaluation ----------

  /** One row context of a running statement. */
  type Row = nat

  /** The outcome of an expression in every row context. */
  type Column = imap<Row, Outcome>

  /** The engine's own semantics: the outcome of any other message from those of its children.  A
      message may look at its children in other row contexts, as a subquery or an aggregate does. */
  datatype Engine = Engine(node: (Tag, seq<Column>, seq<Column>, seq<Column>, Row) -> Outcome)

  function At(c: Column, row: Row): Outcome {
    if row in c then c[row] else Err(EngineFailure(0))
  }

  /** Arguments are evaluated left to right; the first failure is the call's. */
  function Arguments(columns: seq<Column>, row: Row): Result<seq<Value>, Failure> {
    if columns == [] then Ok([])
    else
      match At(columns[0], row)
      case Err(f) => Err(f)
      case Ok(v) =>
        match Arguments(columns[1..], row)
        case Err(f) => Err(f)
        case Ok(vs) => Ok([v] + vs)
  }

  function Literal(text: string, row: Row): Outcome {
    Ok(Text(text))
  }

  ghost function LiteralColumn(text: string): Column {
    imap row: Row | true :: Literal(text, row)
  }

  /** A call of the dispatcher with these argument columns. */
  ghost function Dispatching(columns: seq<Column>, w: World): Column {
    imap row: Row | true ::
      match Arguments(columns, row)
      case Err(f) => Err(f)
      case Ok(vs) => CallDispatcher(w, vs)
  }

  /** A call of a registered function with these argument columns. */
  ghost function Calling(columns: seq<Column>, w: World, id: string, schema: string, name: string): Column {
    imap row: Row | true ::
      match Arguments(columns, row)
      case Err(f) => Err(f)
      case Ok(vs) => CallRegistered(w, id, schema, name, vs)
  }

  /** How the engine evaluates a tree: the dispatcher is the only function that reaches Go. */
  ghost function Evaluate(t: Tree, e: Engine, w: World): Column
    decreases t, 1
  {
    if t.tag.StrConst? then LiteralColumn(t.tag.text)
    else if IsDispatcherCall(t) then Dispatching(EvaluateList(t.body, e, w), w)
    else
      imap row: Row | true ::
        e.node(t.tag, EvaluateList(t.head, e, w), EvaluateList(t.body, e, w), EvaluateList(t.rest, e, w), row)
  }

  ghost function EvaluateList(ts: seq<Tree>, e: Engine, w: World): (r: seq<Column>)
    ensures |r| == |ts|
    decreases ts, 0
  {
    seq(|ts|, i requires 0 <= i < |ts| => Evaluate(ts[i], e, w))
  }

  /** How the source statement is to be understood: plain calls of functions registered when the
      statement was rewritten are calls of the registered callbacks. */
  ghost function Meaning(t: Tree, e: Engine, w: World, route: Route): Column
    decreases t, 1
  {
    if t.tag.StrConst? then LiteralColumn(t.tag.text)
    else if IsRegisteredCall(t, route.registry, route.defaultSchema) then
      var (schema, name) := CalledFunction(NameParts(t.head), route.defaultSchema).value;
      Calling(MeaningList(t.body, e, w, route), w, route.id, schema, name)
    else
      imap row: Row | true ::
        e.node(t.tag, MeaningList(t.head, e, w, route), MeaningList(t.body, e, w, route), MeaningList(t.rest, e, w, route), row)
  }

  ghost function MeaningList(ts: seq<Tree>, e: Engine, w: World, route: Route): (r: seq<Column>)
    ensures |r| == |ts|
    decreases ts, 0
  {
    seq(|ts|, i requires 0 <= i < |ts| => Meaning(ts[i], e, w, route))
  }

  lemma ArgumentsAfterLiteral(text: string, columns: seq<Column>, row: Row)
    ensures Arguments([LiteralColumn(text)] + columns, row)
            == match Arguments(columns, row)
               case Err(f) => Err(f)
               case Ok(vs) => Ok([Text(text)] + vs)
  {
    assert ([LiteralColumn(text)] + columns)[1..] == columns;
  }

  /** Dispatching with the routing constants in front is calling the registered function. */
  lemma DispatchingIsCalling(columns: seq<Column>, w: World, id: string, schema: string, name: string)
    ensures Dispatching([LiteralColumn(id), LiteralColumn(schema), LiteralColumn(name)] + columns, w)
            == Calling(columns, w, id, schema, name)
  {
    var two, three := [LiteralColumn(name)] + columns, [LiteralColumn(schema)] + ([LiteralColumn(name)] + columns);
    assert [LiteralColumn(id), LiteralColumn(schema), LiteralColumn(name)] + columns == [LiteralColumn(id)] + three;
    forall row: Row
      ensures Dispatching([LiteralColumn(id)] + three, w)[row] == Calling(columns, w, id, schema, name)[row]
    {
      ArgumentsAfterLiteral(name, columns, row);
      ArgumentsAfterLiteral(schema, two, row);
      ArgumentsAfterLiteral(id, three, row);
      if Arguments(columns, row).Ok? {
        var vs := Arguments(columns, row).value;
        assert [Text(id)] + ([Text(schema)] + ([Text(name)] + vs)) == [Text(id), Text(schema), Text(name)] + vs;
        DispatcherFindsItsTarget(w, id, schema, name, vs);
      }
    }
  }

  /** Rewriting preserves meaning: the engine computes from the rewritten tree, through the
      dispatcher, what the source tree means with its registered calls resolved directly.  The
      registrations at run time may be later ones than those the statement was rewritten with. */
  lemma {:induction false} RewritePreservesMeaning(t: Tree, e: Engine, w: World, route: Route)
    requires !HasDispatcherCall(t)
    ensures Evaluate(Rewrite(t, route), e, w) == Meaning(t, e, w, route)
    decreases t, 1
  {
    var u := WithRewrittenKids(t, route);
    DecisionsSurviveKids(t, route);
    ListPreservesMeaning(t, t.head, e, w, route);
    ListPreservesMeaning(t, t.body, e, w, route);
    ListPreservesMeaning(t, t.rest, e, w, route);
    if IsRegisteredCall(t, route.registry, route.defaultSchema) {
      var (schema, name) := CalledFunction(NameParts(t.head), route.defaultSchema).value;
      RegisteredCallPreservesMeaning(u, t, e, w, route, schema, name);
    } else {
      assert Rewrite(t, route) == u;
    }
  }

  lemma RegisteredCallPreservesMeaning(
    u: Tree, t: Tree, e: Engine, w: World, route: Route, schema: string, name: string)
    requires IsRegisteredCall(t, route.registry, route.defaultSchema) && u.tag.FuncCall?
    requires CalledFunction(NameParts(t.head), route.defaultSchema) == Some((schema, name))
    requires EvaluateList(u.body, e, w) == MeaningList(t.body, e, w, route)
    ensures Evaluate(Dispatched(u, route.id, schema, name), e, w) == Meaning(t, e, w, route)
  {
    var d := Dispatched(u, route.id, schema, name);
    var columns := EvaluateList(u.body, e, w);
    assert EvaluateList(d.body, e, w)
        == [LiteralColumn(route.id), LiteralColumn(schema), LiteralColumn(name)] + columns;
    DispatchingIsCalling(columns, w, route.id, schema, name);
  }

  lemma {:induction false} ListPreservesMeaning(t: Tree, ts: seq<Tree>, e: Engine, w: World, route: Route)
    requires !HasDispatcherCall(t)
    requires ts == t.head || ts == t.body || ts == t.rest
    ensures EvaluateList(RewriteList(ts, route), e, w) == MeaningList(ts, e, w, route)
    decreases t, 0
  {
    forall i | 0 <= i < |ts|
      ensures Evaluate(Rewrite(ts[i], route), e, w) == Meaning(ts[i], e, w, route)
    {
      assert ts[i] in Kids(t);
      RewritePreservesMeaning(ts[i], e, w, route);
    }
  }

  /** Dispatch ids keep databases apart: what a rewritten statement computes depends only on its own
      database's registrations. */
  lemma {:induction false} OtherDatabasesDoNotMatter(t: Tree, e: Engine, w: World, v: World, route: Route)
    requires w.run == v.run
    requires route.id in w.databases <==> route.id in v.databases
    requires route.id in w.databases ==> w.databases[route.id] == v.databases[route.id]
    ensures Meaning(t, e, w, route) == Meaning(t, e, v, route)
    ensures !HasDispatcherCall(t) ==> Evaluate(Rewrite(t, route), e, w) == Evaluate(Rewrite(t, route), e, v)
  {
    forall x | x in Kids(t)
      ensures Meaning(x, e, w, route) == Meaning(x, e, v, route)
    {
      var i :| 0 <= i < |Kids(t)| && Kids(t)[i] == x;
      OtherDatabasesDoNotMatter(x, e, w, v, route);
    }
    SameMeanings(t, t.head, e, w, v, route);
    SameMeanings(t, t.body, e, w, v, route);
    SameMeanings(t, t.rest, e, w, v, route);
    if !HasDispatcherCall(t) {
      RewritePreservesMeaning(t, e, w, route);
      RewritePreservesMeaning(t, e, v, route);
    }
  }

  lemma SameMeanings(t: Tree, ts: seq<Tree>, e: Engine, w: World, v: World, route: Route)
    requires forall x :: x in Kids(t) ==> Meaning(x, e, w, route) == Meaning(x, e, v, route)
    requires ts == t.head || ts == t.body || ts == t.rest
    ensures MeaningList(ts, e, w, route) == MeaningList(ts, e, v, route)
  {
    forall i | 0 <= i < |ts|
      ensures Meaning(ts[i], e, w, route) == Meaning(ts[i], e, v, route)
    {
      assert ts[i] in Kids(t);
    }
  }
}
