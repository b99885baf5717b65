/** Replacing registered scalar calls by calls of the one global dispatcher. */
module FunctionRewrite {
  import opened Wrappers
  import opened Text
  import opened Ast
  import opened Overloads

  // ---------- what the rewriter looks at in one call ----------

  /** The parts of a call's name, when every one of them is a string node. */
  function NameParts(names: seq<Tree>): Option<seq<string>> {
    if forall i :: 0 <= i < |names| ==> names[i].tag.Str?
    then Some(seq(|names|, i requires 0 <= i < |names| => names[i].tag.sval))
    else None
  }

  /** A function call whose last name part is the dispatcher's name in any case. */
  predicate IsDispatcherCall(t: Tree) {
    && t.tag.FuncCall?
    && var parts := NameParts(t.head);
    && parts.Some? && |parts.value| > 0
    && EqualFold(parts.value[|parts.value| - 1], DISPATCH)
  }

  /** Neither an aggregate, nor a window call, nor called with VARIADIC. */
  predicate IsPlainScalarCall(t: Tree) {
    t.tag.FuncCall? && !t.tag.aggStar && !t.tag.aggDistinct && !t.tag.variadic && t.rest == []
  }

  /** The schema and lower-cased name a call refers to from a receiver's default schema. */
  function CalledFunction(parts: Option<seq<string>>, defaultSchema: string): Option<(string, string)> {
    if parts.None? || |parts.value| == 0 || |parts.value| > 2 then None
    else
      var schema := if |parts.value| == 1 then defaultSchema else parts.value[0];
      Some((if schema == "main" then "public" else schema, ToLower(parts.value[|parts.value| - 1])))
  }

  predicate IsRegisteredCall(t: Tree, r: Registry, defaultSchema: string) {
    && IsPlainScalarCall(t)
    && var called := CalledFunction(NameParts(t.head), defaultSchema);
    && called.Some? && Has(r, called.value.0, called.value.1)
  }

  // ---------- the same questions over a whole tree ----------

  predicate HasDispatcherCall(t: Tree) {
    IsDispatcherCall(t) || exists i :: 0 <= i < |Kids(t)| && HasDispatcherCall(Kids(t)[i])
  }

  predicate HasRegisteredCall(t: Tree, r: Registry, defaultSchema: string) {
    || IsRegisteredCall(t, r, defaultSchema)
    || exists i :: 0 <= i < |Kids(t)| && HasRegisteredCall(Kids(t)[i], r, defaultSchema)
  }

  // ---------- the rewrite on values ----------

  /** Where calls are routed: the database's dispatch id, the registry, the default schema. */
  datatype Route = Route(id: string, registry: Registry, defaultSchema: string)

  /** The call of the dispatcher that stands for a call of (schema, name) with these arguments. */
  function Dispatched(t: Tree, id: string, schema: string, name: string): Tree
    requires t.tag.FuncCall?
  {
    Tree.Message(t.tag.(location := -1),
                 [Leaf(Str(DISPATCH))],
                 [Leaf(StrConst(id)), Leaf(StrConst(schema)), Leaf(StrConst(name))] + t.body,
                 t.rest)
  }

  function RewriteNode(t: Tree, route: Route): Tree {
    if IsRegisteredCall(t, route.registry, route.defaultSchema) then
      var (schema, name) := CalledFunction(NameParts(t.head), route.defaultSchema).value;
      Dispatched(t, route.id, schema, name)
    else t
  }

  function Rewrite(t: Tree, route: Route): Tree
    decreases t, 1
  {
    RewriteNode(WithRewrittenKids(t, route), route)
  }

  function WithRewrittenKids(t: Tree, route: Route): Tree
    decreases t, 0
  {
    Tree.Message(t.tag, RewriteList(t.head, route), RewriteList(t.body, route), RewriteList(t.rest, route))
  }

  function RewriteList(ts: seq<Tree>, route: Route): (r: seq<Tree>)
    ensures |r| == |ts|
  {
    seq(|ts|, i requires 0 <= i < |ts| => Rewrite(ts[i], route))
  }

  // ---------- the gate ----------

  lemma KidsAreRewritten(t: Tree, route: Route)
    ensures Kids(WithRewrittenKids(t, route)) == RewriteList(Kids(t), route)
  {
  }

  /** Rewriting its children changes neither a call's name nor whether it is plain, so deciding
      after the children, as the rewriter does, is deciding on the original call. */
  lemma DecisionsSurviveKids(t: Tree, route: Route)
    ensures var u := WithRewrittenKids(t, route);
            && NameParts(u.head) == NameParts(t.head)
            && IsDispatcherCall(u) == IsDispatcherCall(t)
            && IsRegisteredCall(u, route.registry, route.defaultSchema)
               == IsRegisteredCall(t, route.registry, route.defaultSchema)
  {
    var u := WithRewrittenKids(t, route);
    forall i | 0 <= i < |t.head|
      ensures u.head[i].tag.Str? == t.head[i].tag.Str?
      ensures t.head[i].tag.Str? ==> u.head[i].tag == t.head[i].tag
    {
      var k := t.head[i];
      assert u.head[i] == Rewrite(k, route) == RewriteNode(WithRewrittenKids(k, route), route);
      assert WithRewrittenKids(k, route).tag == k.tag;
    }
    if NameParts(t.head).Some? {
      assert NameParts(u.head).value == NameParts(t.head).value;
    }
  }

  /** When nothing in it is registered, a tree is left as it is. */
  lemma {:induction false} UnregisteredIsUntouched(t: Tree, route: Route)
    requires !HasRegisteredCall(t, route.registry, route.defaultSchema)
    ensures Rewrite(t, route) == t
  {
    forall i | 0 <= i < |Kids(t)|
      ensures Rewrite(Kids(t)[i], route) == Kids(t)[i]
    {
      UnregisteredIsUntouched(Kids(t)[i], route);
    }
    ListUntouched(t, t.head, route);
    ListUntouched(t, t.body, route);
    ListUntouched(t, t.rest, route);
  }

  lemma ListUntouched(t: Tree, ts: seq<Tree>, route: Route)
    requires forall i :: 0 <= i < |Kids(t)| ==> Rewrite(Kids(t)[i], route) == Kids(t)[i]
    requires forall x :: x in ts ==> x in Kids(t)
    ensures RewriteList(ts, route) == ts
  {
    forall i | 0 <= i < |ts|
      ensures RewriteList(ts, route)[i] == ts[i]
    {
      assert ts[i] in Kids(t);
    }
  }

  /** The gate accepts its own output exactly when there was nothing to rewrite: the calls it
      inserts are dispatcher calls, and it inserts one for every registered call. */
  lemma {:induction false} SecondRunRejectsIffChanged(t: Tree, route: Route)
    requires !HasDispatcherCall(t)
    ensures HasDispatcherCall(Rewrite(t, route)) <==> HasRegisteredCall(t, route.registry, route.defaultSchema)
  {
    var u := WithRewrittenKids(t, route);
    DecisionsSurviveKids(t, route);
    KidsAreRewritten(t, route);
    if IsRegisteredCall(t, route.registry, route.defaultSchema) {
      assert IsDispatcherCall(Rewrite(t, route));
    } else {
      forall i | 0 <= i < |Kids(t)|
        ensures HasDispatcherCall(Kids(u)[i])
                <==> HasRegisteredCall(Kids(t)[i], route.registry, route.defaultSchema)
      {
        SecondRunRejectsIffChanged(Kids(t)[i], route);
      }
    }
  }

  // ---------- what counts as a call, field by field ----------

  lemma {:induction false} DispatcherCallIsSomewhere(t: Tree)
    ensures HasDispatcherCall(t) <==> exists x :: Subtree(x, t) && IsDispatcherCall(x)
  {
    hide IsDispatcherCall;
    forall i | 0 <= i < |Kids(t)|
      ensures HasDispatcherCall(Kids(t)[i]) <==> exists x :: Subtree(x, Kids(t)[i]) && IsDispatcherCall(x)
    {
      DispatcherCallIsSomewhere(Kids(t)[i]);
    }
    if IsDispatcherCall(t) {
      assert Subtree(t, t);
    }
  }

  /** The gate looks at function calls whose name consists of strings, and there at the last one only. */
  lemma GateIsExact(t: Tree)
    ensures HasDispatcherCall(t)
            <==> exists x :: && Subtree(x, t) && x.tag.FuncCall? && |x.head| > 0
                             && (forall i :: 0 <= i < |x.head| ==> x.head[i].tag.Str?)
                             && EqualFold(x.head[|x.head| - 1].tag.sval, "__pgmem_dispatch_749c9c9e")
  {
    DispatcherCallIsSomewhere(t);
    hide Subtree, EqualFold, HasDispatcherCall;
  }

  /** A call says schema `said` and means schema `meant`. */
  predicate MeansSchema(said: string, meant: string) {
    if said == "main" then meant == "public" else meant == said
  }

  /** A plain call from receiver `defaultSchema` of the function that was registered as (schema, name). */
  predicate IsCallOf(x: Tree, defaultSchema: string, schema: string, name: string) {
    && x.tag.FuncCall? && !x.tag.aggStar && !x.tag.aggDistinct && !x.tag.variadic && x.rest == []
    && (|x.head| == 1 || |x.head| == 2) && (forall i :: 0 <= i < |x.head| ==> x.head[i].tag.Str?)
    && MeansSchema(if |x.head| == 1 then defaultSchema else x.head[0].tag.sval, schema)
    && ToLower(x.head[|x.head| - 1].tag.sval) == name
  }

  lemma RegisteredCallsAreCalls(x: Tree, log: seq<Registration>, defaultSchema: string)
    ensures IsRegisteredCall(x, Build(log), defaultSchema)
            <==> exists k :: 0 <= k < |log| && IsCallOf(x, defaultSchema, log[k].schema, log[k].name)
  {
    hide ToLower, Build, Has;
    if IsPlainScalarCall(x) && CalledFunction(NameParts(x.head), defaultSchema).Some? {
      var (schema, name) := CalledFunction(NameParts(x.head), defaultSchema).value;
      HasIffRegistered(log, schema, name);
    }
  }

  lemma {:induction false} RegisteredCallIsSomewhere(t: Tree, r: Registry, defaultSchema: string)
    ensures HasRegisteredCall(t, r, defaultSchema)
            <==> exists x :: Subtree(x, t) && IsRegisteredCall(x, r, defaultSchema)
  {
    hide IsRegisteredCall;
    forall i | 0 <= i < |Kids(t)|
      ensures HasRegisteredCall(Kids(t)[i], r, defaultSchema)
              <==> exists x :: Subtree(x, Kids(t)[i]) && IsRegisteredCall(x, r, defaultSchema)
    {
      RegisteredCallIsSomewhere(Kids(t)[i], r, defaultSchema);
    }
    if IsRegisteredCall(t, r, defaultSchema) {
      assert Subtree(t, t);
    }
  }

  /** A tree has a registered call exactly when some message in it calls some registration by its name. */
  lemma RegisteredCallsAreFound(t: Tree, log: seq<Registration>, defaultSchema: string)
    ensures HasRegisteredCall(t, Build(log), defaultSchema)
            <==> exists x, k :: Subtree(x, t) && 0 <= k < |log| && IsCallOf(x, defaultSchema, log[k].schema, log[k].name)
  {
    hide HasRegisteredCall, IsRegisteredCall, IsCallOf, Build, Subtree;
    RegisteredCallIsSomewhere(t, Build(log), defaultSchema);
    forall x
      ensures IsRegisteredCall(x, Build(log), defaultSchema)
              <==> exists k :: 0 <= k < |log| && IsCallOf(x, defaultSchema, log[k].schema, log[k].name)
    {
      RegisteredCallsAreCalls(x, log, defaultSchema);
    }
  }

  /** One function is registered, and one call is looked at, none of whose children calls it.  The call
      is rewritten exactly when it is plain and its name is the function's, up to case, qualified by the
      function's schema or unqualified from a receiver of that schema, where main stands for public.  It
      then carries the id, the schema and the folded name before its own arguments. */
  lemma OneRegistrationOneCall(t: Tree, id: string, schema: string, name: string, x: Registration, defaultSchema: string)
    requires t.tag.FuncCall? && x.schema == schema && x.name == ToLower(name)
    requires forall i :: 0 <= i < |Kids(t)| ==> !HasRegisteredCall(Kids(t)[i], Build([x]), defaultSchema)
    ensures var route := Route(id, Build([x]), defaultSchema);
            var isNamed := || (exists n :: |t.head| == 1 && t.head[0].tag == Str(n) && ToLower(n) == ToLower(name)
                                           && if defaultSchema == "main" then schema == "public" else schema == defaultSchema)
                           || (exists q, n :: |t.head| == 2 && t.head[0].tag == Str(q) && t.head[1].tag == Str(n)
                                              && ToLower(n) == ToLower(name)
                                              && if q == "main" then schema == "public" else schema == q);
            var isPlain := !t.tag.aggStar && !t.tag.aggDistinct && !t.tag.variadic && t.rest == [];
            && (HasRegisteredCall(t, route.registry, defaultSchema) <==> isNamed && isPlain)
            && Rewrite(t, route)
               == if isNamed && isPlain then
                    Tree.Message(FuncCall(false, false, false, -1), [Leaf(Str("__pgmem_dispatch_749c9c9e"))],
                                 [Leaf(StrConst(id)), Leaf(StrConst(schema)), Leaf(StrConst(ToLower(name)))] + t.body, [])
                  else t
  {
    hide ToLower, Build, HasRegisteredCall;
    var route := Route(id, Build([x]), defaultSchema);
    RegisteredCallsAreCalls(t, [x], defaultSchema);
    KidsUntouched(t, route);
    OnlyTheCallItself(t, route);
    CallsByName(t, schema, name, defaultSchema);
    assert [x][0] == x;
    if IsRegisteredCall(t, route.registry, defaultSchema) {
      var k :| 0 <= k < |[x]| && IsCallOf(t, defaultSchema, [x][k].schema, [x][k].name);
      RoutedToTheRegistration(t, route, schema, ToLower(name));
    }
  }

  lemma CallsByName(t: Tree, schema: string, name: string, defaultSchema: string)
    requires t.tag.FuncCall?
    ensures IsCallOf(t, defaultSchema, schema, ToLower(name))
            <==> && !t.tag.aggStar && !t.tag.aggDistinct && !t.tag.variadic && t.rest == []
                 && (|| (exists n :: |t.head| == 1 && t.head[0].tag == Str(n) && ToLower(n) == ToLower(name)
                                     && if defaultSchema == "main" then schema == "public" else schema == defaultSchema)
                     || (exists q, n :: |t.head| == 2 && t.head[0].tag == Str(q) && t.head[1].tag == Str(n)
                                        && ToLower(n) == ToLower(name)
                                        && if q == "main" then schema == "public" else schema == q))
  {
    hide ToLower;
    if |t.head| == 1 && t.head[0].tag.Str? {
      assert t.head[0].tag == Str(t.head[0].tag.sval);
    } else if |t.head| == 2 && t.head[0].tag.Str? && t.head[1].tag.Str? {
      assert t.head[0].tag == Str(t.head[0].tag.sval) && t.head[1].tag == Str(t.head[1].tag.sval);
    }
  }

  lemma RoutedToTheRegistration(t: Tree, route: Route, schema: string, name: string)
    requires IsRegisteredCall(t, route.registry, route.defaultSchema) && IsCallOf(t, route.defaultSchema, schema, name)
    ensures RewriteNode(t, route) == Dispatched(t, route.id, schema, name)
  {
    hide ToLower, Has;
  }

  lemma OnlyTheCallItself(t: Tree, route: Route)
    requires forall i :: 0 <= i < |Kids(t)| ==> !HasRegisteredCall(Kids(t)[i], route.registry, route.defaultSchema)
    ensures HasRegisteredCall(t, route.registry, route.defaultSchema)
            <==> IsRegisteredCall(t, route.registry, route.defaultSchema)
  {
  }

  lemma KidsUntouched(t: Tree, route: Route)
    requires forall i :: 0 <= i < |Kids(t)| ==> !HasRegisteredCall(Kids(t)[i], route.registry, route.defaultSchema)
    ensures WithRewrittenKids(t, route) == t
  {
    forall i | 0 <= i < |Kids(t)|
      ensures Rewrite(Kids(t)[i], route) == Kids(t)[i]
    {
      UnregisteredIsUntouched(Kids(t)[i], route);
    }
    ListUntouched(t, t.head, route);
    ListUntouched(t, t.body, route);
    ListUntouched(t, t.rest, route);
  }

  // ---------- the rewrite in place ----------

  /** functionNameParts on a live message. */
  method MessageNameParts(m: Message) returns (parts: Option<seq<string>>)
    requires m.Valid()
    ensures parts == NameParts(m.tree.head)
  {
    var collected: seq<string> := [];
    for i := 0 to m.heads
      invariant |collected| == i
      invariant forall j :: 0 <= j < i ==> m.tree.head[j].tag.Str? && collected[j] == m.tree.head[j].tag.sval
    {
      assert Kids(m.tree)[i] == m.tree.head[i] && m.kids[i].Valid();
      if !m.kids[i].tag.Str? {
        return None;
      }
      collected := collected + [m.kids[i].tag.sval];
    }
    assert collected == NameParts(m.tree.head).value;
    return Some(collected);
  }

  function DispatchTags(id: string, schema: string, name: string): seq<Tag> {
    [Str(DISPATCH), StrConst(id), StrConst(schema), StrConst(name)]
  }

  lemma KidsOfDispatched(t: Tree, id: string, schema: string, name: string)
    requires t.tag.FuncCall?
    ensures var u, tags := Dispatched(t, id, schema, name), DispatchTags(id, schema, name);
            && u.tag == t.tag.(location := -1) && |u.head| == 1 && |u.body| == 3 + |t.body|
            && Kids(u) == seq(|tags|, i requires 0 <= i < |tags| => Leaf(tags[i])) + (t.body + t.rest)
  {
  }

  /** Turns a call into the dispatcher call that stands for it. */
  method RouteThroughDispatcher(m: Message, id: string, schema: string, name: string)
    requires m.Valid() && m.tag.FuncCall?
    modifies m
    ensures m.Valid() && fresh(m.repr - old(m.repr)) && m.tree == Dispatched(old(m.tree), id, schema, name)
  {
    hide *;
    OpenMessage(m);
    ghost var before, after := m.tree, Dispatched(m.tree, id, schema, name);
    ghost var below, tags := m.repr - {m}, DispatchTags(id, schema, name);
    var leaves := MakeLeaves(DispatchTags(id, schema, name));
    DropFromForest(m.kids, below, Kids(before), m.heads);
    KidsAfterHead(before);
    AddLeavesToForest(leaves, seq(|tags|, i requires 0 <= i < |tags| => Leaf(tags[i])),
                      m.kids[m.heads..], below, before.body + before.rest);
    KidsOfDispatched(before, id, schema, name);
    m.Assign(m.tag.(location := -1), leaves + m.kids[m.heads..], 1, 3 + m.bodies, after, below + set x | x in leaves);
  }

  /** The part of the rewrite that follows the visit of the children. */
  method RewriteCall(m: Message, route: Route) returns (ok: bool, changed: bool)
    requires m.Valid()
    modifies m
    ensures ok <==> !IsDispatcherCall(old(m.tree))
    ensures ok ==> m.Valid() && fresh(m.repr - old(m.repr)) && m.tree == RewriteNode(old(m.tree), route)
    ensures ok ==> changed == IsRegisteredCall(old(m.tree), route.registry, route.defaultSchema)
  {
    if !m.tag.FuncCall? {
      return true, false;
    }
    var parts := MessageNameParts(m);
    if parts.Some? && |parts.value| > 0 && EqualFold(parts.value[|parts.value| - 1], DISPATCH) {
      return false, false;
    }
    if m.tag.aggStar || m.tag.aggDistinct || m.tag.variadic || |m.kids| > m.heads + m.bodies {
      return true, false;
    }
    var called := CalledFunction(parts, route.defaultSchema);
    if called.None? || !Has(route.registry, called.value.0, called.value.1) {
      return true, false;
    }
    RouteThroughDispatcher(m, route.id, called.value.0, called.value.1);
    return true, true;
  }

  /** Rewrites one tree of a forest and leaves the others alone. */
  method RewriteAt(ms: seq<Message>, i: nat, ghost before: set<Message>, route: Route)
    returns (ok: bool, changed: bool, ghost after: set<Message>)
    requires i < |ms| && IsForest(ms, before)
    modifies ms[i].repr
    ensures ok <==> !HasDispatcherCall(old(ms[i].tree))
    ensures ok ==> changed == HasRegisteredCall(old(ms[i].tree), route.registry, route.defaultSchema)
    ensures ok ==> ms[i].tree == Rewrite(old(ms[i].tree), route)
    ensures ok ==> IsForest(ms, after) && before <= after && fresh(after - before)
    ensures ok ==> forall j :: 0 <= j < |ms| && j != i ==> ms[j].tree == old(ms[j].tree) && ms[j].repr == old(ms[j].repr)
    decreases ms[i].repr, 1
  {
    hide Rewrite, HasRegisteredCall, HasDispatcherCall, Message.Valid;
    ok, changed := RewriteFunctionTree(ms[i], route);
    after := before + ms[i].repr;
    if ok {
      OpenMessage(ms[i]);
    }
  }

  /** Rewrites the trees of a forest, in any order at all, and stops at the first rejection. */
  method RewriteEach(ms: seq<Message>, ghost before: set<Message>, ghost trees: seq<Tree>, route: Route)
    returns (ok: bool, changed: bool, ghost after: set<Message>)
    requires IsForest(ms, before)
    requires AreTrees(ms, trees)
    modifies before
    ensures ok <==> forall j :: 0 <= j < |ms| ==> !HasDispatcherCall(trees[j])
    ensures ok ==> (changed <==> exists j :: 0 <= j < |ms|
                                     && HasRegisteredCall(trees[j], route.registry, route.defaultSchema))
    ensures ok ==> IsForest(ms, after) && fresh(after - before)
    ensures ok ==> forall j :: 0 <= j < |ms| ==> ms[j].tree == Rewrite(trees[j], route)
    decreases before, 2
  {
    hide Rewrite, HasRegisteredCall, HasDispatcherCall, Message.Valid;
    var pending := Positions(|ms|);
    ok, changed, after := true, false, before;
    while pending != {}
      invariant forall j :: j in pending ==> 0 <= j < |ms|
      invariant IsForest(ms, after) && fresh(after - before)
      invariant forall j :: j in pending ==> ms[j].tree == trees[j] && ms[j].repr <= before
      invariant forall j :: 0 <= j < |ms| && j !in pending ==>
                  ms[j].tree == Rewrite(trees[j], route) && !HasDispatcherCall(trees[j])
      invariant changed <==> exists j :: 0 <= j < |ms| && j !in pending
                                         && HasRegisteredCall(trees[j], route.registry, route.defaultSchema)
    {
      hide IsForest;
      var i :| i in pending;
      pending := pending - {i};
      var childOk, childChanged;
      childOk, childChanged, after := RewriteAt(ms, i, after, route);
      if !childOk {
        return false, changed, after;
      }
      changed := changed || childChanged;
    }
  }

  /** What the questions about a tree come to, asked of the tree with its children rewritten. */
  lemma OneLevel(t: Tree, route: Route)
    ensures var u := WithRewrittenKids(t, route);
            && Rewrite(t, route) == RewriteNode(u, route)
            && u.tag == t.tag && |u.head| == |t.head| && |u.body| == |t.body|
            && (HasDispatcherCall(t) <==>
                IsDispatcherCall(u) || exists j :: 0 <= j < |Kids(t)| && HasDispatcherCall(Kids(t)[j]))
            && (HasRegisteredCall(t, route.registry, route.defaultSchema) <==>
                IsRegisteredCall(u, route.registry, route.defaultSchema)
                || exists j :: 0 <= j < |Kids(t)| && HasRegisteredCall(Kids(t)[j], route.registry, route.defaultSchema))
  {
    DecisionsSurviveKids(t, route);
  }

  lemma TreesOfRewritten(ms: seq<Message>, t: Tree, route: Route)
    requires |ms| == |Kids(t)| && forall j :: 0 <= j < |ms| ==> ms[j].tree == Rewrite(Kids(t)[j], route)
    ensures AreTrees(ms, Kids(WithRewrittenKids(t, route)))
  {
    KidsAreRewritten(t, route);
  }

  /** Rewrites `m` in place, its children first.  The outcome does not depend on the order in which
      the children are visited.  The tree is left half rewritten when the gate rejects it. */
  method RewriteFunctionTree(m: Message, route: Route) returns (ok: bool, changed: bool)
    requires m.Valid()
    modifies m.repr
    ensures ok <==> !HasDispatcherCall(old(m.tree))
    ensures ok ==> m.Valid() && fresh(m.repr - old(m.repr)) && m.tree == Rewrite(old(m.tree), route)
    ensures ok ==> changed == HasRegisteredCall(old(m.tree), route.registry, route.defaultSchema)
    decreases m.repr, 0
  {
    hide *;
    ghost var before := m.tree;
    OpenMessage(m);
    OneLevel(before, route);
    ghost var below;
    ok, changed, below := RewriteEach(m.kids, m.repr - {m}, Kids(before), route);
    if !ok {
      return;
    }
    TreesOfRewritten(m.kids, before, route);
    m.Assign(m.tag, m.kids, m.heads, m.bodies, WithRewrittenKids(before, route), below);
    var nodeChanged;
    ok, nodeChanged := RewriteCall(m, route);
    changed := changed || nodeChanged;
  }
}
