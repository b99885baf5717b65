/** The two rewrites of a statement in sequence: translation first, then the routing of registered
    functions.  Neither disturbs what the other establishes. */
module Pipeline {
  import opened Wrappers
  import opened Ast
  import opened Overloads
  import opened FunctionRewrite
  import opened Prefilter
  import opened Translator
  import opened RelationReferences
  import opened Resolution
  import opened Dispatch

  // ---------- calls survive translation ----------

  /** Whether two trees answer alike the questions the function rewrite asks. */
  predicate SameCalls(u: Tree, t: Tree, route: Route) {
    && HasDispatcherCall(u) == HasDispatcherCall(t)
    && HasRegisteredCall(u, route.registry, route.defaultSchema) == HasRegisteredCall(t, route.registry, route.defaultSchema)
  }

  predicate SameListCalls(us: seq<Tree>, ts: seq<Tree>, route: Route) {
    AnyDispatcherCall(us) == AnyDispatcherCall(ts) && AnyRegisteredCall(us, route) == AnyRegisteredCall(ts, route)
  }

  /** The name of a call, as far as it consists of strings. */
  predicate SameNames(us: seq<Tree>, ts: seq<Tree>) {
    |us| == |ts| && forall i :: 0 <= i < |us| ==> us[i].tag == ts[i].tag || (!us[i].tag.Str? && !ts[i].tag.Str?)
  }

  lemma SameNamesSameParts(us: seq<Tree>, ts: seq<Tree>)
    requires SameNames(us, ts)
    ensures NameParts(us) == NameParts(ts)
  {
    if NameParts(us).Some? && NameParts(ts).Some? {
      assert NameParts(us).value == NameParts(ts).value;
    }
  }

  lemma CallsByField(t: Tree, route: Route)
    ensures HasDispatcherCall(t)
            <==> IsDispatcherCall(t) || AnyDispatcherCall(t.head) || AnyDispatcherCall(t.body) || AnyDispatcherCall(t.rest)
    ensures HasRegisteredCall(t, route.registry, route.defaultSchema)
            <==> IsRegisteredCall(t, route.registry, route.defaultSchema)
                 || AnyRegisteredCall(t.head, route) || AnyRegisteredCall(t.body, route) || AnyRegisteredCall(t.rest, route)
  {
    hide IsDispatcherCall, IsRegisteredCall;
    CallsOfConcat(t.head, t.body, route);
    CallsOfConcat(t.head + t.body, t.rest, route);
    assert Kids(t) == t.head + t.body + t.rest;
    assert HasDispatcherCall(t) <==> IsDispatcherCall(t) || AnyDispatcherCall(Kids(t));
  }

  lemma CallsOfConcat(a: seq<Tree>, b: seq<Tree>, route: Route)
    ensures AnyDispatcherCall(a + b) <==> AnyDispatcherCall(a) || AnyDispatcherCall(b)
    ensures AnyRegisteredCall(a + b, route) <==> AnyRegisteredCall(a, route) || AnyRegisteredCall(b, route)
  {
    hide HasDispatcherCall, HasRegisteredCall;
    assert forall i :: 0 <= i < |a| ==> (a + b)[i] == a[i];
    assert forall i :: 0 <= i < |b| ==> (a + b)[|a| + i] == b[i];
  }

  lemma FieldsDecideCalls(u: Tree, t: Tree, route: Route)
    requires SameListCalls(u.head, t.head, route) && SameListCalls(u.body, t.body, route) && SameListCalls(u.rest, t.rest, route)
    requires u.tag == t.tag || (!u.tag.FuncCall? && !t.tag.FuncCall?)
    requires t.tag.FuncCall? ==> SameNames(u.head, t.head) && |u.rest| == |t.rest|
    ensures SameCalls(u, t, route)
  {
    hide HasDispatcherCall, HasRegisteredCall, AnyDispatcherCall, AnyRegisteredCall;
    CallsByField(u, route);
    CallsByField(t, route);
    if t.tag.FuncCall? {
      SameNamesSameParts(u.head, t.head);
    }
  }

  lemma ListsOfSameCalls(us: seq<Tree>, ts: seq<Tree>, route: Route)
    requires |us| == |ts| && forall i :: 0 <= i < |us| ==> SameCalls(us[i], ts[i], route)
    ensures SameListCalls(us, ts, route)
  {
    hide HasDispatcherCall, HasRegisteredCall;
  }

  lemma RetagKeepsCalls(t: Tree, tag: Tag, route: Route)
    requires !t.tag.FuncCall? && !tag.FuncCall?
    ensures SameCalls(t.(tag := tag), t, route)
  {
    FieldsDecideCalls(t.(tag := tag), t, route);
  }

  lemma {:induction false} ClearKeepsCalls(t: Tree, s: string, route: Route)
    ensures SameCalls(Clear(t, s), t, route)
    decreases t, 1
  {
    hide HasDispatcherCall, HasRegisteredCall, AnyDispatcherCall, AnyRegisteredCall;
    ClearListKeepsCalls(t.head, s, route);
    ClearListKeepsCalls(t.body, s, route);
    ClearListKeepsCalls(t.rest, s, route);
    if t.tag.Constraint? && RelationSchema(t.head) == Some(s) {
      var cleared := ClearList(t.head, s);
      ReplacedHeadKeepsCalls(cleared, RangeVar("", t.head[0].tag.relation), route);
    }
    FieldsDecideCalls(Clear(t, s), t, route);
  }

  lemma ReplacedHeadKeepsCalls(ts: seq<Tree>, tag: Tag, route: Route)
    requires ts != [] && !ts[0].tag.FuncCall? && !tag.FuncCall?
    ensures SameListCalls(ts[0 := ts[0].(tag := tag)], ts, route)
  {
    hide HasDispatcherCall, HasRegisteredCall;
    RetagKeepsCalls(ts[0], tag, route);
    ListsOfSameCalls(ts[0 := ts[0].(tag := tag)], ts, route);
  }

  lemma {:induction false} ClearListKeepsCalls(ts: seq<Tree>, s: string, route: Route)
    ensures SameListCalls(ClearList(ts, s), ts, route) && SameNames(ClearList(ts, s), ts)
    decreases ts, 0
  {
    hide SameCalls, SameListCalls;
    forall i | 0 <= i < |ts|
      ensures SameCalls(Clear(ts[i], s), ts[i], route)
    {
      ClearKeepsCalls(ts[i], s, route);
    }
    ListsOfSameCalls(ClearList(ts, s), ts, route);
  }

  /** Translation neither adds nor removes nor renames a function call. */
  lemma {:induction false} TranslateKeepsCalls(t: Tree, defaultSchema: string, route: Route)
    requires IsGrammatical(t)
    ensures SameCalls(Translate(t, defaultSchema), t, route)
    decreases t, 1
  {
    hide SameCalls, SameListCalls, SameNames, IsGrammatical, MappedType, HasNoCreate;
    KidsOf(t);
    var u := TranslateFields(t, defaultSchema);
    TranslateListKeepsCalls(t.head, defaultSchema, route);
    TranslateListKeepsCalls(t.body, defaultSchema, route);
    TranslateListKeepsCalls(t.rest, defaultSchema, route);
    TranslatedHeadKeepsCalls(t, defaultSchema, route);
    FieldsDecideCalls(u, t, route);
    if u.tag.CreateStmt? && RelationSchema(u.head).Some? {
      ElementsKeepCalls(u, t, RelationSchema(u.head).value, route);
    }
  }

  lemma ElementsKeepCalls(u: Tree, t: Tree, s: string, route: Route)
    requires u.tag.CreateStmt? && SameCalls(u, t, route)
    ensures SameCalls(u.(body := ClearList(u.body, s)), t, route)
  {
    hide HasDispatcherCall, HasRegisteredCall;
    ClearListKeepsCalls(u.body, s, route);
    FieldsDecideCalls(u.(body := ClearList(u.body, s)), u, route);
  }

  lemma TranslatedHeadKeepsCalls(t: Tree, defaultSchema: string, route: Route)
    requires IsGrammatical(t) && SameListCalls(TranslateList(t.head, defaultSchema), t.head, route)
    ensures SameListCalls(TranslateHead(t, TranslateList(t.head, defaultSchema)), t.head, route)
  {
    hide MappedType, HasDispatcherCall, HasRegisteredCall;
    var head := TranslateList(t.head, defaultSchema);
    if t.tag.TypeName? && MappedType(t.head).Some? {
      LeavesDoNotCall(t.head, route);
      LeavesDoNotCall(TranslateHead(t, head), route);
    } else if t.tag == AExpr(Ilike) {
      forall i | 0 <= i < |head|
        ensures SameCalls(TranslateHead(t, head)[i], head[i], route)
      {
        if head[i].tag.Str? {
          RetagKeepsCalls(head[i], LikeOperator(head[i].tag), route);
        }
      }
      ListsOfSameCalls(TranslateHead(t, head), head, route);
    }
  }

  lemma LeavesDoNotCall(ts: seq<Tree>, route: Route)
    requires forall i :: 0 <= i < |ts| ==> Kids(ts[i]) == []
    ensures !AnyDispatcherCall(ts) && !AnyRegisteredCall(ts, route)
  {
    forall i | 0 <= i < |ts|
      ensures ts[i].head == []
    {
      assert |ts[i].head| + |ts[i].body| + |ts[i].rest| == |Kids(ts[i])| == 0;
    }
  }

  lemma {:induction false} TranslateListKeepsCalls(ts: seq<Tree>, defaultSchema: string, route: Route)
    requires forall x :: x in ts ==> IsGrammatical(x)
    ensures SameListCalls(TranslateList(ts, defaultSchema), ts, route) && SameNames(TranslateList(ts, defaultSchema), ts)
    decreases ts, 0
  {
    hide SameCalls, SameListCalls;
    forall i | 0 <= i < |ts|
      ensures SameCalls(Translate(ts[i], defaultSchema), ts[i], route)
      ensures Translate(ts[i], defaultSchema).tag == TranslateTag(ts[i].tag, defaultSchema)
    {
      TranslateKeepsCalls(ts[i], defaultSchema, route);
      TranslatedTag(ts[i], defaultSchema);
    }
    ListsOfSameCalls(TranslateList(ts, defaultSchema), ts, route);
  }

  // ---------- references survive the routing of calls ----------

  /** The parts of a call's name contain nothing, as the grammar has it. */
  predicate NamesAreLeaves(t: Tree) {
    && (t.tag.FuncCall? ==> forall i :: 0 <= i < |t.head| ==> t.head[i].tag.Str? ==> Kids(t.head[i]) == [])
    && forall i :: 0 <= i < |Kids(t)| ==> NamesAreLeaves(Kids(t)[i])
  }

  lemma NamesOfKids(t: Tree)
    requires NamesAreLeaves(t)
    ensures forall x :: x in t.head || x in t.body || x in t.rest ==> NamesAreLeaves(x)
  {
    forall x | x in Kids(t)
      ensures NamesAreLeaves(x)
    {
    }
  }

  /** Routing a call through the dispatcher names no relation and drops none. */
  lemma {:induction false} RewriteKeepsReferences(t: Tree, route: Route, owner: Option<string>, target: bool)
    requires NamesAreLeaves(t)
    ensures References(Rewrite(t, route), owner, target) == References(t, owner, target)
    decreases t, 1
  {
    hide NamesAreLeaves, IsRegisteredCall, ListReferences;
    NamesOfKids(t);
    var u := WithRewrittenKids(t, route);
    RewriteKeepsListReferences(t.head, route, owner, t.tag.Constraint?);
    RewriteKeepsListReferences(t.body, route, if t.tag.CreateStmt? then RelationSchema(t.head) else owner, false);
    RewriteKeepsListReferences(t.rest, route, owner, false);
    RewriteKeepsRelation(t, route);
    assert References(u, owner, target) == References(t, owner, target);
    if IsRegisteredCall(u, route.registry, route.defaultSchema) {
      DecisionsSurviveKids(t, route);
      RegisteredIsCall(t, route);
      DispatchedReferences(t, u, route, owner, target);
    }
  }

  lemma RewriteKeepsRelation(t: Tree, route: Route)
    ensures RelationSchema(RewriteList(t.head, route)) == RelationSchema(t.head)
  {
    hide IsRegisteredCall;
    if t.head != [] {
      assert WithRewrittenKids(t.head[0], route).tag == t.head[0].tag;
      assert RewriteList(t.head, route)[0] == RewriteNode(WithRewrittenKids(t.head[0], route), route);
      RegisteredIsCall(WithRewrittenKids(t.head[0], route), route);
    }
  }

  lemma RegisteredIsCall(t: Tree, route: Route)
    ensures IsRegisteredCall(t, route.registry, route.defaultSchema) ==> t.tag.FuncCall? && NameParts(t.head).Some?
  {
  }

  /** The routing constants and the dispatcher's name refer to nothing, and neither did the name. */
  lemma DispatchedReferences(t: Tree, u: Tree, route: Route, owner: Option<string>, target: bool)
    requires NamesAreLeaves(t) && u == WithRewrittenKids(t, route)
    requires IsRegisteredCall(t, route.registry, route.defaultSchema)
    requires References(u, owner, target) == References(t, owner, target)
    requires ListReferences(u.head, owner, false) == ListReferences(t.head, owner, false)
    ensures References(RewriteNode(u, route), owner, target) == References(t, owner, target)
  {
    hide Rewrite, NameParts, NamesAreLeaves, ListReferences, HasDispatcherCall;
    DecisionsSurviveKids(t, route);
    RegisteredIsCall(t, route);
    var d := RewriteNode(u, route);
    var constants := d.body[..3];
    assert d.body == constants + u.body;
    StringsReferToNothing(d.head, owner);
    StringsReferToNothing(constants, owner);
    PartsAreLeaves(t);
    PartsAreStrings(t.head);
    StringsReferToNothing(t.head, owner);
    ReferencesConcat(constants, u.body, owner, false);
  }

  lemma PartsAreStrings(names: seq<Tree>)
    requires NameParts(names).Some?
    ensures forall i :: 0 <= i < |names| ==> names[i].tag.Str?
  {
  }

  lemma StringsReferToNothing(ts: seq<Tree>, owner: Option<string>)
    requires forall i :: 0 <= i < |ts| ==> Kids(ts[i]) == [] && (ts[i].tag.Str? || ts[i].tag.StrConst?)
    ensures ListReferences(ts, owner, false) == []
  {
    NoReferences(ts, owner);
  }

  lemma {:induction false} ReferencesConcat(a: seq<Tree>, b: seq<Tree>, owner: Option<string>, target: bool)
    ensures ListReferences(a + b, owner, target) == ListReferences(a, owner, target) + ListReferences(b, owner, target)
  {
    if a == [] {
      assert a + b == b;
    } else {
      assert (a + b)[1..] == a[1..] + b;
      ReferencesConcat(a[1..], b, owner, target);
    }
  }

  lemma {:induction false} RewriteKeepsListReferences(ts: seq<Tree>, route: Route, owner: Option<string>, target: bool)
    requires forall x :: x in ts ==> NamesAreLeaves(x)
    ensures ListReferences(RewriteList(ts, route), owner, target) == ListReferences(ts, owner, target)
    decreases ts, 0
  {
    hide NamesAreLeaves, Rewrite, References;
    if ts != [] {
      RewriteKeepsReferences(ts[0], route, owner, target);
      RewriteKeepsListReferences(ts[1..], route, owner, target);
      assert RewriteList(ts, route)[1..] == RewriteList(ts[1..], route);
    }
  }

  // ---------- translation keeps names leaves ----------

  lemma NamesFromKids(t: Tree)
    requires t.tag.FuncCall? ==> forall i :: 0 <= i < |t.head| ==> t.head[i].tag.Str? ==> Kids(t.head[i]) == []
    requires forall x :: x in t.head || x in t.body || x in t.rest ==> NamesAreLeaves(x)
    ensures NamesAreLeaves(t)
  {
    forall i | 0 <= i < |Kids(t)|
      ensures NamesAreLeaves(Kids(t)[i])
    {
      assert Kids(t)[i] in Kids(t);
    }
  }

  lemma {:induction false} ClearKeepsNames(t: Tree, s: string)
    requires NamesAreLeaves(t)
    ensures NamesAreLeaves(Clear(t, s))
    decreases t, 1
  {
    hide NamesAreLeaves;
    NamesOfKids(t);
    PartsAreLeaves(t);
    ClearListKeepsNames(t.head, s);
    ClearListKeepsNames(t.body, s);
    ClearListKeepsNames(t.rest, s);
    var u := Clear(t, s);
    if t.tag.Constraint? && RelationSchema(t.head) == Some(s) {
      RetagKeepsNames(ClearList(t.head, s)[0], RangeVar("", t.head[0].tag.relation));
    }
    forall i | t.tag.FuncCall? && 0 <= i < |t.head| && u.head[i].tag.Str?
      ensures Kids(u.head[i]) == []
    {
      assert u.head[i] == Clear(t.head[i], s);
      ClearLeaf(t.head[i], s);
    }
    NamesFromKids(u);
  }

  lemma {:induction false} ClearListKeepsNames(ts: seq<Tree>, s: string)
    requires forall x :: x in ts ==> NamesAreLeaves(x)
    ensures forall x :: x in ClearList(ts, s) ==> NamesAreLeaves(x)
    decreases ts, 0
  {
    hide NamesAreLeaves, Clear;
    forall i | 0 <= i < |ts|
      ensures NamesAreLeaves(Clear(ts[i], s))
    {
      ClearKeepsNames(ts[i], s);
    }
  }

  lemma PartsAreLeaves(t: Tree)
    requires NamesAreLeaves(t)
    ensures t.tag.FuncCall? ==> forall i :: 0 <= i < |t.head| ==> t.head[i].tag.Str? ==> Kids(t.head[i]) == []
  {
  }

  lemma RetagKeepsNames(t: Tree, tag: Tag)
    requires NamesAreLeaves(t) && !tag.FuncCall?
    ensures NamesAreLeaves(t.(tag := tag))
  {
    NamesOfKids(t);
    NamesFromKids(t.(tag := tag));
  }

  lemma {:induction false} TranslateKeepsNames(t: Tree, defaultSchema: string)
    requires NamesAreLeaves(t)
    ensures NamesAreLeaves(Translate(t, defaultSchema))
    decreases t, 1
  {
    hide NamesAreLeaves, MappedType;
    NamesOfKids(t);
    PartsAreLeaves(t);
    TranslateListKeepsNames(t.head, defaultSchema);
    TranslateListKeepsNames(t.body, defaultSchema);
    TranslateListKeepsNames(t.rest, defaultSchema);
    var u := TranslateFields(t, defaultSchema);
    TranslatedHeadKeepsNames(t, TranslateList(t.head, defaultSchema));
    forall i | t.tag.FuncCall? && 0 <= i < |t.head| && u.head[i].tag.Str?
      ensures Kids(u.head[i]) == []
    {
      TranslatedTag(t.head[i], defaultSchema);
      TranslateLeaf(t.head[i], defaultSchema);
    }
    NamesFromKids(u);
    if u.tag.CreateStmt? && RelationSchema(u.head).Some? {
      ClearListKeepsNames(u.body, RelationSchema(u.head).value);
      NamesFromKids(ClearForeignKeys(u));
    }
  }

  lemma TranslatedHeadKeepsNames(t: Tree, head: seq<Tree>)
    requires forall x :: x in head ==> NamesAreLeaves(x)
    ensures forall x :: x in TranslateHead(t, head) ==> NamesAreLeaves(x)
  {
    hide MappedType, NamesAreLeaves;
    if t.tag.TypeName? && MappedType(t.head).Some? {
      NamesFromKids(Leaf(Str(MappedType(t.head).value)));
    } else if t.tag == AExpr(Ilike) {
      forall i | 0 <= i < |head|
        ensures NamesAreLeaves(TranslateHead(t, head)[i])
      {
        if head[i].tag.Str? {
          RetagKeepsNames(head[i], LikeOperator(head[i].tag));
        }
      }
    }
  }

  lemma {:induction false} TranslateListKeepsNames(ts: seq<Tree>, defaultSchema: string)
    requires forall x :: x in ts ==> NamesAreLeaves(x)
    ensures forall x :: x in TranslateList(ts, defaultSchema) ==> NamesAreLeaves(x)
    decreases ts, 0
  {
    hide NamesAreLeaves, Translate;
    forall i | 0 <= i < |ts|
      ensures NamesAreLeaves(Translate(ts[i], defaultSchema))
    {
      TranslateKeepsNames(ts[i], defaultSchema);
    }
  }

  // ---------- a whole statement ----------

  /** What a schema runs for a statement: the statement is rejected exactly when it calls the dispatcher
      itself; otherwise the tree that runs names the relations of the source, resolved as in the source,
      and every registered call in it means a call of its callback. */
  lemma StatementIsPreserved(t: Tree, route: Route, schemas: set<string>, e: Engine, w: World)
    requires IsGrammatical(t) && NamesAreLeaves(t)
    requires IsTopology(schemas) && route.defaultSchema in schemas
    ensures var translated := Translate(t, route.defaultSchema);
            var final := Rewrite(translated, route);
            && HasDispatcherCall(translated) == HasDispatcherCall(t)
            && (!HasDispatcherCall(t) ==>
                  && (HasDispatcherCall(final) <==> HasRegisteredCall(t, route.registry, route.defaultSchema))
                  && Evaluate(final, e, w) == Meaning(translated, e, w, route))
            && var source, target := References(t, None, false), References(final, None, false);
               && |target| == |source|
               && forall i :: 0 <= i < |source| ==> Preserved(source[i], target[i], route.defaultSchema, schemas)
  {
    hide *;
    var translated := Translate(t, route.defaultSchema);
    SameCallsHold(t, route);
    TranslateKeepsNames(t, route.defaultSchema);
    RewriteKeepsReferences(translated, route, None, false);
    ResolutionIsPreserved(t, route.defaultSchema, schemas);
    if !HasDispatcherCall(t) {
      RewritePreservesMeaning(translated, e, w, route);
      SecondRunRejectsIffChanged(translated, route);
    }
  }

  lemma SameCallsHold(t: Tree, route: Route)
    requires IsGrammatical(t)
    ensures var u := Translate(t, route.defaultSchema);
            && HasDispatcherCall(u) == HasDispatcherCall(t)
            && HasRegisteredCall(u, route.registry, route.defaultSchema)
               == HasRegisteredCall(t, route.registry, route.defaultSchema)
  {
    hide HasDispatcherCall, HasRegisteredCall, Translate;
    TranslateKeepsCalls(t, route.defaultSchema, route);
  }
}
