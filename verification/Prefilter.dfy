/** The whole function-rewriting step of one statement, and its textual fast path. */
module Prefilter {
  import opened Wrappers
  import opened Text
  import opened Ast
  import opened Overloads
  import opened FunctionRewrite
  import Dispatch

  datatype RewriteError = DoesNotParse | CallsDispatcher

  /** Nothing is registered and the text does not contain the dispatcher's name in any case. */
  predicate TakesFastPath(r: Registry, statement: string) {
    !HasAny(r) && !Contains(ToLower(statement), DISPATCH)
  }

  predicate AnyDispatcherCall(ts: seq<Tree>) {
    exists i :: 0 <= i < |ts| && HasDispatcherCall(ts[i])
  }

  predicate AnyRegisteredCall(ts: seq<Tree>, route: Route) {
    exists i :: 0 <= i < |ts| && HasRegisteredCall(ts[i], route.registry, route.defaultSchema)
  }

  /** What parsing and rewriting come to: trees to be printed, or none if the text stays. */
  function FullPath(parsed: Option<seq<Tree>>, route: Route): Result<Option<seq<Tree>>, RewriteError> {
    if parsed.None? then Err(DoesNotParse)
    else if AnyDispatcherCall(parsed.value) then Err(CallsDispatcher)
    else if AnyRegisteredCall(parsed.value, route) then Ok(Some(RewriteList(parsed.value, route)))
    else Ok(None)
  }

  /** What the whole step comes to. */
  function RewriteText(text: string, parsed: Option<seq<Tree>>, route: Route): Result<Option<seq<Tree>>, RewriteError> {
    if TakesFastPath(route.registry, text) then Ok(None) else FullPath(parsed, route)
  }

  function TreesOf(parsed: Option<seq<Message>>, trees: seq<Tree>): Option<seq<Tree>> {
    if parsed.Some? then Some(trees) else None
  }

  /** Rewrites one statement text.  `parsed` is what the parser makes of it.  Ok(false) keeps the
      text; after Ok(true) the statement is to be printed from the messages. */
  method RewriteRegisteredFunctions(
    statement: string, parsed: Option<seq<Message>>, route: Route, ghost below: set<Message>, ghost trees: seq<Tree>)
    returns (r: Result<bool, RewriteError>, ghost sent: seq<Tree>)
    requires parsed.Some? ==> IsForest(parsed.value, below) && AreTrees(parsed.value, trees)
    modifies below
    ensures match RewriteText(statement, TreesOf(parsed, trees), route)
            case Err(e) => r == Err(e)
            case Ok(None) => r == Ok(false)
            case Ok(Some(rewritten)) => r == Ok(true) && AreTrees(parsed.value, rewritten)
    ensures if |route.registry| == 0 && !Contains(ToLower(statement), DISPATCH) then r == Ok(false)
            else
              && (r == Err(DoesNotParse) <==> parsed.None?)
              && (r == Err(CallsDispatcher) <==>
                    parsed.Some? && exists i :: 0 <= i < |trees| && HasDispatcherCall(trees[i]))
              && (r == Ok(true) <==>
                    && parsed.Some? && (forall i :: 0 <= i < |trees| ==> !HasDispatcherCall(trees[i]))
                    && exists i :: 0 <= i < |trees| && HasRegisteredCall(trees[i], route.registry, route.defaultSchema))
    ensures parsed.Some? && r == Ok(true) ==> AreTrees(parsed.value, sent)
    ensures parsed.Some? && r == Ok(false) ==> sent == trees
    ensures parsed.Some? && r.Ok? && (forall i :: 0 <= i < |trees| ==> !HasDispatcherCall(trees[i])) ==>
              && |sent| == |trees|
              && forall i, e, w :: 0 <= i < |trees| ==>
                   Dispatch.Evaluate(sent[i], e, w) == Dispatch.Meaning(trees[i], e, w, route)
  {
    hide TakesFastPath, Rewrite, HasRegisteredCall, HasDispatcherCall, Message.Valid;
    sent := if parsed.Some? then trees else [];
    FastPathSpelled(statement, route);
    if TakesFastPath(route.registry, statement) {
      SentMeansSource(trees, route);
      return Ok(false), sent;
    }
    if parsed.None? {
      return Err(DoesNotParse), sent;
    }
    var ms := parsed.value;
    var changed := false;
    ghost var after := below;
    for i := 0 to |ms|
      invariant IsForest(ms, after) && fresh(after - below)
      invariant forall j :: i <= j < |ms| ==> ms[j].tree == trees[j] && ms[j].repr <= below
      invariant forall j :: 0 <= j < i ==> ms[j].tree == Rewrite(trees[j], route) && !HasDispatcherCall(trees[j])
      invariant changed <==> exists j :: 0 <= j < i && HasRegisteredCall(trees[j], route.registry, route.defaultSchema)
    {
      hide *;
      var accepted, treeChanged;
      accepted, treeChanged, after := RewriteAt(ms, i, after, route);
      if !accepted {
        assert HasDispatcherCall(trees[i]);
        return Err(CallsDispatcher), sent;
      }
      changed := changed || treeChanged;
    }
    SentMeansSource(trees, route);
    if changed {
      sent := RewriteList(trees, route);
    }
    return Ok(changed), sent;
  }

  lemma FastPathSpelled(statement: string, route: Route)
    ensures TakesFastPath(route.registry, statement)
            <==> |route.registry| == 0 && !Contains(ToLower(statement), DISPATCH)
    ensures |route.registry| == 0 ==> forall t :: !HasRegisteredCall(t, route.registry, route.defaultSchema)
  {
    forall t | |route.registry| == 0
      ensures !HasRegisteredCall(t, route.registry, route.defaultSchema)
    {
      NothingRegistered(t, route);
    }
  }

  /** Rewritten or left as they are because nothing in them is registered, trees evaluate to what they
      meant. */
  lemma SentMeansSource(ts: seq<Tree>, route: Route)
    ensures forall i, e, w :: 0 <= i < |ts| && !HasDispatcherCall(ts[i]) ==>
              && Dispatch.Evaluate(Rewrite(ts[i], route), e, w) == Dispatch.Meaning(ts[i], e, w, route)
              && (!HasRegisteredCall(ts[i], route.registry, route.defaultSchema) ==>
                    Dispatch.Evaluate(ts[i], e, w) == Dispatch.Meaning(ts[i], e, w, route))
  {
    hide *;
    forall i, e, w | 0 <= i < |ts| && !HasDispatcherCall(ts[i])
      ensures && Dispatch.Evaluate(Rewrite(ts[i], route), e, w) == Dispatch.Meaning(ts[i], e, w, route)
              && (!HasRegisteredCall(ts[i], route.registry, route.defaultSchema) ==>
                    Dispatch.Evaluate(ts[i], e, w) == Dispatch.Meaning(ts[i], e, w, route))
    {
      Dispatch.RewritePreservesMeaning(ts[i], e, w, route);
      if !HasRegisteredCall(ts[i], route.registry, route.defaultSchema) {
        UnregisteredIsUntouched(ts[i], route);
      }
    }
  }

  // ---------- the fast path against the full path ----------

  predicate Occurs(text: string, name: string) {
    Contains(ToLower(text), ToLower(name))
  }

  /** Every part of every function name stands in the text, letter for letter up to case. */
  predicate SpellsNames(text: string, t: Tree) {
    && (t.tag.FuncCall? && NameParts(t.head).Some? ==>
          forall i :: 0 <= i < |NameParts(t.head).value| ==> Occurs(text, NameParts(t.head).value[i]))
    && forall i :: 0 <= i < |Kids(t)| ==> SpellsNames(text, Kids(t)[i])
  }

  /** A function is called by a spelling of the dispatcher's name that uses a long s. */
  predicate HasLongSDispatcher(t: Tree) {
    || (IsDispatcherCall(t) && LONG_S in LastPart(t))
    || exists i :: 0 <= i < |Kids(t)| && HasLongSDispatcher(Kids(t)[i])
  }

  function LastPart(t: Tree): string
    requires IsDispatcherCall(t)
  {
    var parts := NameParts(t.head).value;
    parts[|parts| - 1]
  }

  lemma NothingRegistered(t: Tree, route: Route)
    requires !HasAny(route.registry)
    ensures !HasRegisteredCall(t, route.registry, route.defaultSchema)
  {
  }

  lemma DispatcherNameIsLower()
    ensures IsAscii(DISPATCH) && ToLower(DISPATCH) == DISPATCH
  {
  }

  lemma SpelledDispatcherHasLongS(text: string, t: Tree, r: Registry)
    requires TakesFastPath(r, text) && SpellsNames(text, t) && IsDispatcherCall(t)
    ensures LONG_S in LastPart(t)
  {
    hide EqualFold, ToLower, Contains;
    DispatcherNameIsLower();
    FoldIsLower(LastPart(t), DISPATCH);
  }

  /** Where the fast path is taken, the full path would change nothing, and it would reject exactly
      the statements that call the dispatcher by a spelling with a long s, which folds to an ASCII
      s but does not lower-case to one. */
  lemma {:induction false} FastPathAgrees(text: string, t: Tree, route: Route)
    requires TakesFastPath(route.registry, text) && SpellsNames(text, t)
    ensures Rewrite(t, route) == t
    ensures HasDispatcherCall(t) <==> HasLongSDispatcher(t)
  {
    NothingRegistered(t, route);
    UnregisteredIsUntouched(t, route);
    forall i | 0 <= i < |Kids(t)|
      ensures HasDispatcherCall(Kids(t)[i]) <==> HasLongSDispatcher(Kids(t)[i])
    {
      FastPathAgrees(text, Kids(t)[i], route);
    }
    if IsDispatcherCall(t) {
      SpelledDispatcherHasLongS(text, t, route.registry);
    }
  }

  /** The two paths have the same outcome exactly when the text parses and no such spelling is called:
      text that PostgreSQL does not parse takes the fast path, but the full path refuses it. */
  lemma FastPathIsTheFullPath(text: string, parsed: Option<seq<Tree>>, route: Route)
    requires TakesFastPath(route.registry, text)
    requires parsed.Some? ==> forall t :: t in parsed.value ==> SpellsNames(text, t)
    ensures RewriteText(text, parsed, route) == FullPath(parsed, route)
            <==> parsed.Some? && !AnyLongSDispatcher(parsed.value)
  {
    if parsed.Some? {
      FastPathLosesNothing(text, parsed.value, route);
    }
  }

  predicate AnyLongSDispatcher(ts: seq<Tree>) {
    exists i :: 0 <= i < |ts| && HasLongSDispatcher(ts[i])
  }

  lemma FastPathLosesNothing(text: string, ts: seq<Tree>, route: Route)
    requires TakesFastPath(route.registry, text) && forall t :: t in ts ==> SpellsNames(text, t)
    ensures !AnyRegisteredCall(ts, route) && RewriteList(ts, route) == ts
    ensures AnyDispatcherCall(ts) <==> AnyLongSDispatcher(ts)
  {
    forall i | 0 <= i < |ts|
      ensures !HasRegisteredCall(ts[i], route.registry, route.defaultSchema) && Rewrite(ts[i], route) == ts[i]
      ensures HasDispatcherCall(ts[i]) <==> HasLongSDispatcher(ts[i])
    {
      NothingRegistered(ts[i], route);
      FastPathAgrees(text, ts[i], route);
    }
  }

  /** Engine syntax such as a PRAGMA runs while nothing is registered and is refused once something is. */
  lemma UnparsedTextPassesTheFilter(route: Route)
    requires !HasAny(route.registry)
    ensures RewriteText("PRAGMA user_version", None, route) == Ok(None)
    ensures forall other: Route :: HasAny(other.registry) ==>
              RewriteText("PRAGMA user_version", None, other) == Err(DoesNotParse)
  {
    var text := ToLower("PRAGMA user_version");
    assert |text| < |DISPATCH|;
    assert !Contains(text, DISPATCH);
  }

  /** Every part of every function name is ASCII. */
  predicate HasAsciiNames(t: Tree) {
    && (t.tag.FuncCall? && NameParts(t.head).Some? ==>
          forall i :: 0 <= i < |NameParts(t.head).value| ==> IsAscii(NameParts(t.head).value[i]))
    && forall i :: 0 <= i < |Kids(t)| ==> HasAsciiNames(Kids(t)[i])
  }

  lemma AsciiHasNoLongS(t: Tree)
    requires HasAsciiNames(t)
    ensures !HasLongSDispatcher(t)
  {
  }

  /** A statement with such a name takes the fast path although the full path rejects it. */
  lemma LongSPassesTheFilter(text: string, t: Tree)
    requires text == ['_', '_', 'p', 'g', 'm', 'e', 'm', '_', 'd', 'i', LONG_S] + "patch_749c9c9e"
    requires t == Tree.Message(FuncCall(false, false, false, 0), [Leaf(Str(text))], [], [])
    ensures TakesFastPath(map[], text) && SpellsNames(text, t) && HasDispatcherCall(t)
  {
    assert ToLower(text)[10] == LONG_S && DISPATCH[10] == 's';
    assert ContainsAt(ToLower(text), ToLower(text), 0);
  }
}
