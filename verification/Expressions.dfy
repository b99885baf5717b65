/** What translation does to operators and to type names, read off the trees. */
module Expressions {
  import opened Wrappers
  import opened Text
  import opened Ast
  import opened Translator
  import opened RelationReferences
  import opened Resolution

  // ---------- expressions ----------

  /** An expression with its kind and the parts of its operator's name. */
  datatype Expression = Expression(kind: ExprKind, names: seq<Tag>)

  function Tags(ts: seq<Tree>): (r: seq<Tag>)
    ensures |r| == |ts|
  {
    seq(|ts|, i requires 0 <= i < |ts| => ts[i].tag)
  }

  /** The expressions of a tree, in order. */
  function Expressions(t: Tree): seq<Expression>
    decreases t, 1
  {
    (if t.tag.AExpr? then [Expression(t.tag.kind, Tags(t.head))] else [])
    + ListExpressions(t.head) + ListExpressions(t.body) + ListExpressions(t.rest)
  }

  function ListExpressions(ts: seq<Tree>): seq<Expression>
    decreases ts, 0
  {
    if ts == [] then [] else Expressions(ts[0]) + ListExpressions(ts[1..])
  }

  /** Every expression of a tree is listed. */
  lemma {:induction false} ExpressionsAreListed(t: Tree, x: Tree)
    requires Subtree(x, t) && x.tag.AExpr?
    ensures Expression(x.tag.kind, Tags(x.head)) in Expressions(t)
    decreases t
  {
    if x != t {
      var i :| 0 <= i < |Kids(t)| && Subtree(x, Kids(t)[i]);
      ExpressionsAreListed(Kids(t)[i], x);
      ListedInList(Kids(t)[i], t.head);
      ListedInList(Kids(t)[i], t.body);
      ListedInList(Kids(t)[i], t.rest);
    }
  }

  lemma {:induction false} ListedInList(x: Tree, ts: seq<Tree>)
    ensures x in ts ==> forall e :: e in Expressions(x) ==> e in ListExpressions(ts)
  {
    if ts != [] {
      ListedInList(x, ts[1..]);
    }
  }

  // ---------- what they mean ----------

  /** An operator that starts with an exclamation mark asks for the opposite of a match. */
  predicate IsNegated(operator: string) {
    operator != "" && operator[0] == '!'
  }

  /** What a pattern operator answers when the pattern matches or does not. */
  function Verdict(operator: string, matches: bool): bool {
    matches != IsNegated(operator)
  }

  predicate EndsInStar(operator: string) {
    operator != "" && operator[|operator| - 1] == '*'
  }

  /** The names the parser gives the operators of ILIKE and NOT ILIKE. */
  predicate IsIlikeOperator(tag: Tag) {
    tag == Str("~~*") || tag == Str("!~~*")
  }

  /** An operator of an ILIKE loses its star and keeps what it answers; another name stays. */
  predicate IsRenamed(name: Tag, renamed: Tag) {
    if IsIlikeOperator(name) then
      && renamed.Str? && !EndsInStar(renamed.sval) && renamed.sval + "*" == name.sval
      && forall matches :: Verdict(renamed.sval, matches) == Verdict(name.sval, matches)
    else renamed == name
  }

  /** What translation makes of one expression: an ILIKE becomes a LIKE that is negated exactly if the
      ILIKE was; any other stays as it is. */
  predicate IsTranslated(e: Expression, u: Expression) {
    if e.kind != Ilike then u == e
    else u.kind == Like && |u.names| == |e.names| && forall i :: 0 <= i < |e.names| ==> IsRenamed(e.names[i], u.names[i])
  }

  lemma LikeOperatorIsRenamed(tag: Tag)
    ensures IsRenamed(tag, LikeOperator(tag))
  {
    assert "~~" + "*" == "~~*" && "!~~" + "*" == "!~~*";
  }

  predicate AreTranslated(es: seq<Expression>, us: seq<Expression>) {
    |es| == |us| && forall i :: 0 <= i < |es| ==> IsTranslated(es[i], us[i])
  }

  /** The names of operators and types consist of strings, as the grammar has it. */
  predicate HasStringNames(t: Tree) {
    && (t.tag.AExpr? || t.tag.TypeName? ==> forall i :: 0 <= i < |t.head| ==> t.head[i].tag.Str?)
    && forall i :: 0 <= i < |Kids(t)| ==> HasStringNames(Kids(t)[i])
  }

  lemma NamedInKids(t: Tree)
    requires HasStringNames(t)
    ensures forall x :: x in t.head || x in t.body || x in t.rest ==> HasStringNames(x)
  {
    forall x | x in Kids(t)
      ensures HasStringNames(x)
    {
    }
  }

  lemma ConcatTranslated(a: seq<Expression>, u: seq<Expression>, b: seq<Expression>, v: seq<Expression>)
    requires AreTranslated(a, u) && AreTranslated(b, v)
    ensures AreTranslated(a + b, u + v)
  {
    hide IsTranslated;
  }

  lemma LeavesHaveNone(ts: seq<Tree>)
    requires forall i :: 0 <= i < |ts| ==> Kids(ts[i]) == [] && !ts[i].tag.AExpr?
    ensures ListExpressions(ts) == []
  {
    if ts != [] {
      assert |ts[0].head| + |ts[0].body| + |ts[0].rest| == |Kids(ts[0])| == 0;
    }
  }

  lemma {:induction false} RetaggedExpressions(ts: seq<Tree>, us: seq<Tree>)
    requires |us| == |ts|
    requires forall i :: 0 <= i < |ts| ==> us[i] == ts[i] || (us[i] == ts[i].(tag := us[i].tag) && !us[i].tag.AExpr? && !ts[i].tag.AExpr?)
    ensures ListExpressions(us) == ListExpressions(ts)
  {
    if ts != [] {
      RetaggedExpressions(ts[1..], us[1..]);
    }
  }

  // ---------- clearing changes no expression ----------

  lemma {:induction false} ClearKeepsExpressions(t: Tree, s: string)
    ensures Expressions(Clear(t, s)) == Expressions(t)
    decreases t, 1
  {
    ClearListKeepsExpressions(t.head, s);
    ClearListKeepsExpressions(t.body, s);
    ClearListKeepsExpressions(t.rest, s);
    if t.tag.Constraint? {
      RetaggedExpressions(ClearList(t.head, s), Clear(t, s).head);
    } else {
      assert Tags(ClearList(t.head, s)) == Tags(t.head);
    }
  }

  lemma {:induction false} ClearListKeepsExpressions(ts: seq<Tree>, s: string)
    ensures ListExpressions(ClearList(ts, s)) == ListExpressions(ts)
    decreases ts, 0
  {
    if ts != [] {
      ClearKeepsExpressions(ts[0], s);
      ClearListKeepsExpressions(ts[1..], s);
      assert ClearList(ts, s)[1..] == ClearList(ts[1..], s);
    }
  }

  // ---------- translation ----------

  /** Every expression is translated in its place; none is added or dropped. */
  lemma {:induction false} ExpressionsAreTranslated(t: Tree, defaultSchema: string)
    requires IsGrammatical(t) && HasStringNames(t)
    ensures AreTranslated(Expressions(t), Expressions(Translate(t, defaultSchema)))
    decreases t, 1
  {
    hide IsGrammatical, HasStringNames, MappedType, IsTranslated, AreTranslated, HasNoCreate;
    KidsOf(t);
    NamedInKids(t);
    var u := TranslateFields(t, defaultSchema);
    ListIsTranslated(t.head, defaultSchema);
    ListIsTranslated(t.body, defaultSchema);
    ListIsTranslated(t.rest, defaultSchema);
    HeadIsTranslated(t, defaultSchema);
    var own, ownU := OwnExpression(t), OwnExpression(u);
    ConcatTranslated(own, ownU, ListExpressions(t.head), ListExpressions(u.head));
    ConcatTranslated(own + ListExpressions(t.head), ownU + ListExpressions(u.head), ListExpressions(t.body), ListExpressions(u.body));
    ConcatTranslated(own + ListExpressions(t.head) + ListExpressions(t.body),
                     ownU + ListExpressions(u.head) + ListExpressions(u.body), ListExpressions(t.rest), ListExpressions(u.rest));
    if u.tag.CreateStmt? && RelationSchema(u.head).Some? {
      ClearListKeepsExpressions(u.body, RelationSchema(u.head).value);
    }
  }

  function OwnExpression(t: Tree): seq<Expression> {
    if t.tag.AExpr? then [Expression(t.tag.kind, Tags(t.head))] else []
  }

  lemma HeadIsTranslated(t: Tree, defaultSchema: string)
    requires IsGrammatical(t) && HasStringNames(t)
    requires AreTranslated(ListExpressions(t.head), ListExpressions(TranslateList(t.head, defaultSchema)))
    ensures var u := TranslateFields(t, defaultSchema);
            && AreTranslated(ListExpressions(t.head), ListExpressions(u.head))
            && AreTranslated(OwnExpression(t), OwnExpression(u))
  {
    hide MappedType, IsRenamed, Expressions, LikeOperator;
    var u, head := TranslateFields(t, defaultSchema), TranslateList(t.head, defaultSchema);
    forall i | 0 <= i < |t.head|
      ensures head[i].tag == TranslateTag(t.head[i].tag, defaultSchema)
    {
      TranslatedTag(t.head[i], defaultSchema);
    }
    if t.tag == AExpr(Ilike) {
      OperatorsAreStrings(t.head, u.head, head);
      RetaggedExpressions(head, u.head);
    } else if t.tag.TypeName? && MappedType(t.head).Some? {
      LeavesHaveNone(u.head);
      LeavesHaveNone(t.head);
    } else if t.tag.AExpr? {
      assert Tags(u.head) == Tags(t.head);
    }
  }

  lemma OperatorsAreStrings(names: seq<Tree>, renamed: seq<Tree>, head: seq<Tree>)
    requires |names| == |renamed| == |head|
    requires forall i :: 0 <= i < |names| ==>
               names[i].tag.Str? && head[i].tag == names[i].tag && renamed[i] == head[i].(tag := LikeOperator(head[i].tag))
    ensures forall i :: 0 <= i < |names| ==> renamed[i].tag.Str? && IsRenamed(names[i].tag, renamed[i].tag)
  {
    forall i | 0 <= i < |names|
      ensures renamed[i].tag.Str? && IsRenamed(names[i].tag, renamed[i].tag)
    {
      LikeOperatorIsRenamed(names[i].tag);
    }
  }

  lemma {:induction false} ListIsTranslated(ts: seq<Tree>, defaultSchema: string)
    requires forall x :: x in ts ==> IsGrammatical(x) && HasStringNames(x)
    ensures AreTranslated(ListExpressions(ts), ListExpressions(TranslateList(ts, defaultSchema)))
    decreases ts, 0
  {
    hide IsTranslated;
    if ts != [] {
      ExpressionsAreTranslated(ts[0], defaultSchema);
      ListIsTranslated(ts[1..], defaultSchema);
      assert TranslateList(ts, defaultSchema)[1..] == TranslateList(ts[1..], defaultSchema);
      ConcatTranslated(Expressions(ts[0]), Expressions(Translate(ts[0], defaultSchema)),
                       ListExpressions(ts[1..]), ListExpressions(TranslateList(ts[1..], defaultSchema)));
    }
  }

  // ---------- types ----------

  /** What the values of a type are. */
  datatype Storage = Integers | Bytes | Documents | Instants | Characters

  /** The values of the PostgreSQL types that are replaced. */
  function PostgresStorage(name: string): Option<Storage> {
    if name in {"int2", "int4", "int8", "serial", "serial2", "serial4", "serial8", "smallserial", "bigserial"} then Some(Integers)
    else if name == "bytea" then Some(Bytes)
    else if name == "jsonb" then Some(Documents)
    else if name == "timestamptz" then Some(Instants)
    else if name == "uuid" then Some(Characters)
    else None
  }

  /** The values the engine keeps under a declared type. */
  function EngineStorage(name: string): Option<Storage> {
    if name == "integer" then Some(Integers)
    else if name == "blob" then Some(Bytes)
    else if name == "json" then Some(Documents)
    else if name == "timestamp" then Some(Instants)
    else if name == "text" then Some(Characters)
    else None
  }

  /** The last part of its name decides, in any case, whether a type is replaced, and the replacement is
      the one type under which the engine keeps the same values. */
  lemma TypesKeepTheirStorage(names: seq<Tree>, name: string)
    requires names != [] && names[|names| - 1].tag == Str(name)
    ensures MappedType(names).Some? <==> PostgresStorage(ToLower(name)).Some?
    ensures MappedType(names).Some? ==> EngineStorage(MappedType(names).value) == PostgresStorage(ToLower(name))
  {
    hide ToLower;
  }

  /** A type name is translated by replacing it as a whole, or not at all. */
  lemma TypeIsReplaced(t: Tree, defaultSchema: string, name: string)
    requires t.tag.TypeName? && t.head != [] && t.head[|t.head| - 1].tag == Str(name)
    requires HasStringNames(t)
    ensures var u := Translate(t, defaultSchema);
            && u.tag == t.tag
            && if PostgresStorage(ToLower(name)).None? then Tags(u.head) == Tags(t.head)
               else exists s :: u.head == [Leaf(Str(s))] && EngineStorage(s) == PostgresStorage(ToLower(name))
  {
    hide ToLower, PostgresStorage, EngineStorage, MappedType;
    TypesKeepTheirStorage(t.head, name);
    var head := TranslateList(t.head, defaultSchema);
    forall i | 0 <= i < |t.head|
      ensures head[i].tag == t.head[i].tag
    {
      TranslatedTag(t.head[i], defaultSchema);
    }
    if MappedType(t.head).Some? {
      assert Translate(t, defaultSchema).head == [Leaf(Str(MappedType(t.head).value))];
    }
  }
}
