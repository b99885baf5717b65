/** The translation as it runs: in place, over message objects. */
module TranslateInPlace {
  import opened Wrappers
  import opened Text
  import opened Ast
  import opened Translator

  // ---------- changing the tag of a child ----------

  function Retag(t: Tree, i: nat, tag: Tag): Tree
    requires i < |t.head|
  {
    t.(head := t.head[i := t.head[i].(tag := tag)])
  }

  lemma RetaggedTrees(ms: seq<Message>, t: Tree, i: nat, tag: Tag)
    requires i < |t.head| && |ms| == |Kids(t)| && ms[i].tree == t.head[i].(tag := tag)
    requires forall j :: 0 <= j < |ms| && j != i ==> ms[j].tree == Kids(t)[j]
    ensures AreTrees(ms, Kids(Retag(t, i, tag)))
    ensures var u := Retag(t, i, tag); u.tag == t.tag && |u.head| == |t.head| && |u.body| == |t.body|
  {
  }

  /** Gives one child in the head field of `m` a new tag. */
  method RetagHead(m: Message, i: nat, tag: Tag)
    requires m.Valid() && i < m.heads
    modifies m, m.kids[i]
    ensures m.Valid() && m.repr == old(m.repr) && m.tree == Retag(old(m.tree), i, tag)
    ensures m.tag == old(m.tag) && m.kids == old(m.kids) && m.heads == old(m.heads) && m.bodies == old(m.bodies)
  {
    hide *;
    OpenMessage(m);
    ghost var before := m.tree;
    RetagInForest(m.kids, i, m.repr - {m}, tag);
    RetaggedTrees(m.kids, before, i, tag);
    m.Assign(m.tag, m.kids, m.heads, m.bodies, Retag(before, i, tag), m.repr - {m});
  }

  /** Gives one tree of a forest a new tag and leaves the others alone. */
  method RetagInForest(ms: seq<Message>, i: nat, ghost below: set<Message>, tag: Tag)
    requires i < |ms| && IsForest(ms, below)
    modifies ms[i]
    ensures IsForest(ms, below) && ms[i].tree == old(ms[i].tree).(tag := tag)
    ensures forall j :: 0 <= j < |ms| && j != i ==> ms[j].tree == old(ms[j].tree)
    ensures ms[i].tag == tag
  {
    hide Message.Valid, Kids;
    var k := ms[i];
    OpenMessage(k);
    SameKids(k.tree, tag);
    k.Assign(tag, k.kids, k.heads, k.bodies, k.tree.(tag := tag), k.repr - {k});
  }

  lemma SameKids(t: Tree, tag: Tag)
    ensures Kids(t.(tag := tag)) == Kids(t)
  {
  }

  // ---------- clearing foreign keys ----------

  /** What clearing does to a message before it visits its children. */
  function ClearOwnTarget(t: Tree, tableSchema: string): Tree {
    if t.tag.Constraint? && RelationSchema(t.head) == Some(tableSchema)
    then Retag(t, 0, RangeVar("", t.head[0].tag.relation))
    else t
  }

  function ClearKids(t: Tree, tableSchema: string): Tree {
    Tree.Message(t.tag, ClearList(t.head, tableSchema), ClearList(t.body, tableSchema), ClearList(t.rest, tableSchema))
  }

  lemma ClearOwnTargetFirst(t: Tree, tableSchema: string)
    ensures ClearKids(ClearOwnTarget(t, tableSchema), tableSchema) == Clear(t, tableSchema)
  {
    var u := ClearOwnTarget(t, tableSchema);
    forall i | 0 <= i < |t.head|
      ensures ClearList(u.head, tableSchema)[i] == Clear(t, tableSchema).head[i]
    {
      ClearKeepsRangeVarTag(t.head[i], tableSchema, u.head[i].tag);
    }
    assert ClearList(u.head, tableSchema) == Clear(t, tableSchema).head;
  }

  lemma ClearKeepsRangeVarTag(t: Tree, tableSchema: string, tag: Tag)
    ensures t.tag.RangeVar? && tag.RangeVar? ==>
              Clear(t.(tag := tag), tableSchema) == Clear(t, tableSchema).(tag := tag)
  {
  }

  lemma ClearedKidTrees(ms: seq<Message>, t: Tree, tableSchema: string)
    requires |ms| == |Kids(t)| && forall j :: 0 <= j < |ms| ==> ms[j].tree == Clear(Kids(t)[j], tableSchema)
    ensures AreTrees(ms, Kids(ClearKids(t, tableSchema)))
    ensures var u := ClearKids(t, tableSchema); u.tag == t.tag && |u.head| == |t.head| && |u.body| == |t.body|
  {
    assert Kids(ClearKids(t, tableSchema)) == ClearList(Kids(t), tableSchema);
  }

  method ClearAt(ms: seq<Message>, i: nat, ghost below: set<Message>, tableSchema: string)
    requires i < |ms| && IsForest(ms, below)
    modifies ms[i].repr
    ensures IsForest(ms, below) && ms[i].tree == Clear(old(ms[i].tree), tableSchema)
    ensures forall j :: 0 <= j < |ms| && j != i ==> ms[j].tree == old(ms[j].tree)
    ensures forall j :: 0 <= j < |ms| ==> ms[j].repr == old(ms[j].repr)
    ensures forall j :: 0 <= j < |ms| && j != i ==> unchanged(ms[j])
    decreases ms[i].repr, 1
  {
    hide Clear, Message.Valid;
    ClearSameSchemaForeignKeyQualifiers(ms[i], tableSchema);
  }

  /** Clears the trees of a forest, in any order at all. */
  method ClearEach(ms: seq<Message>, ghost below: set<Message>, ghost trees: seq<Tree>, tableSchema: string)
    requires IsForest(ms, below) && AreTrees(ms, trees)
    modifies below
    ensures IsForest(ms, below)
    ensures forall j :: 0 <= j < |ms| ==> ms[j].tree == Clear(trees[j], tableSchema)
    decreases below, 2
  {
    hide Clear, Message.Valid;
    var pending := Positions(|ms|);
    while pending != {}
      invariant forall j :: j in pending ==> 0 <= j < |ms|
      invariant IsForest(ms, below)
      invariant forall j :: 0 <= j < |ms| ==>
                  ms[j].tree == if j in pending then trees[j] else Clear(trees[j], tableSchema)
    {
      var i :| i in pending;
      pending := pending - {i};
      ClearAt(ms, i, below, tableSchema);
    }
  }

  /** clearSameSchemaForeignKeyQualifiers, in place.  The outcome does not depend on the order in
      which the children are visited. */
  method ClearSameSchemaForeignKeyQualifiers(m: Message, tableSchema: string)
    requires m.Valid()
    modifies m.repr
    ensures m.Valid() && m.repr == old(m.repr) && m.tree == Clear(old(m.tree), tableSchema) && m.tag == old(m.tag)
    decreases m.repr, 0
  {
    hide *;
    OpenMessage(m);
    ghost var before := m.tree;
    ClearTargetOf(m, tableSchema);
    OpenMessage(m);
    ghost var middle := m.tree;
    ClearEach(m.kids, m.repr - {m}, Kids(middle), tableSchema);
    ClearedKidTrees(m.kids, middle, tableSchema);
    ClearOwnTargetFirst(before, tableSchema);
    m.Assign(m.tag, m.kids, m.heads, m.bodies, ClearKids(middle, tableSchema), m.repr - {m});
  }

  method ClearTargetOf(m: Message, tableSchema: string)
    requires m.Valid()
    modifies m.repr
    ensures m.Valid() && m.repr == old(m.repr) && m.tree == ClearOwnTarget(old(m.tree), tableSchema) && m.tag == old(m.tag)
  {
    OpenMessage(m);
    if m.tag.Constraint? && m.heads > 0 {
      OpenMessage(m.kids[0]);
      var target := m.kids[0].tag;
      if target.RangeVar? && target.schema == tableSchema {
        RetagHead(m, 0, RangeVar("", target.relation));
      }
    }
  }

  // ---------- translating ----------

  /** How many messages a tree consists of; the measure of the recursion. */
  function Size(t: Tree): nat
    decreases t, 1
  {
    1 + ListSize(t.head) + ListSize(t.body) + ListSize(t.rest)
  }

  function ListSize(ts: seq<Tree>): nat
    decreases ts, 0
  {
    if ts == [] then 0 else Size(ts[0]) + ListSize(ts[1..])
  }

  lemma {:induction false} MemberIsSmaller(ts: seq<Tree>, x: Tree)
    requires x in ts
    ensures Size(x) <= ListSize(ts)
  {
    if x != ts[0] {
      MemberIsSmaller(ts[1..], x);
    }
  }

  lemma KidsAreSmaller(t: Tree)
    ensures forall x :: x in Kids(t) ==> Size(x) < Size(t)
  {
    forall x | x in Kids(t)
      ensures Size(x) < Size(t)
    {
      if x in t.head {
        MemberIsSmaller(t.head, x);
      } else if x in t.body {
        MemberIsSmaller(t.body, x);
      } else {
        MemberIsSmaller(t.rest, x);
      }
    }
  }

  lemma {:induction false} RenamedSize(ts: seq<Tree>, us: seq<Tree>)
    requires |ts| == |us| && forall i :: 0 <= i < |ts| ==> us[i] == ts[i].(tag := us[i].tag)
    ensures ListSize(us) == ListSize(ts)
  {
    if ts != [] {
      RenamedSize(ts[1..], us[1..]);
    }
  }

  lemma OwnNodeDoesNotGrow(t: Tree, defaultSchema: string)
    ensures 1 <= Size(TranslateOwnNode(t, defaultSchema)) <= Size(t)
  {
    hide MappedType, LikeOperator;
    var u := TranslateOwnNode(t, defaultSchema);
    if t.tag == AExpr(Ilike) {
      RenamedSize(t.head, u.head);
    } else if t.tag.TypeName? && MappedType(t.head).Some? {
      MappedNamesExist(t.head);
      assert ListSize(u.head) == Size(u.head[0]) + ListSize(u.head[1..]) == 1;
    }
  }

  lemma MappedNamesExist(names: seq<Tree>)
    requires MappedType(names).Some?
    ensures names != [] && ListSize(names) >= 1
  {
  }

  /** What the translation does to a message before it visits its children. */
  function TranslateOwnNode(t: Tree, defaultSchema: string): Tree {
    match t.tag
    case RangeVar(_, _) => t.(tag := TranslateTag(t.tag, defaultSchema))
    case TypeName => if MappedType(t.head).Some? then t.(head := [Leaf(Str(MappedType(t.head).value))]) else t
    case AExpr(kind) => if kind == Ilike then RenameOperators(t, |t.head|).(tag := AExpr(Like)) else t
    case _ => t
  }

  /** The first `n` names of an expression's operator, renamed. */
  function RenameOperators(t: Tree, n: nat): Tree {
    t.(head := seq(|t.head|, i requires 0 <= i < |t.head| =>
                 if i < n then t.head[i].(tag := LikeOperator(t.head[i].tag)) else t.head[i]))
  }

  function TranslateKids(t: Tree, defaultSchema: string): Tree {
    Tree.Message(t.tag, TranslateList(t.head, defaultSchema), TranslateList(t.body, defaultSchema),
                 TranslateList(t.rest, defaultSchema))
  }

  lemma RenamedThenTranslated(t: Tree, defaultSchema: string)
    ensures Translate(t.(tag := LikeOperator(t.tag)), defaultSchema)
            == Translate(t, defaultSchema).(tag := LikeOperator(Translate(t, defaultSchema).tag))
  {
  }

  lemma TranslateOwnNodeFirst(t: Tree, defaultSchema: string)
    ensures TranslateKids(TranslateOwnNode(t, defaultSchema), defaultSchema) == TranslateFields(t, defaultSchema)
  {
    hide MappedType, LikeOperator;
    var u := TranslateOwnNode(t, defaultSchema);
    if t.tag == AExpr(Ilike) {
      forall i | 0 <= i < |t.head|
        ensures TranslateList(u.head, defaultSchema)[i] == TranslateFields(t, defaultSchema).head[i]
      {
        RenamedThenTranslated(t.head[i], defaultSchema);
      }
      assert TranslateList(u.head, defaultSchema) == TranslateFields(t, defaultSchema).head;
    } else if t.tag.TypeName? && MappedType(t.head).Some? {
      TranslatedLeaf(MappedType(t.head).value, defaultSchema);
      assert TranslateList(u.head, defaultSchema) == u.head;
    }
  }

  lemma TranslatedLeaf(s: string, defaultSchema: string)
    ensures Translate(Leaf(Str(s)), defaultSchema) == Leaf(Str(s))
  {
    assert Translate(Leaf(Str(s)), defaultSchema).head == [];
  }

  lemma TranslatedKidTrees(ms: seq<Message>, t: Tree, defaultSchema: string)
    requires |ms| == |Kids(t)| && forall j :: 0 <= j < |ms| ==> ms[j].tree == Translate(Kids(t)[j], defaultSchema)
    ensures AreTrees(ms, Kids(TranslateKids(t, defaultSchema)))
    ensures var u := TranslateKids(t, defaultSchema); u.tag == t.tag && |u.head| == |t.head| && |u.body| == |t.body|
  {
    assert Kids(TranslateKids(t, defaultSchema)) == TranslateList(Kids(t), defaultSchema);
  }

  /** Replaces the name of a type by a single storage type. */
  method ReplaceTypeName(m: Message, mapped: string)
    requires m.Valid()
    modifies m
    ensures m.Valid() && fresh(m.repr - old(m.repr)) && m.tree == old(m.tree).(head := [Leaf(Str(mapped))])
    ensures m.tag == old(m.tag)
  {
    hide *;
    OpenMessage(m);
    ghost var before, below := m.tree, m.repr - {m};
    ghost var after := before.(head := [Leaf(Str(mapped))]);
    var tags := [Str(mapped)];
    var names := MakeLeaves(tags);
    assert seq(|tags|, i requires 0 <= i < |tags| => Leaf(tags[i])) == [Leaf(Str(mapped))];
    DropFromForest(m.kids, below, Kids(before), m.heads);
    KidsAfterHead(before);
    AddLeavesToForest(names, [Leaf(Str(mapped))], m.kids[m.heads..], below, before.body + before.rest);
    KidsWithHead(before, [Leaf(Str(mapped))]);
    m.Assign(m.tag, names + m.kids[m.heads..], 1, m.bodies, after, below + set x | x in names);
  }

  lemma KidsWithHead(t: Tree, head: seq<Tree>)
    ensures Kids(t.(head := head)) == head + (t.body + t.rest)
  {
  }

  lemma NextOperator(t: Tree, i: nat)
    requires i < |t.head|
    ensures var u := RenameOperators(t, i);
            && |u.head| == |t.head| && u.head[i] == t.head[i]
            && Retag(u, i, LikeOperator(t.head[i].tag)) == RenameOperators(t, i + 1)
  {
    hide LikeOperator;
  }

  /** Renames the operator of an ILIKE expression. */
  method RenameLikeOperators(m: Message)
    requires m.Valid()
    modifies m.repr
    ensures m.Valid() && m.repr == old(m.repr) && m.tree == RenameOperators(old(m.tree), |old(m.tree).head|)
    ensures m.tag == old(m.tag)
  {
    ghost var before := m.tree;
    OpenMessage(m);
    assert RenameOperators(before, 0) == before;
    for i := 0 to m.heads
      invariant m.Valid() && m.repr == old(m.repr) && m.heads == |before.head| && m.tag == old(m.tag)
      invariant m.tree == RenameOperators(before, i)
    {
      hide *;
      OpenMessage(m);
      OpenMessage(m.kids[i]);
      NextOperator(before, i);
      RetagHead(m, i, LikeOperator(m.kids[i].tag));
    }
  }

  method RewriteOwnNode(m: Message, defaultSchema: string)
    requires m.Valid()
    modifies m.repr
    ensures m.Valid() && fresh(m.repr - old(m.repr)) && m.tree == TranslateOwnNode(old(m.tree), defaultSchema)
  {
    hide Message.Valid, Kids, LikeOperator;
    OpenMessage(m);
    ghost var before := m.tree;
    match m.tag {
      case RangeVar(schema, relation) =>
        SameKids(m.tree, RangeVar(Qualify(schema, defaultSchema), relation));
        m.Assign(RangeVar(Qualify(schema, defaultSchema), relation), m.kids, m.heads, m.bodies,
                 TranslateOwnNode(before, defaultSchema), m.repr - {m});
      case TypeName =>
        if m.heads > 0 {
          OpenMessage(m.kids[m.heads - 1]);
          var last := m.kids[m.heads - 1].tag;
          if last.Str? && ToLower(last.sval) in TYPE_NAMES {
            ReplaceTypeName(m, TYPE_NAMES[ToLower(last.sval)]);
          }
        }
      case AExpr(kind) =>
        if kind == Ilike {
          RenameLikeOperators(m);
          OpenMessage(m);
          SameKids(m.tree, AExpr(Like));
          m.Assign(AExpr(Like), m.kids, m.heads, m.bodies, TranslateOwnNode(before, defaultSchema), m.repr - {m});
        }
      case _ =>
    }
  }

  /** The first `n` table elements of a CREATE TABLE, cleared. */
  function ClearElements(t: Tree, n: nat, tableSchema: string): Tree {
    t.(body := seq(|t.body|, i requires 0 <= i < |t.body| => if i < n then Clear(t.body[i], tableSchema) else t.body[i]))
  }

  lemma ClearedElementTrees(ms: seq<Message>, t: Tree, n: nat, tableSchema: string)
    requires n < |t.body| && |ms| == |Kids(t)|
    requires ms[|t.head| + n].tree == Clear(t.body[n], tableSchema)
    requires forall j :: 0 <= j < |ms| && j != |t.head| + n ==> ms[j].tree == Kids(ClearElements(t, n, tableSchema))[j]
    ensures AreTrees(ms, Kids(ClearElements(t, n + 1, tableSchema)))
  {
  }

  lemma ClearElementsFields(t: Tree, n: nat, tableSchema: string)
    ensures var u := ClearElements(t, n, tableSchema);
            && u.tag == t.tag && u.head == t.head && |u.body| == |t.body| && |Kids(u)| == |Kids(t)|
            && (n < |t.body| ==> Kids(u)[|t.head| + n] == t.body[n])
            && (n == 0 ==> u == t)
            && (n == |t.body| ==> u == t.(body := ClearList(t.body, tableSchema)))
  {
  }

  /** Clears the foreign keys in the elements of a message, element by element. */
  method ClearElementsOf(m: Message, schema: string)
    requires m.Valid()
    modifies m.repr
    ensures m.Valid() && m.repr == old(m.repr) && m.tree == old(m.tree).(body := ClearList(old(m.tree).body, schema))
  {
    hide *;
    ghost var before := m.tree;
    OpenMessage(m);
    ClearElementsFields(before, 0, schema);
    for i := 0 to m.bodies
      invariant m.Valid() && m.repr == old(m.repr) && m.tree == ClearElements(before, i, schema)
      invariant m.bodies == |before.body| && m.heads == |before.head|
    {
      OpenMessage(m);
      ClearElementsFields(before, i, schema);
      ClearAt(m.kids, m.heads + i, m.repr - {m}, schema);
      ClearedElementTrees(m.kids, before, i, schema);
      ClearElementsFields(before, i + 1, schema);
      m.Assign(m.tag, m.kids, m.heads, m.bodies, ClearElements(before, i + 1, schema), m.repr - {m});
    }
    ClearElementsFields(before, m.bodies, schema);
  }

  /** Clears the foreign keys of a CREATE TABLE that stay in the table's schema. */
  method ClearTableElements(m: Message)
    requires m.Valid()
    modifies m.repr
    ensures m.Valid() && m.repr == old(m.repr) && m.tree == ClearForeignKeys(old(m.tree))
  {
    hide Message.Valid, Kids, ClearList;
    OpenMessage(m);
    if m.tag.CreateStmt? && m.heads > 0 {
      OpenMessage(m.kids[0]);
      if m.kids[0].tag.RangeVar? {
        ClearElementsOf(m, m.kids[0].tag.schema);
      }
    }
  }

  method TranslateAt(ms: seq<Message>, i: nat, ghost before: set<Message>, defaultSchema: string)
    returns (ghost after: set<Message>)
    requires i < |ms| && IsForest(ms, before)
    modifies ms[i].repr
    ensures ms[i].tree == Translate(old(ms[i].tree), defaultSchema)
    ensures IsForest(ms, after) && before <= after && fresh(after - before)
    ensures forall j :: 0 <= j < |ms| && j != i ==> ms[j].tree == old(ms[j].tree) && ms[j].repr == old(ms[j].repr)
    decreases Size(ms[i].tree), 1
  {
    hide Translate, Message.Valid;
    RewritePostgreSQLTree(ms[i], defaultSchema);
    after := before + ms[i].repr;
    OpenMessage(ms[i]);
  }

  /** Translates the trees of a forest, in any order at all. */
  method TranslateEach(ms: seq<Message>, ghost before: set<Message>, ghost trees: seq<Tree>, ghost bound: nat,
                       defaultSchema: string)
    returns (ghost after: set<Message>)
    requires IsForest(ms, before) && AreTrees(ms, trees) && forall x :: x in trees ==> Size(x) <= bound
    modifies before
    ensures IsForest(ms, after) && before <= after && fresh(after - before)
    ensures forall j :: 0 <= j < |ms| ==> ms[j].tree == Translate(trees[j], defaultSchema)
    decreases bound, 2
  {
    hide Translate, Size, Message.Valid;
    var pending := Positions(|ms|);
    after := before;
    while pending != {}
      invariant forall j :: j in pending ==> 0 <= j < |ms|
      invariant IsForest(ms, after) && before <= after && fresh(after - before)
      invariant forall j :: j in pending ==> ms[j].tree == trees[j] && ms[j].repr <= before
      invariant forall j :: 0 <= j < |ms| && j !in pending ==> ms[j].tree == Translate(trees[j], defaultSchema)
    {
      hide IsForest;
      var i :| i in pending;
      pending := pending - {i};
      after := TranslateAt(ms, i, after, defaultSchema);
    }
  }

  /** rewritePostgreSQLTree, in place.  The outcome does not depend on the order in which the
      children are visited, although clearing reads a qualifier the visit has rewritten. */
  method RewritePostgreSQLTree(m: Message, defaultSchema: string)
    requires m.Valid()
    modifies m.repr
    ensures m.Valid() && fresh(m.repr - old(m.repr)) && m.tree == Translate(old(m.tree), defaultSchema)
    decreases Size(m.tree), 0
  {
    hide *;
    ghost var before := m.tree;
    OwnNodeDoesNotGrow(before, defaultSchema);
    RewriteOwnNode(m, defaultSchema);
    OpenMessage(m);
    ghost var middle := m.tree;
    KidsAreSmaller(middle);
    ghost var below := TranslateEach(m.kids, m.repr - {m}, Kids(middle), Size(before) - 1, defaultSchema);
    TranslatedKidTrees(m.kids, middle, defaultSchema);
    m.Assign(m.tag, m.kids, m.heads, m.bodies, TranslateKids(middle, defaultSchema), below);
    TranslateOwnNodeFirst(before, defaultSchema);
    ClearTableElements(m);
    TranslateIsClearingLast(before, defaultSchema);
  }

  lemma TranslateIsClearingLast(t: Tree, defaultSchema: string)
    ensures Translate(t, defaultSchema) == ClearForeignKeys(TranslateFields(t, defaultSchema))
  {
  }
}
