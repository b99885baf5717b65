/** The PostgreSQL-to-SQLite rewrite of a statement tree, on values. */
module Translator {
  import opened Wrappers
  import opened Text
  import opened Ast

  // ---------- single nodes ----------

  /** The qualifier a relation reference gets. */
  function Qualify(schema: string, defaultSchema: string): string {
    if schema == "public" then "main"
    else if schema == "" && defaultSchema == "public" then "main"
    else if schema == "" then defaultSchema
    else schema
  }

  const TYPE_NAMES: map<string, string> := map[
    "bigserial" := "integer",
    "bytea" := "blob",
    "int2" := "integer",
    "int4" := "integer",
    "int8" := "integer",
    "jsonb" := "json",
    "serial" := "integer",
    "serial2" := "integer",
    "serial4" := "integer",
    "serial8" := "integer",
    "smallserial" := "integer",
    "timestamptz" := "timestamp",
    "uuid" := "text"
  ]

  /** The storage type a type name is replaced by, if its last part is mapped. */
  function MappedType(names: seq<Tree>): Option<string> {
    if |names| > 0 && names[|names| - 1].tag.Str? && ToLower(names[|names| - 1].tag.sval) in TYPE_NAMES
    then Some(TYPE_NAMES[ToLower(names[|names| - 1].tag.sval)])
    else None
  }

  function LikeOperator(tag: Tag): Tag {
    if tag == Str("~~*") then Str("~~")
    else if tag == Str("!~~*") then Str("!~~")
    else tag
  }

  function TranslateTag(tag: Tag, defaultSchema: string): Tag {
    match tag
    case RangeVar(schema, relation) => RangeVar(Qualify(schema, defaultSchema), relation)
    case AExpr(Ilike) => AExpr(Like)
    case _ => tag
  }

  /** The schema of the relation in a message's head field, if there is one. */
  function RelationSchema(head: seq<Tree>): Option<string> {
    if |head| > 0 && head[0].tag.RangeVar? then Some(head[0].tag.schema) else None
  }

  // ---------- whole trees ----------

  /** Clears every foreign-key qualifier that names the schema of the table being created. */
  function Clear(t: Tree, tableSchema: string): Tree
    decreases t, 1
  {
    Tree.Message(t.tag, ClearTarget(t, ClearList(t.head, tableSchema), tableSchema),
                 ClearList(t.body, tableSchema), ClearList(t.rest, tableSchema))
  }

  function ClearTarget(t: Tree, head: seq<Tree>, tableSchema: string): seq<Tree>
    requires |head| == |t.head|
  {
    if t.tag.Constraint? && RelationSchema(t.head) == Some(tableSchema)
    then head[0 := head[0].(tag := RangeVar("", t.head[0].tag.relation))]
    else head
  }

  function ClearList(ts: seq<Tree>, tableSchema: string): (r: seq<Tree>)
    ensures |r| == |ts|
    decreases ts, 0
  {
    seq(|ts|, i requires 0 <= i < |ts| => Clear(ts[i], tableSchema))
  }

  function Translate(t: Tree, defaultSchema: string): Tree
    decreases t, 2
  {
    ClearForeignKeys(TranslateFields(t, defaultSchema))
  }

  function TranslateFields(t: Tree, defaultSchema: string): Tree
    decreases t, 1
  {
    Tree.Message(TranslateTag(t.tag, defaultSchema), TranslateHead(t, TranslateList(t.head, defaultSchema)),
                 TranslateList(t.body, defaultSchema), TranslateList(t.rest, defaultSchema))
  }

  /** The head field: a mapped type name is replaced, the operator of an ILIKE is renamed. */
  function TranslateHead(t: Tree, head: seq<Tree>): seq<Tree> {
    if t.tag.TypeName? && MappedType(t.head).Some? then [Leaf(Str(MappedType(t.head).value))]
    else if t.tag == AExpr(Ilike) then seq(|head|, i requires 0 <= i < |head| => head[i].(tag := LikeOperator(head[i].tag)))
    else head
  }

  function TranslateList(ts: seq<Tree>, defaultSchema: string): (r: seq<Tree>)
    ensures |r| == |ts|
    decreases ts, 0
  {
    seq(|ts|, i requires 0 <= i < |ts| => Translate(ts[i], defaultSchema))
  }

  function ClearForeignKeys(t: Tree): Tree {
    if t.tag.CreateStmt? && RelationSchema(t.head).Some?
    then t.(body := ClearList(t.body, RelationSchema(t.head).value))
    else t
  }

  // ---------- shape of parsed trees ----------

  predicate HasNoCreate(t: Tree) {
    !t.tag.CreateStmt? && forall i :: 0 <= i < |Kids(t)| ==> HasNoCreate(Kids(t)[i])
  }

  /** What the PostgreSQL grammar guarantees: Relation and Pktable are singular fields, the parts of
      a type name are plain nodes, and a table element contains no CREATE TABLE. */
  predicate IsGrammatical(t: Tree) {
    && (t.tag.CreateStmt? || t.tag.Constraint? ==> |t.head| <= 1)
    && (t.tag.TypeName? ==> forall i :: 0 <= i < |t.head| ==> Kids(t.head[i]) == [] && !t.head[i].tag.RangeVar?)
    && (t.tag.CreateStmt? ==> forall i :: 0 <= i < |t.body| ==> HasNoCreate(t.body[i]))
    && forall i :: 0 <= i < |Kids(t)| ==> IsGrammatical(Kids(t)[i])
  }

  // ---------- references ----------

  /** A relation named somewhere in a statement.  `owner` is present on the target of a foreign key
      of a table being created, and is the qualifier of that table. */
  datatype Reference = Reference(owner: Option<string>, schema: string, relation: string)

  /** The relations a tree names, in order.  `owner` is the table being created around the tree;
      `target` says that the tree is the target field of a constraint. */
  function References(t: Tree, owner: Option<string>, target: bool): seq<Reference>
    decreases t, 1
  {
    OwnReference(t.tag, owner, target)
    + ListReferences(t.head, owner, t.tag.Constraint?)
    + ListReferences(t.body, if t.tag.CreateStmt? then RelationSchema(t.head) else owner, false)
    + ListReferences(t.rest, owner, false)
  }

  function OwnReference(tag: Tag, owner: Option<string>, target: bool): seq<Reference> {
    if tag.RangeVar? then [Reference(if target then owner else None, tag.schema, tag.relation)] else []
  }

  function ListReferences(ts: seq<Tree>, owner: Option<string>, target: bool): seq<Reference>
    decreases ts, 0
  {
    if ts == [] then []
    else References(ts[0], owner, target) + ListReferences(ts[1..], owner, target)
  }

  /** What the rewrite does to one reference. */
  function QualifyReference(r: Reference, defaultSchema: string): Reference {
    Reference(if r.owner.Some? then Some(Qualify(r.owner.value, defaultSchema)) else None,
              Qualify(r.schema, defaultSchema), r.relation)
  }

  function ClearReference(r: Reference): Reference {
    if r.owner == Some(r.schema) then r.(schema := "") else r
  }

  function QualifyAll(rs: seq<Reference>, defaultSchema: string): seq<Reference> {
    seq(|rs|, i requires 0 <= i < |rs| => QualifyReference(rs[i], defaultSchema))
  }

  function ClearAll(rs: seq<Reference>): seq<Reference> {
    seq(|rs|, i requires 0 <= i < |rs| => ClearReference(rs[i]))
  }
}
