/** What the lists of references and the normal form say about the messages of a tree. */
module Observers {
  import opened Wrappers
  import opened Text
  import opened Ast
  import opened Translator
  import opened RelationReferences
  import opened Resolution
  import opened NormalForm
  import opened Expressions

  // ---------- references ----------

  /** Message k is a constraint with this relation for its target. */
  predicate HasTarget(k: Tree, schema: string, relation: string) {
    k.tag.Constraint? && exists i :: 0 <= i < |k.head| && k.head[i].tag == RangeVar(schema, relation)
  }

  /** A target flag is only set on the head of a constraint. */
  lemma {:induction false} InList(r: Reference, ts: seq<Tree>, owner: Option<string>, target: bool)
    ensures r in ListReferences(ts, owner, target) <==> exists i :: 0 <= i < |ts| && r in References(ts[i], owner, target)
  {
    if ts != [] {
      InList(r, ts[1..], owner, target);
      if r in ListReferences(ts[1..], owner, target) {
        var i :| 0 <= i < |ts[1..]| && r in References(ts[1..][i], owner, target);
        assert r in References(ts[i + 1], owner, target);
      }
      if i :| 0 <= i < |ts| && r in References(ts[i], owner, target) {
        assert i > 0 ==> ts[1..][i - 1] == ts[i];
      }
    }
  }

  /** The owner of a message's body. */
  function BodyOwner(t: Tree, owner: Option<string>): Option<string> {
    if t.tag.CreateStmt? then RelationSchema(t.head) else owner
  }

  lemma InReferences(r: Reference, t: Tree, owner: Option<string>, target: bool)
    ensures r in References(t, owner, target)
            <==> || (t.tag == RangeVar(r.schema, r.relation) && r.owner == if target then owner else None)
                 || (exists i :: 0 <= i < |t.head| && r in References(t.head[i], owner, t.tag.Constraint?))
                 || (exists i :: 0 <= i < |t.body| && r in References(t.body[i], BodyOwner(t, owner), false))
                 || (exists i :: 0 <= i < |t.rest| && r in References(t.rest[i], owner, false))
  {
    InList(r, t.head, owner, t.tag.Constraint?);
    InList(r, t.body, BodyOwner(t, owner), false);
    InList(r, t.rest, owner, false);
    hide ListReferences;
    assert References(t, owner, target)
        == OwnReference(t.tag, owner, target) + ListReferences(t.head, owner, t.tag.Constraint?)
           + ListReferences(t.body, BodyOwner(t, owner), false) + ListReferences(t.rest, owner, false);
    hide References;
  }

  /** A reference that is listed comes from a child or from the message itself. */
  lemma ListedFrom(r: Reference, t: Tree, owner: Option<string>, target: bool) returns (x: Tree, o: Option<string>, g: bool)
    requires r in References(t, owner, target)
    ensures x == t || (x in Kids(t) && r in References(x, o, g))
    ensures x == t ==> t.tag == RangeVar(r.schema, r.relation) && r.owner == if target then owner else None
    ensures x != t ==> || (x in t.head && o == owner && g == t.tag.Constraint?)
                       || (x in t.body && o == BodyOwner(t, owner) && !g)
                       || (x in t.rest && o == owner && !g)
  {
    InReferences(r, t, owner, target);
    hide References;
    x, o, g := t, owner, target;
    if i :| 0 <= i < |t.head| && r in References(t.head[i], owner, t.tag.Constraint?) {
      x, o, g := t.head[i], owner, t.tag.Constraint?;
    } else if i :| 0 <= i < |t.body| && r in References(t.body[i], BodyOwner(t, owner), false) {
      x, o, g := t.body[i], BodyOwner(t, owner), false;
    } else if i :| 0 <= i < |t.rest| && r in References(t.rest[i], owner, false) {
      x, o, g := t.rest[i], owner, false;
    }
  }

  lemma SubtreeOfKid(x: Tree, k: Tree, t: Tree)
    requires k in Kids(t) && Subtree(x, k)
    ensures Subtree(x, t)
  {
    var i :| 0 <= i < |Kids(t)| && Kids(t)[i] == k;
  }

  lemma {:induction false} ReferenceIsARelation(t: Tree, owner: Option<string>, target: bool, r: Reference) returns (x: Tree)
    requires r in References(t, owner, target)
    ensures Subtree(x, t) && x.tag == RangeVar(r.schema, r.relation)
    decreases t
  {
    hide References;
    var k, o, g := ListedFrom(r, t, owner, target);
    if k == t {
      x := t;
    } else {
      x := ReferenceIsARelation(k, o, g, r);
      SubtreeOfKid(x, k, t);
    }
  }

  lemma {:induction false} RelationIsReferenced(t: Tree, owner: Option<string>, target: bool, x: Tree) returns (r: Reference)
    requires Subtree(x, t) && x.tag.RangeVar?
    ensures r in References(t, owner, target) && x.tag == RangeVar(r.schema, r.relation)
    decreases t
  {
    hide References;
    if x == t {
      r := Reference(if target then owner else None, x.tag.schema, x.tag.relation);
      InReferences(r, t, owner, target);
    } else {
      var i :| 0 <= i < |Kids(t)| && Subtree(x, Kids(t)[i]);
      var k := Kids(t)[i];
      if k in t.head {
        r := RelationIsReferenced(k, owner, t.tag.Constraint?, x);
        InHead(r, t, owner, target, k);
      } else if k in t.body {
        r := RelationIsReferenced(k, BodyOwner(t, owner), false, x);
        InBody(r, t, owner, target, k);
      } else {
        r := RelationIsReferenced(k, owner, false, x);
        InRest(r, t, owner, target, k);
      }
    }
  }

  lemma InHead(r: Reference, t: Tree, owner: Option<string>, target: bool, k: Tree)
    requires k in t.head && r in References(k, owner, t.tag.Constraint?)
    ensures r in References(t, owner, target)
  {
    InReferences(r, t, owner, target);
    hide References;
    var i :| 0 <= i < |t.head| && t.head[i] == k;
  }

  lemma InBody(r: Reference, t: Tree, owner: Option<string>, target: bool, k: Tree)
    requires k in t.body && r in References(k, BodyOwner(t, owner), false)
    ensures r in References(t, owner, target)
  {
    InReferences(r, t, owner, target);
    hide References;
    var i :| 0 <= i < |t.body| && t.body[i] == k;
  }

  lemma InRest(r: Reference, t: Tree, owner: Option<string>, target: bool, k: Tree)
    requires k in t.rest && r in References(k, owner, false)
    ensures r in References(t, owner, target)
  {
    InReferences(r, t, owner, target);
    hide References;
    var i :| 0 <= i < |t.rest| && t.rest[i] == k;
  }

  /** The relations a statement refers to are those of its relation messages, wherever they stand. */
  lemma ReferencesAreTheRelations(t: Tree, schema: string, relation: string)
    ensures (exists o :: Reference(o, schema, relation) in References(t, None, false))
            <==> exists x :: Subtree(x, t) && x.tag == RangeVar(schema, relation)
  {
    hide References, Subtree;
    if o :| Reference(o, schema, relation) in References(t, None, false) {
      var x := ReferenceIsARelation(t, None, false, Reference(o, schema, relation));
    }
    if x :| Subtree(x, t) && x.tag == RangeVar(schema, relation) {
      var r := RelationIsReferenced(t, None, false, x);
      assert r == Reference(r.owner, schema, relation);
    }
  }

  // ---------- foreign keys ----------

  /** Within an element of a table being created, a reference with an owner is the target of a
      constraint. */
  lemma {:induction false} OwnedIsTarget(t: Tree, owner: Option<string>, target: bool, r: Reference) returns (k: Tree)
    requires HasNoCreate(t) && r in References(t, owner, target) && r.owner.Some?
    requires target ==> t.tag != RangeVar(r.schema, r.relation)
    ensures Subtree(k, t) && HasTarget(k, r.schema, r.relation) && r.owner == owner
    decreases t
  {
    hide References, HasNoCreate;
    KidsOf(t);
    NoCreateIsNone(t);
    var x, o, g := ListedFrom(r, t, owner, target);
    assert x != t;
    if g && x.tag == RangeVar(r.schema, r.relation) {
      k := t;
      var i :| 0 <= i < |t.head| && t.head[i] == x;
      OwnerOfTarget(x, o, r);
    } else {
      k := OwnedIsTarget(x, o, g, r);
      SubtreeOfKid(k, x, t);
    }
  }

  lemma NoCreateIsNone(t: Tree)
    requires HasNoCreate(t)
    ensures !t.tag.CreateStmt?
  {
  }

  /** Nothing below the target itself has another owner. */
  lemma OwnerOfTarget(x: Tree, owner: Option<string>, r: Reference)
    requires HasNoCreate(x) && r in References(x, owner, true) && r.owner.Some?
    ensures r.owner == owner
  {
    OwnersAreInherited(x, owner, true, r);
  }

  lemma {:induction false} OwnersAreInherited(t: Tree, owner: Option<string>, target: bool, r: Reference)
    requires HasNoCreate(t) && r in References(t, owner, target) && r.owner.Some?
    ensures r.owner == owner
    decreases t
  {
    hide References, HasNoCreate;
    KidsOf(t);
    NoCreateIsNone(t);
    var x, o, g := ListedFrom(r, t, owner, target);
    if x != t {
      OwnersAreInherited(x, o, g, r);
    }
  }

  lemma {:induction false} TargetIsOwned(t: Tree, owner: Option<string>, target: bool, k: Tree, schema: string, relation: string)
    requires HasNoCreate(t) && Subtree(k, t) && HasTarget(k, schema, relation)
    ensures Reference(owner, schema, relation) in References(t, owner, target)
    decreases t
  {
    hide References, HasNoCreate;
    KidsOf(t);
    NoCreateIsNone(t);
    var r := Reference(owner, schema, relation);
    if k == t {
      var i :| 0 <= i < |t.head| && t.head[i].tag == RangeVar(schema, relation);
      InReferences(r, t.head[i], owner, true);
      InHead(r, t, owner, target, t.head[i]);
    } else {
      var i :| 0 <= i < |Kids(t)| && Subtree(k, Kids(t)[i]);
      var x := Kids(t)[i];
      if x in t.head {
        TargetIsOwned(x, owner, t.tag.Constraint?, k, schema, relation);
        InHead(r, t, owner, target, x);
      } else if x in t.body {
        TargetIsOwned(x, owner, false, k, schema, relation);
        InBody(r, t, owner, target, x);
      } else {
        TargetIsOwned(x, owner, false, k, schema, relation);
        InRest(r, t, owner, target, x);
      }
    }
  }

  /** Table c of schema `owner` is created, with a foreign key to this relation in one of its elements. */
  ghost predicate IsForeignKey(c: Tree, owner: string, schema: string, relation: string) {
    && c.tag.CreateStmt? && RelationSchema(c.head) == Some(owner)
    && exists i, k :: 0 <= i < |c.body| && Subtree(k, c.body[i]) && HasTarget(k, schema, relation)
  }

  lemma {:induction false} OwnedIsForeignKey(t: Tree, target: bool, r: Reference) returns (c: Tree)
    requires IsGrammatical(t) && r in References(t, None, target) && r.owner.Some?
    ensures Subtree(c, t) && IsForeignKey(c, r.owner.value, r.schema, r.relation)
    decreases t
  {
    hide References, IsGrammatical, HasNoCreate, HasTarget;
    KidsOf(t);
    FieldsOf(t);
    var x, o, g := ListedFrom(r, t, None, target);
    assert x != t;
    if o.Some? {
      var k := OwnedIsTarget(x, o, g, r);
      var i :| 0 <= i < |t.body| && t.body[i] == x;
      c := t;
    } else {
      c := OwnedIsForeignKey(x, g, r);
      SubtreeOfKid(c, x, t);
    }
  }

  lemma {:induction false} ForeignKeyIsOwned(t: Tree, target: bool, c: Tree, owner: string, schema: string, relation: string)
    requires IsGrammatical(t) && Subtree(c, t) && IsForeignKey(c, owner, schema, relation)
    ensures exists r :: r in References(t, None, target) && r == Reference(Some(owner), schema, relation)
    decreases t
  {
    hide References, IsGrammatical, HasNoCreate, HasTarget;
    KidsOf(t);
    FieldsOf(t);
    var r := Reference(Some(owner), schema, relation);
    if c == t {
      var i, k :| 0 <= i < |c.body| && Subtree(k, c.body[i]) && HasTarget(k, schema, relation);
      assert c.body[i] in t.body;
      TargetIsOwned(c.body[i], Some(owner), false, k, schema, relation);
      InBody(r, t, None, target, c.body[i]);
    } else {
      var i :| 0 <= i < |Kids(t)| && Subtree(c, Kids(t)[i]);
      var x := Kids(t)[i];
      if x in t.head {
        ForeignKeyIsOwned(x, t.tag.Constraint?, c, owner, schema, relation);
        InHead(r, t, None, target, x);
      } else if x in t.body {
        NoCreateHasNone(t, x, c);
        ForeignKeyIsOwned(x, false, c, owner, schema, relation);
        InBody(r, t, None, target, x);
      } else {
        ForeignKeyIsOwned(x, false, c, owner, schema, relation);
        InRest(r, t, None, target, x);
      }
    }
  }

  /** No table is created within an element of another. */
  lemma NoCreateHasNone(t: Tree, x: Tree, c: Tree)
    requires IsGrammatical(t) && x in t.body && Subtree(c, x) && c.tag.CreateStmt?
    ensures !t.tag.CreateStmt?
  {
    FieldsOf(t);
    if t.tag.CreateStmt? {
      CreateIsSeen(x, c);
    }
  }

  lemma {:induction false} CreateIsSeen(x: Tree, c: Tree)
    requires Subtree(c, x) && c.tag.CreateStmt?
    ensures !HasNoCreate(x)
  {
    if c != x {
      var i :| 0 <= i < |Kids(x)| && Subtree(c, Kids(x)[i]);
      CreateIsSeen(Kids(x)[i], c);
    }
  }

  /** The references with an owner are the foreign keys of the tables that a statement creates. */
  lemma OwnedReferencesAreTheForeignKeys(t: Tree, owner: string, schema: string, relation: string)
    requires IsGrammatical(t)
    ensures Reference(Some(owner), schema, relation) in References(t, None, false)
            <==> exists c :: Subtree(c, t) && IsForeignKey(c, owner, schema, relation)
  {
    hide References, Subtree, IsForeignKey, IsGrammatical;
    if Reference(Some(owner), schema, relation) in References(t, None, false) {
      var c := OwnedIsForeignKey(t, false, Reference(Some(owner), schema, relation));
    }
    if c :| Subtree(c, t) && IsForeignKey(c, owner, schema, relation) {
      ForeignKeyIsOwned(t, false, c, owner, schema, relation);
    }
  }

  // ---------- the normal form ----------

  /** Nothing in a normal tree is left to translate. */
  lemma {:induction false} NormalMeans(t: Tree, owner: Option<string>, target: bool, x: Tree)
    requires IsNormal(t, owner, target) && Subtree(x, t)
    ensures x.tag != AExpr(Ilike)
    ensures x.tag.RangeVar? ==> x.tag.schema != "public"
    ensures x.tag.TypeName? && x.head != [] && x.head[|x.head| - 1].tag.Str? ==>
              PostgresStorage(ToLower(x.head[|x.head| - 1].tag.sval)).None?
    decreases t
  {
    hide MappedType, PostgresStorage, ToLower;
    if x == t {
      if x.tag.TypeName? && x.head != [] && x.head[|x.head| - 1].tag.Str? {
        TypesKeepTheirStorage(x.head, x.head[|x.head| - 1].tag.sval);
      }
    } else {
      var i :| 0 <= i < |Kids(t)| && Subtree(x, Kids(t)[i]);
      var k := Kids(t)[i];
      if k in t.head {
        NormalMeans(k, owner, t.tag.Constraint?, x);
      } else if k in t.body {
        NormalMeans(k, if t.tag.CreateStmt? then RelationSchema(t.head) else owner, false, x);
      } else {
        NormalMeans(k, owner, false, x);
      }
    }
  }

  /** After one pass no message of a statement is an ILIKE, says public, or has a type that is replaced;
      and a relation is only left bare as the target of a foreign key. */
  lemma NothingIsLeftToTranslate(t: Tree, defaultSchema: string, x: Tree)
    requires IsGrammatical(t) && defaultSchema != "" && Subtree(x, Translate(t, defaultSchema))
    ensures x.tag != AExpr(Ilike)
    ensures x.tag.RangeVar? ==> x.tag.schema != "public"
    ensures x.tag.TypeName? && x.head != [] && x.head[|x.head| - 1].tag.Str? ==>
              PostgresStorage(ToLower(x.head[|x.head| - 1].tag.sval)).None?
    ensures forall r :: r in References(Translate(t, defaultSchema), None, false) && r.schema == "" ==> r.owner.Some?
  {
    hide Subtree, IsNormal, Translate, References, IsGrammatical, PostgresStorage, ToLower;
    TranslatedIsNormal(t, defaultSchema, false);
    NormalMeans(Translate(t, defaultSchema), None, false, x);
    TranslatedReferences(t, defaultSchema, false);
  }
}
