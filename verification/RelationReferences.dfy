/** Which relations a statement refers to, before and after translation. */
module RelationReferences {
  import opened Wrappers
  import opened Text
  import opened Ast
  import opened Translator

  function QualifyOwner(owner: Option<string>, defaultSchema: string): Option<string> {
    if owner.Some? then Some(Qualify(owner.value, defaultSchema)) else None
  }

  // ---------- qualifying, away from CREATE TABLE ----------

  lemma QualifyConcat(a: seq<Reference>, b: seq<Reference>, c: seq<Reference>, d: seq<Reference>, defaultSchema: string)
    ensures QualifyAll(a + b + c + d, defaultSchema)
            == QualifyAll(a, defaultSchema) + QualifyAll(b, defaultSchema)
               + QualifyAll(c, defaultSchema) + QualifyAll(d, defaultSchema)
  {
  }

  lemma ClearConcat(a: seq<Reference>, b: seq<Reference>, c: seq<Reference>, d: seq<Reference>)
    ensures ClearAll(a + b + c + d) == ClearAll(a) + ClearAll(b) + ClearAll(c) + ClearAll(d)
  {
  }

  lemma QualifiedOwnReference(tag: Tag, defaultSchema: string, owner: Option<string>, target: bool)
    ensures OwnReference(TranslateTag(tag, defaultSchema), QualifyOwner(owner, defaultSchema), target)
            == QualifyAll(OwnReference(tag, owner, target), defaultSchema)
  {
  }

  lemma {:induction false} QualifiedReferences(t: Tree, defaultSchema: string, owner: Option<string>, target: bool)
    requires IsGrammatical(t) && HasNoCreate(t)
    ensures References(Translate(t, defaultSchema), QualifyOwner(owner, defaultSchema), target)
            == QualifyAll(References(t, owner, target), defaultSchema)
    decreases t, 1
  {
    hide MappedType, Qualify, OwnReference, QualifyAll, ListReferences, TranslateHead;
    KidsOf(t);
    QualifiedOwnReference(t.tag, defaultSchema, owner, target);
    QualifiedListReferences(t.head, defaultSchema, owner, t.tag.Constraint?);
    QualifiedListReferences(t.body, defaultSchema, owner, false);
    QualifiedListReferences(t.rest, defaultSchema, owner, false);
    HeadReferences(t, defaultSchema, owner);
    QualifyConcat(OwnReference(t.tag, owner, target), ListReferences(t.head, owner, t.tag.Constraint?),
                  ListReferences(t.body, owner, false), ListReferences(t.rest, owner, false), defaultSchema);
  }

  lemma KidsOf(t: Tree)
    ensures forall x :: x in t.head || x in t.body || x in t.rest ==> x in Kids(t)
    ensures HasNoCreate(t) ==> forall x :: x in Kids(t) ==> HasNoCreate(x)
    ensures IsGrammatical(t) ==> forall x :: x in Kids(t) ==> IsGrammatical(x)
  {
  }

  lemma {:induction false} QualifiedListReferences(
    ts: seq<Tree>, defaultSchema: string, owner: Option<string>, target: bool)
    requires forall x :: x in ts ==> IsGrammatical(x) && HasNoCreate(x)
    ensures ListReferences(TranslateList(ts, defaultSchema), QualifyOwner(owner, defaultSchema), target)
            == QualifyAll(ListReferences(ts, owner, target), defaultSchema)
    decreases ts, 0
  {
    if ts != [] {
      QualifiedReferences(ts[0], defaultSchema, owner, target);
      QualifiedListReferences(ts[1..], defaultSchema, owner, target);
      assert TranslateList(ts, defaultSchema)[1..] == TranslateList(ts[1..], defaultSchema);
    }
  }

  /** Replacing a type name or renaming an operator names no other relation. */
  lemma HeadReferences(t: Tree, defaultSchema: string, owner: Option<string>)
    requires IsGrammatical(t)
    requires ListReferences(TranslateList(t.head, defaultSchema), QualifyOwner(owner, defaultSchema), t.tag.Constraint?)
             == QualifyAll(ListReferences(t.head, owner, t.tag.Constraint?), defaultSchema)
    ensures ListReferences(TranslateHead(t, TranslateList(t.head, defaultSchema)), QualifyOwner(owner, defaultSchema),
                           t.tag.Constraint?)
            == QualifyAll(ListReferences(t.head, owner, t.tag.Constraint?), defaultSchema)
  {
    hide MappedType;
    var head := TranslateList(t.head, defaultSchema);
    if t.tag.TypeName? {
      NoReferences(t.head, owner);
    } else if t.tag == AExpr(Ilike) {
      RenamedReferences(head, TranslateHead(t, head), QualifyOwner(owner, defaultSchema));
    }
  }

  lemma {:induction false} NoReferences(ts: seq<Tree>, owner: Option<string>)
    requires forall i :: 0 <= i < |ts| ==> Kids(ts[i]) == [] && !ts[i].tag.RangeVar?
    ensures ListReferences(ts, owner, false) == []
  {
    if ts != [] {
      var t := ts[0];
      assert |t.head| + |t.body| + |t.rest| == |Kids(t)| == 0;
      assert References(t, owner, false) == [];
      NoReferences(ts[1..], owner);
    }
  }

  lemma {:induction false} RenamedReferences(ts: seq<Tree>, us: seq<Tree>, owner: Option<string>)
    requires us == seq(|ts|, i requires 0 <= i < |ts| => ts[i].(tag := LikeOperator(ts[i].tag)))
    ensures ListReferences(us, owner, false) == ListReferences(ts, owner, false)
  {
    if ts != [] {
      RenamedReferences(ts[1..], us[1..], owner);
    }
  }

  // ---------- clearing, inside the elements of a CREATE TABLE ----------

  /** A constraint's target after clearing. */
  function ClearedTarget(t: Tree, tableSchema: string): Tree {
    var u := Clear(t, tableSchema);
    if t.tag.RangeVar? && t.tag.schema == tableSchema then u.(tag := RangeVar("", t.tag.relation)) else u
  }

  lemma {:induction false} ClearedReferences(t: Tree, tableSchema: string, target: bool)
    requires IsGrammatical(t) && HasNoCreate(t)
    ensures References(if target then ClearedTarget(t, tableSchema) else Clear(t, tableSchema), Some(tableSchema), target)
            == ClearAll(References(t, Some(tableSchema), target))
    decreases t, 1
  {
    hide OwnReference, ClearAll, ListReferences;
    KidsOf(t);
    var owner := Some(tableSchema);
    ClearedOwnReference(t, tableSchema, target);
    ClearedHeadReferences(t, tableSchema);
    ClearedListReferences(t.body, tableSchema);
    ClearedListReferences(t.rest, tableSchema);
    ClearConcat(OwnReference(t.tag, owner, target), ListReferences(t.head, owner, t.tag.Constraint?),
                ListReferences(t.body, owner, false), ListReferences(t.rest, owner, false));
  }

  lemma ClearedOwnReference(t: Tree, tableSchema: string, target: bool)
    ensures OwnReference((if target then ClearedTarget(t, tableSchema) else Clear(t, tableSchema)).tag, Some(tableSchema), target)
            == ClearAll(OwnReference(t.tag, Some(tableSchema), target))
  {
  }

  lemma {:induction false} ClearedHeadReferences(t: Tree, tableSchema: string)
    requires IsGrammatical(t) && HasNoCreate(t)
    ensures ListReferences(Clear(t, tableSchema).head, Some(tableSchema), t.tag.Constraint?)
            == ClearAll(ListReferences(t.head, Some(tableSchema), t.tag.Constraint?))
    decreases t, 0
  {
    KidsOf(t);
    if !t.tag.Constraint? {
      ClearedListReferences(t.head, tableSchema);
    } else if t.head != [] {
      ClearedReferences(t.head[0], tableSchema, true);
      SingleReferences(t.head, Some(tableSchema));
      var head := Clear(t, tableSchema).head;
      assert |head| == 1 && ClearList(t.head, tableSchema)[0] == Clear(t.head[0], tableSchema);
      assert head[0] == ClearedTarget(t.head[0], tableSchema);
      SingleReferences(head, Some(tableSchema));
    }
  }

  lemma SingleReferences(ts: seq<Tree>, owner: Option<string>)
    requires |ts| == 1
    ensures ListReferences(ts, owner, true) == References(ts[0], owner, true)
  {
    assert ts[1..] == [];
  }

  lemma {:induction false} ClearedListReferences(ts: seq<Tree>, tableSchema: string)
    requires forall x :: x in ts ==> IsGrammatical(x) && HasNoCreate(x)
    ensures ListReferences(ClearList(ts, tableSchema), Some(tableSchema), false)
            == ClearAll(ListReferences(ts, Some(tableSchema), false))
    decreases ts, 0
  {
    if ts != [] {
      ClearedReferences(ts[0], tableSchema, false);
      ClearedListReferences(ts[1..], tableSchema);
      assert ClearList(ts, tableSchema)[1..] == ClearList(ts[1..], tableSchema);
    }
  }

  // ---------- the shape of translated trees ----------

  /** The part of the shape condition that concerns one message. */
  predicate HasGrammaticalFields(t: Tree) {
    && (t.tag.CreateStmt? || t.tag.Constraint? ==> |t.head| <= 1)
    && (t.tag.TypeName? ==> forall i :: 0 <= i < |t.head| ==> Kids(t.head[i]) == [] && !t.head[i].tag.RangeVar?)
    && (t.tag.CreateStmt? ==> forall x :: x in t.body ==> HasNoCreate(x))
  }

  lemma ShapeFromParts(t: Tree)
    requires HasGrammaticalFields(t)
    requires forall x :: x in t.head || x in t.body || x in t.rest ==> IsGrammatical(x)
    ensures IsGrammatical(t)
    ensures !t.tag.CreateStmt? && (forall x :: x in t.head || x in t.body || x in t.rest ==> HasNoCreate(x))
            ==> HasNoCreate(t)
  {
    forall i | 0 <= i < |Kids(t)|
      ensures Kids(t)[i] in t.head || Kids(t)[i] in t.body || Kids(t)[i] in t.rest
    {
      assert Kids(t)[i] in Kids(t);
    }
  }

  lemma RetagKeepsShape(t: Tree, tag: Tag)
    requires IsGrammatical(t) && ((t.tag.RangeVar? && tag.RangeVar?) || (t.tag.Str? && tag.Str?))
    ensures IsGrammatical(t.(tag := tag)) && (HasNoCreate(t) ==> HasNoCreate(t.(tag := tag)))
  {
    KidsOf(t);
    ShapeFromParts(t.(tag := tag));
  }

  /** Both hold of every tree of a list. */
  predicate AllShaped(ts: seq<Tree>, noCreate: bool) {
    forall x :: x in ts ==> IsGrammatical(x) && (noCreate ==> HasNoCreate(x))
  }

  lemma {:induction false} ClearKeepsShape(t: Tree, tableSchema: string)
    requires IsGrammatical(t)
    ensures IsGrammatical(Clear(t, tableSchema)) && (HasNoCreate(t) ==> HasNoCreate(Clear(t, tableSchema)))
    decreases t, 1
  {
    hide IsGrammatical, HasNoCreate;
    var u, noCreate := Clear(t, tableSchema), HasNoCreate(t);
    KidsOf(t);
    ClearListKeepsShape(t.head, tableSchema, noCreate);
    ClearListKeepsShape(t.body, tableSchema, noCreate);
    ClearListKeepsShape(t.rest, tableSchema, noCreate);
    if t.tag.Constraint? && RelationSchema(t.head) == Some(tableSchema) {
      assert ClearList(t.head, tableSchema)[0] == Clear(t.head[0], tableSchema);
      RetagKeepsShape(ClearList(t.head, tableSchema)[0], RangeVar("", t.head[0].tag.relation));
    }
    FieldsOf(t);
    if t.tag.CreateStmt? {
      ClearListKeepsShape(t.body, tableSchema, true);
    }
    forall i | t.tag.TypeName? && 0 <= i < |t.head|
      ensures Kids(u.head[i]) == [] && !u.head[i].tag.RangeVar?
    {
      ClearLeaf(t.head[i], tableSchema);
    }
    ShapeFromParts(u);
  }

  lemma ClearLeaf(t: Tree, tableSchema: string)
    requires Kids(t) == []
    ensures Clear(t, tableSchema) == t
  {
    assert |t.head| + |t.body| + |t.rest| == |Kids(t)| == 0;
  }

  lemma FieldsOf(t: Tree)
    requires IsGrammatical(t)
    ensures HasGrammaticalFields(t)
    ensures HasNoCreate(t) ==> !t.tag.CreateStmt?
  {
  }

  lemma {:induction false} ClearListKeepsShape(ts: seq<Tree>, tableSchema: string, noCreate: bool)
    requires AllShaped(ts, noCreate)
    ensures AllShaped(ClearList(ts, tableSchema), noCreate)
    decreases ts, 0
  {
    forall i | 0 <= i < |ts|
      ensures IsGrammatical(Clear(ts[i], tableSchema)) && (noCreate ==> HasNoCreate(Clear(ts[i], tableSchema)))
    {
      assert ts[i] in ts;
      ClearKeepsShape(ts[i], tableSchema);
    }
  }

  lemma {:induction false} TranslateKeepsShape(t: Tree, defaultSchema: string)
    requires IsGrammatical(t)
    ensures IsGrammatical(Translate(t, defaultSchema)) && (HasNoCreate(t) ==> HasNoCreate(Translate(t, defaultSchema)))
    decreases t, 1
  {
    hide IsGrammatical, HasNoCreate, MappedType;
    var u, noCreate := TranslateFields(t, defaultSchema), HasNoCreate(t);
    KidsOf(t);
    FieldsOf(t);
    TranslateListKeepsShape(t.head, defaultSchema, noCreate);
    TranslateListKeepsShape(t.body, defaultSchema, noCreate);
    TranslateListKeepsShape(t.rest, defaultSchema, noCreate);
    TranslatedHeadKeepsShape(t, defaultSchema, noCreate);
    if t.tag.CreateStmt? {
      TranslateListKeepsShape(t.body, defaultSchema, true);
    }
    ShapeFromParts(u);
    if t.tag.CreateStmt? && RelationSchema(u.head).Some? {
      var s := RelationSchema(u.head).value;
      ClearListKeepsShape(u.body, s, true);
      FieldsOf(u);
      KidsOf(u);
      ShapeFromParts(ClearForeignKeys(u));
    }
  }

  lemma TranslatedHeadKeepsShape(t: Tree, defaultSchema: string, noCreate: bool)
    requires HasGrammaticalFields(t) && AllShaped(TranslateList(t.head, defaultSchema), noCreate)
    ensures AllShaped(TranslateHead(t, TranslateList(t.head, defaultSchema)), noCreate)
    ensures HasGrammaticalFields(TranslateFields(t, defaultSchema).(body := t.body))
  {
    hide MappedType;
    var head := TranslateList(t.head, defaultSchema);
    if t.tag == AExpr(Ilike) {
      forall i | 0 <= i < |head|
        ensures IsGrammatical(head[i].(tag := LikeOperator(head[i].tag)))
        ensures noCreate ==> HasNoCreate(head[i].(tag := LikeOperator(head[i].tag)))
      {
        assert head[i] in head;
        if head[i].tag.Str? {
          RetagKeepsShape(head[i], LikeOperator(head[i].tag));
        }
      }
    } else if t.tag.TypeName? {
      forall i | 0 <= i < |head|
        ensures Kids(head[i]) == [] && !head[i].tag.RangeVar?
      {
        TranslateLeaf(t.head[i], defaultSchema);
      }
    }
  }

  lemma TranslateLeaf(t: Tree, defaultSchema: string)
    requires Kids(t) == [] && !t.tag.RangeVar?
    ensures Kids(Translate(t, defaultSchema)) == [] && !Translate(t, defaultSchema).tag.RangeVar?
  {
    assert |t.head| + |t.body| + |t.rest| == |Kids(t)| == 0;
    assert MappedType(t.head).None?;
  }

  lemma {:induction false} TranslateListKeepsShape(ts: seq<Tree>, defaultSchema: string, noCreate: bool)
    requires AllShaped(ts, noCreate)
    ensures AllShaped(TranslateList(ts, defaultSchema), noCreate)
    decreases ts, 0
  {
    forall i | 0 <= i < |ts|
      ensures IsGrammatical(Translate(ts[i], defaultSchema))
      ensures noCreate ==> HasNoCreate(Translate(ts[i], defaultSchema))
    {
      assert ts[i] in ts;
      TranslateKeepsShape(ts[i], defaultSchema);
    }
  }
}
