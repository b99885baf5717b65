/** What one pass of the translation establishes, and when a second pass changes nothing. */
module NormalForm {
  import opened Wrappers
  import opened Text
  import opened Ast
  import opened Translator
  import opened RelationReferences
  import opened Resolution

  // ---------- the normal form ----------

  /** No type name is mapped, no expression is ILIKE, no relation says public, and every relation is
      qualified.  Only the target of a foreign key of a table being created may be bare; it does not
      name the schema of its table. */
  predicate IsNormal(t: Tree, owner: Option<string>, target: bool)
    decreases t, 1
  {
    && HasNormalFields(t, owner, target)
    && AllNormal(t.head, owner, t.tag.Constraint?)
    && AllNormal(t.body, if t.tag.CreateStmt? then RelationSchema(t.head) else owner, false)
    && AllNormal(t.rest, owner, false)
  }

  predicate HasNormalFields(t: Tree, owner: Option<string>, target: bool) {
    match t.tag
    case RangeVar(schema, _) => schema != "public" && schema != (if target && owner.Some? then owner.value else "")
    case TypeName => MappedType(t.head).None?
    case AExpr(kind) => kind != Ilike
    case _ => true
  }

  predicate AllNormal(ts: seq<Tree>, owner: Option<string>, target: bool)
    decreases ts, 0
  {
    forall i :: 0 <= i < |ts| ==> IsNormal(ts[i], owner, target)
  }

  lemma MappedTypesAreNotMapped(names: seq<Tree>)
    requires MappedType(names).Some?
    ensures MappedType([Leaf(Str(MappedType(names).value))]).None?
  {
    var s := MappedType(names).value;
    assert s in {"integer", "blob", "json", "timestamp", "text"};
    assert ToLower("integer") == "integer";
    assert ToLower("blob") == "blob";
    assert ToLower("json") == "json";
    assert ToLower("timestamp") == "timestamp";
    assert ToLower("text") == "text";
  }

  // ---------- one pass reaches it ----------

  lemma TranslatedFieldsAreNormal(t: Tree, defaultSchema: string)
    requires defaultSchema != ""
    ensures HasNormalFields(TranslateFields(t, defaultSchema), None, false)
  {
    if t.tag.TypeName? && MappedType(t.head).Some? {
      MappedTypesAreNotMapped(t.head);
    } else if t.tag.TypeName? && t.head != [] {
      var head := TranslateList(t.head, defaultSchema);
      TranslatedTag(t.head[|t.head| - 1], defaultSchema);
      assert head[|head| - 1] == Translate(t.head[|t.head| - 1], defaultSchema);
    }
  }

  /** Translation reaches its normal form in one pass. */
  lemma {:induction false} TranslatedIsNormal(t: Tree, defaultSchema: string, target: bool)
    requires IsGrammatical(t) && defaultSchema != ""
    ensures IsNormal(Translate(t, defaultSchema), None, target)
    decreases t, 1
  {
    hide IsGrammatical, HasNoCreate, MappedType, Qualify;
    KidsOf(t);
    FieldsOf(t);
    TranslatedListIsNormal(t.head, defaultSchema, t.tag.Constraint?);
    TranslatedListIsNormal(t.body, defaultSchema, false);
    TranslatedListIsNormal(t.rest, defaultSchema, false);
    TranslatedFieldsAreNormal(t, defaultSchema);
    TranslatedHeadIsNormal(t, defaultSchema);
    if t.tag.CreateStmt? {
      var u := TranslateFields(t, defaultSchema);
      TranslateListKeepsShape(t.body, defaultSchema, true);
      if RelationSchema(u.head).Some? {
        assert IsNormal(u.head[0], None, false);
        ClearedListIsNormal(u.body, RelationSchema(u.head).value);
      }
    }
  }

  lemma TranslatedHeadIsNormal(t: Tree, defaultSchema: string)
    requires AllNormal(TranslateList(t.head, defaultSchema), None, t.tag.Constraint?)
    ensures AllNormal(TranslateHead(t, TranslateList(t.head, defaultSchema)), None, t.tag.Constraint?)
  {
    hide MappedType;
    var head := TranslateList(t.head, defaultSchema);
    if t.tag == AExpr(Ilike) {
      forall i | 0 <= i < |head|
        ensures IsNormal(TranslateHead(t, head)[i], None, false)
      {
        assert IsNormal(head[i], None, false);
      }
    } else if t.tag.TypeName? && MappedType(t.head).Some? {
      assert IsNormal(Leaf(Str(MappedType(t.head).value)), None, false);
    }
  }

  lemma {:induction false} TranslatedListIsNormal(ts: seq<Tree>, defaultSchema: string, target: bool)
    requires defaultSchema != "" && forall x :: x in ts ==> IsGrammatical(x)
    ensures AllNormal(TranslateList(ts, defaultSchema), None, target)
    decreases ts, 0
  {
    forall i | 0 <= i < |ts|
      ensures IsNormal(Translate(ts[i], defaultSchema), None, target)
    {
      TranslatedIsNormal(ts[i], defaultSchema, target);
    }
  }

  /** Clearing inside the elements of a table of schema `s`. */
  lemma {:induction false} ClearedIsNormal(t: Tree, s: string, target: bool)
    requires IsGrammatical(t) && HasNoCreate(t) && s != "" && IsNormal(t, None, target)
    ensures IsNormal(if target then ClearedTarget(t, s) else Clear(t, s), Some(s), target)
    decreases t, 1
  {
    hide IsGrammatical, HasNoCreate, MappedType;
    KidsOf(t);
    FieldsOf(t);
    var u := Clear(t, s);
    ClearedListIsNormal(t.body, s);
    ClearedListIsNormal(t.rest, s);
    if t.tag.Constraint? {
      if t.head != [] {
        ClearedIsNormal(t.head[0], s, true);
        assert ClearList(t.head, s)[0] == Clear(t.head[0], s);
        assert u.head[0] == ClearedTarget(t.head[0], s);
      }
    } else {
      ClearedListIsNormal(t.head, s);
    }
    if t.tag.TypeName? {
      ClearKeepsTypeName(t, s);
    }
  }

  lemma ClearKeepsTypeName(t: Tree, s: string)
    requires t.tag.TypeName?
    ensures MappedType(Clear(t, s).head) == MappedType(t.head)
  {
    if t.head != [] {
      assert ClearList(t.head, s)[|t.head| - 1].tag == t.head[|t.head| - 1].tag;
    }
  }

  lemma {:induction false} ClearedListIsNormal(ts: seq<Tree>, s: string)
    requires AllShaped(ts, true) && s != "" && AllNormal(ts, None, false)
    ensures AllNormal(ClearList(ts, s), Some(s), false)
    decreases ts, 0
  {
    forall i | 0 <= i < |ts|
      ensures IsNormal(Clear(ts[i], s), Some(s), false)
    {
      assert ts[i] in ts && IsNormal(ts[i], None, false);
      ClearedIsNormal(ts[i], s, false);
    }
  }

  // ---------- a second pass ----------

  /** Every bare foreign-key target belongs to a table of the default schema. */
  predicate BareTargetsAreHome(rs: seq<Reference>, defaultSchema: string) {
    forall r :: r in rs && r.owner.Some? && r.schema == "" ==> r.owner == Some(Qualify("", defaultSchema))
  }

  /** Outside table elements, a tree in normal form stays as it is. */
  lemma {:induction false} NormalCreateFreeIsFixed(t: Tree, defaultSchema: string, target: bool)
    requires IsGrammatical(t) && HasNoCreate(t) && IsNormal(t, None, target)
    ensures Translate(t, defaultSchema) == t
    decreases t, 1
  {
    hide IsGrammatical, HasNoCreate, MappedType;
    KidsOf(t);
    FieldsOf(t);
    NormalListIsFixed(t.head, defaultSchema, t.tag.Constraint?);
    NormalListIsFixed(t.body, defaultSchema, false);
    NormalListIsFixed(t.rest, defaultSchema, false);
  }

  lemma {:induction false} NormalListIsFixed(ts: seq<Tree>, defaultSchema: string, target: bool)
    requires AllShaped(ts, true) && AllNormal(ts, None, target)
    ensures TranslateList(ts, defaultSchema) == ts
    decreases ts, 0
  {
    forall i | 0 <= i < |ts|
      ensures Translate(ts[i], defaultSchema) == ts[i]
    {
      assert ts[i] in ts && IsNormal(ts[i], None, target);
      NormalCreateFreeIsFixed(ts[i], defaultSchema, target);
    }
  }

  /** An element of a table of schema `s`, translated and cleared once more. */
  lemma {:induction false} NormalElementIsFixed(t: Tree, defaultSchema: string, s: string, target: bool)
    requires IsGrammatical(t) && HasNoCreate(t) && IsNormal(t, Some(s), target)
    requires BareTargetsAreHome(References(t, Some(s), target), defaultSchema)
    ensures var u := Translate(t, defaultSchema);
            t == if target then ClearedTarget(u, s) else Clear(u, s)
    decreases t, 1
  {
    hide IsGrammatical, HasNoCreate, MappedType, BareTargetsAreHome, Qualify;
    KidsOf(t);
    FieldsOf(t);
    HomePartsAreHome(t, defaultSchema, s, target);
    NormalElementListIsFixed(t.body, defaultSchema, s);
    NormalElementListIsFixed(t.rest, defaultSchema, s);
    NormalElementHeadIsFixed(t, defaultSchema, s);
    NormalElementTagIsFixed(t, defaultSchema, s, target);
    assert Translate(t, defaultSchema) == TranslateFields(t, defaultSchema);
  }

  lemma NormalElementTagIsFixed(t: Tree, defaultSchema: string, s: string, target: bool)
    requires HasNormalFields(t, Some(s), target)
    requires t.tag.RangeVar? && t.tag.schema == "" && target ==> s == Qualify("", defaultSchema)
    ensures var u := Translate(t, defaultSchema);
            t.tag == (if target then ClearedTarget(u, s) else Clear(u, s)).tag
  {
    TranslatedTag(t, defaultSchema);
  }

  lemma {:induction false} NormalElementHeadIsFixed(t: Tree, defaultSchema: string, s: string)
    requires IsGrammatical(t) && HasNoCreate(t) && (HasNormalFields(t, Some(s), false) || t.tag.RangeVar?)
    requires AllNormal(t.head, Some(s), t.tag.Constraint?)
    requires BareTargetsAreHome(ListReferences(t.head, Some(s), t.tag.Constraint?), defaultSchema)
    ensures Clear(TranslateFields(t, defaultSchema), s).head == t.head
    decreases t, 0
  {
    hide IsGrammatical, HasNoCreate, MappedType, BareTargetsAreHome, Qualify, Translate;
    KidsOf(t);
    FieldsOf(t);
    var u := TranslateFields(t, defaultSchema);
    assert u.head == TranslateList(t.head, defaultSchema);
    if !t.tag.Constraint? {
      NormalElementListIsFixed(t.head, defaultSchema, s);
    } else if t.head != [] {
      var k := t.head[0];
      SingleReferences(t.head, Some(s));
      assert IsNormal(k, Some(s), true);
      NormalElementIsFixed(k, defaultSchema, s, true);
      assert u.head[0] == Translate(k, defaultSchema);
      assert ClearList(u.head, s)[0] == Clear(u.head[0], s);
      assert Clear(u, s).head[0] == ClearedTarget(u.head[0], s);
    }
  }

  /** The condition on bare targets passes to the fields of a message and to the message itself. */
  lemma HomePartsAreHome(t: Tree, defaultSchema: string, s: string, target: bool)
    requires HasNoCreate(t) && BareTargetsAreHome(References(t, Some(s), target), defaultSchema)
    ensures BareTargetsAreHome(ListReferences(t.head, Some(s), t.tag.Constraint?), defaultSchema)
    ensures BareTargetsAreHome(ListReferences(t.body, Some(s), false), defaultSchema)
    ensures BareTargetsAreHome(ListReferences(t.rest, Some(s), false), defaultSchema)
    ensures t.tag.RangeVar? && t.tag.schema == "" && target ==> s == Qualify("", defaultSchema)
  {
    var all := References(t, Some(s), target);
    if t.tag.RangeVar? {
      assert OwnReference(t.tag, Some(s), target)[0] in all;
    }
  }

  lemma {:induction false} NormalElementListIsFixed(ts: seq<Tree>, defaultSchema: string, s: string)
    requires AllShaped(ts, true) && AllNormal(ts, Some(s), false)
    requires BareTargetsAreHome(ListReferences(ts, Some(s), false), defaultSchema)
    ensures ClearList(TranslateList(ts, defaultSchema), s) == ts
    decreases ts, 0
  {
    if ts != [] {
      var first, others := References(ts[0], Some(s), false), ListReferences(ts[1..], Some(s), false);
      assert ListReferences(ts, Some(s), false) == first + others;
      assert ts[0] in ts && IsNormal(ts[0], Some(s), false);
      NormalElementIsFixed(ts[0], defaultSchema, s, false);
      NormalElementListIsFixed(ts[1..], defaultSchema, s);
      var us := TranslateList(ts, defaultSchema);
      assert us[1..] == TranslateList(ts[1..], defaultSchema);
      assert ClearList(us, s)[1..] == ClearList(us[1..], s);
      assert ClearList(us, s) == [ClearList(us, s)[0]] + ClearList(us, s)[1..];
    }
  }

  lemma HomeFieldsAreHome(t: Tree, defaultSchema: string, target: bool)
    requires BareTargetsAreHome(References(t, None, target), defaultSchema)
    ensures BareTargetsAreHome(ListReferences(t.head, None, t.tag.Constraint?), defaultSchema)
    ensures BareTargetsAreHome(
              ListReferences(t.body, if t.tag.CreateStmt? then RelationSchema(t.head) else None, false), defaultSchema)
    ensures BareTargetsAreHome(ListReferences(t.rest, None, false), defaultSchema)
  {
  }

  lemma {:induction false} NormalIsFixed(t: Tree, defaultSchema: string, target: bool)
    requires IsGrammatical(t) && IsNormal(t, None, target)
    requires BareTargetsAreHome(References(t, None, target), defaultSchema)
    ensures Translate(t, defaultSchema) == t
    decreases t, 1
  {
    hide IsGrammatical, HasNoCreate, MappedType, BareTargetsAreHome;
    KidsOf(t);
    FieldsOf(t);
    HomeFieldsAreHome(t, defaultSchema, target);
    NormalTreesAreFixed(t.head, defaultSchema, t.tag.Constraint?);
    NormalTreesAreFixed(t.rest, defaultSchema, false);
    var u := TranslateFields(t, defaultSchema);
    assert u.tag == t.tag && u.head == t.head && u.rest == t.rest;
    if t.tag.CreateStmt? && RelationSchema(t.head).Some? {
      NormalElementListIsFixed(t.body, defaultSchema, RelationSchema(t.head).value);
    } else {
      NormalTreesAreFixed(t.body, defaultSchema, false);
    }
  }

  lemma {:induction false} NormalTreesAreFixed(ts: seq<Tree>, defaultSchema: string, target: bool)
    requires AllShaped(ts, false) && AllNormal(ts, None, target)
    requires BareTargetsAreHome(ListReferences(ts, None, target), defaultSchema)
    ensures TranslateList(ts, defaultSchema) == ts
    decreases ts, 0
  {
    if ts != [] {
      assert ListReferences(ts, None, target)
          == References(ts[0], None, target) + ListReferences(ts[1..], None, target);
      assert ts[0] in ts && IsNormal(ts[0], None, target);
      NormalIsFixed(ts[0], defaultSchema, target);
      NormalTreesAreFixed(ts[1..], defaultSchema, target);
      assert TranslateList(ts, defaultSchema)[1..] == TranslateList(ts[1..], defaultSchema);
    }
  }

  /** A second pass changes nothing exactly when every foreign key that the first pass left bare
      belongs to a table of the default schema: a bare target elsewhere would be qualified again
      with the default schema. */
  lemma SecondPassIsIdentityIffHome(t: Tree, defaultSchema: string)
    requires IsGrammatical(t) && defaultSchema != ""
    ensures var u := Translate(t, defaultSchema);
            Translate(u, defaultSchema) == u <==> BareTargetsAreHome(References(u, None, false), defaultSchema)
  {
    hide References, Translate, IsNormal, IsGrammatical;
    var u := Translate(t, defaultSchema);
    var rs := References(u, None, false);
    TranslatedIsNormal(t, defaultSchema, false);
    TranslateKeepsShape(t, defaultSchema);
    if BareTargetsAreHome(rs, defaultSchema) {
      NormalIsFixed(u, defaultSchema, false);
    }
    if Translate(u, defaultSchema) == u {
      TranslatedReferences(u, defaultSchema, false);
      forall r | r in rs && r.owner.Some? && r.schema == ""
        ensures r.owner == Some(Qualify("", defaultSchema))
      {
        var i :| 0 <= i < |rs| && rs[i] == r;
        assert TranslateAll(rs, defaultSchema)[i] == TranslateReference(r, defaultSchema) == r;
      }
    }
  }
}
