/** Relations resolve under SQLite, after translation, to what PostgreSQL resolves them to. */
module Resolution {
  import opened Wrappers
  import opened Text
  import opened Ast
  import opened Translator
  import opened RelationReferences

  // ---------- what translation does to references ----------

  function TranslateReference(r: Reference, defaultSchema: string): Reference {
    ClearReference(QualifyReference(r, defaultSchema))
  }

  function TranslateAll(rs: seq<Reference>, defaultSchema: string): seq<Reference> {
    seq(|rs|, i requires 0 <= i < |rs| => TranslateReference(rs[i], defaultSchema))
  }

  lemma TranslateConcat(a: seq<Reference>, b: seq<Reference>, c: seq<Reference>, d: seq<Reference>, defaultSchema: string)
    ensures TranslateAll(a + b + c + d, defaultSchema)
            == TranslateAll(a, defaultSchema) + TranslateAll(b, defaultSchema)
               + TranslateAll(c, defaultSchema) + TranslateAll(d, defaultSchema)
  {
  }

  lemma TranslateAppend(a: seq<Reference>, b: seq<Reference>, defaultSchema: string)
    ensures TranslateAll(a + b, defaultSchema) == TranslateAll(a, defaultSchema) + TranslateAll(b, defaultSchema)
  {
  }

  lemma NoneTranslated(defaultSchema: string)
    ensures TranslateAll([], defaultSchema) == []
  {
  }

  /** Away from foreign keys nothing is cleared. */
  lemma OwnReferenceTranslates(tag: Tag, defaultSchema: string, target: bool)
    ensures OwnReference(TranslateTag(tag, defaultSchema), None, target)
            == TranslateAll(OwnReference(tag, None, target), defaultSchema)
  {
  }

  /** The references of the translated tree are the references of the source, each qualified from
      the default schema, and bare where a foreign key stays in its table's schema. */
  lemma {:induction false} TranslatedReferences(t: Tree, defaultSchema: string, target: bool)
    requires IsGrammatical(t)
    ensures References(Translate(t, defaultSchema), None, target)
            == TranslateAll(References(t, None, target), defaultSchema)
    decreases t, 1
  {
    hide MappedType, Qualify, OwnReference, TranslateAll, ListReferences, TranslateHead, HasNoCreate, IsGrammatical;
    KidsOf(t);
    FieldsOf(t);
    OwnReferenceTranslates(t.tag, defaultSchema, target);
    TranslatedListReferences(t.head, defaultSchema, t.tag.Constraint?);
    TranslatedListReferences(t.rest, defaultSchema, false);
    TranslatedHeadReferences(t, defaultSchema);
    TranslatedBodyReferences(t, defaultSchema);
    var bodyOwner := if t.tag.CreateStmt? then RelationSchema(t.head) else None;
    TranslateConcat(OwnReference(t.tag, None, target), ListReferences(t.head, None, t.tag.Constraint?),
                    ListReferences(t.body, bodyOwner, false), ListReferences(t.rest, None, false), defaultSchema);
  }

  lemma TranslatedHeadReferences(t: Tree, defaultSchema: string)
    requires IsGrammatical(t)
    requires ListReferences(TranslateList(t.head, defaultSchema), None, t.tag.Constraint?)
             == TranslateAll(ListReferences(t.head, None, t.tag.Constraint?), defaultSchema)
    ensures ListReferences(TranslateHead(t, TranslateList(t.head, defaultSchema)), None, t.tag.Constraint?)
            == TranslateAll(ListReferences(t.head, None, t.tag.Constraint?), defaultSchema)
  {
    hide MappedType;
    var head := TranslateList(t.head, defaultSchema);
    if t.tag.TypeName? {
      NoReferences(t.head, None);
    } else if t.tag == AExpr(Ilike) {
      RenamedReferences(head, TranslateHead(t, head), None);
    }
  }

  lemma TranslatedTag(t: Tree, defaultSchema: string)
    ensures Translate(t, defaultSchema).tag == TranslateTag(t.tag, defaultSchema)
  {
  }

  lemma TranslatedRelationSchema(t: Tree, defaultSchema: string)
    requires t.tag.CreateStmt?
    ensures RelationSchema(TranslateFields(t, defaultSchema).head) == QualifyOwner(RelationSchema(t.head), defaultSchema)
  {
    if t.head != [] {
      TranslatedTag(t.head[0], defaultSchema);
      assert TranslateList(t.head, defaultSchema)[0] == Translate(t.head[0], defaultSchema);
    }
  }

  /** The body field; the table elements when the message is a CREATE TABLE. */
  lemma {:induction false} TranslatedBodyReferences(t: Tree, defaultSchema: string)
    requires IsGrammatical(t)
    ensures var u := Translate(t, defaultSchema);
            ListReferences(u.body, if u.tag.CreateStmt? then RelationSchema(u.head) else None, false)
            == TranslateAll(ListReferences(t.body, if t.tag.CreateStmt? then RelationSchema(t.head) else None, false),
                            defaultSchema)
    decreases t, 0
  {
    hide MappedType, HasNoCreate;
    KidsOf(t);
    FieldsOf(t);
    TranslatedListReferences(t.body, defaultSchema, false);
    if t.tag.CreateStmt? {
      TranslatedRelationSchema(t, defaultSchema);
      if RelationSchema(t.head).Some? {
        var owner := RelationSchema(t.head).value;
        var u := TranslateFields(t, defaultSchema);
        QualifiedListReferences(t.body, defaultSchema, Some(owner), false);
        TranslateListKeepsShape(t.body, defaultSchema, true);
        ClearedListReferences(u.body, Qualify(owner, defaultSchema));
        ClearAfterQualify(ListReferences(t.body, Some(owner), false), defaultSchema);
      }
    }
  }

  lemma ClearAfterQualify(rs: seq<Reference>, defaultSchema: string)
    ensures ClearAll(QualifyAll(rs, defaultSchema)) == TranslateAll(rs, defaultSchema)
  {
  }

  lemma {:induction false} TranslatedListReferences(ts: seq<Tree>, defaultSchema: string, target: bool)
    requires forall x :: x in ts ==> IsGrammatical(x)
    ensures ListReferences(TranslateList(ts, defaultSchema), None, target)
            == TranslateAll(ListReferences(ts, None, target), defaultSchema)
    decreases ts, 0
  {
    hide Translate, References, TranslateAll, IsGrammatical;
    if ts == [] {
      NoneTranslated(defaultSchema);
    } else {
      TranslatedReferences(ts[0], defaultSchema, target);
      TranslatedListReferences(ts[1..], defaultSchema, target);
      TranslateAppend(References(ts[0], None, target), ListReferences(ts[1..], None, target), defaultSchema);
      assert TranslateList(ts, defaultSchema)[1..] == TranslateList(ts[1..], defaultSchema);
    }
  }

  // ---------- what references resolve to ----------

  /** The schema names of an open database, as CreateSchema maintains them. */
  predicate IsTopology(schemas: set<string>) {
    && "public" in schemas
    && forall n :: n in schemas ==> n != "" && n != "main" && n != "temp" && SqliteFold(n) == n
  }

  /** The schema PostgreSQL resolves a qualifier to, when it exists. */
  function PostgresSchema(schema: string, defaultSchema: string, schemas: set<string>): Option<string> {
    var name := if schema == "" then defaultSchema else schema;
    if name in schemas then Some(name) else None
  }

  /** The schema whose database SQLite resolves a qualifier to: the public schema lives in the main
      database, every other schema in a database attached under its name.  The database of temporary
      tables is always there and is no schema's. */
  function SqliteSchema(schema: string, schemas: set<string>): Option<string> {
    var name := SqliteFold(schema);
    if name == "main" then Some("public")
    else if name == "temp" then Some("temp")
    else if name in schemas && name != "public" then Some(name)
    else None
  }

  datatype SqliteTarget = Relation(schema: Option<string>) | Rejected

  /** A foreign key that is qualified is rejected; a bare one stays in its table's database. */
  function SqliteResolve(r: Reference, schemas: set<string>): SqliteTarget {
    if r.owner.None? then Relation(SqliteSchema(r.schema, schemas))
    else if r.schema == "" then Relation(SqliteSchema(r.owner.value, schemas))
    else Rejected
  }

  /** A qualifier that PostgreSQL does not resolve although it is a spelling of a database name. */
  predicate IsForeignSpelling(schema: string, schemas: set<string>) {
    schema != "" && schema !in schemas && SqliteSchema(schema, schemas).Some?
  }

  lemma QualifiedSchemaResolves(schema: string, defaultSchema: string, schemas: set<string>)
    requires IsTopology(schemas) && defaultSchema in schemas
    ensures var q := Qualify(schema, defaultSchema);
            && q != ""
            && (PostgresSchema(schema, defaultSchema, schemas).Some? ==>
                SqliteSchema(q, schemas) == PostgresSchema(schema, defaultSchema, schemas))
            && (SqliteSchema(q, schemas) == PostgresSchema(schema, defaultSchema, schemas)
                <==> !IsForeignSpelling(schema, schemas))
  {
    assert SqliteFold("main") == "main";
    assert SqliteFold("public") == "public";
    assert SqliteFold("temp") == "temp";
  }

  lemma SameQualifierSameSchema(a: string, b: string, defaultSchema: string, schemas: set<string>)
    requires IsTopology(schemas) && defaultSchema in schemas
    requires PostgresSchema(a, defaultSchema, schemas).Some? && PostgresSchema(b, defaultSchema, schemas).Some?
    ensures Qualify(a, defaultSchema) == Qualify(b, defaultSchema)
            <==> PostgresSchema(a, defaultSchema, schemas) == PostgresSchema(b, defaultSchema, schemas)
  {
  }

  /** A source reference `r` and its translation `u` name the same relation.
      An ordinary reference resolves to the schema PostgreSQL means, and fails to agree only when its
      qualifier is another spelling of a database name.  A foreign-key target is rejected when it
      lies in another schema than its table; otherwise it resolves as an ordinary reference of the
      same spelling would, so it is never retargeted. */
  predicate Preserved(r: Reference, u: Reference, defaultSchema: string, schemas: set<string>) {
    var meant := PostgresSchema(r.schema, defaultSchema, schemas);
    && u.relation == r.relation
    && match r.owner
       case None =>
         && (meant.Some? ==> SqliteResolve(u, schemas) == Relation(meant))
         && (SqliteResolve(u, schemas) == Relation(meant) <==> !IsForeignSpelling(r.schema, schemas))
       case Some(table) =>
         var home := PostgresSchema(table, defaultSchema, schemas);
         && (meant.Some? && home.Some? ==>
               SqliteResolve(u, schemas) == if home == meant then Relation(meant) else Rejected)
         && (SqliteResolve(u, schemas) != Rejected ==>
               SqliteResolve(u, schemas)
               == SqliteResolve(TranslateReference(r.(owner := None), defaultSchema), schemas))
  }

  lemma OneReferenceIsPreserved(r: Reference, defaultSchema: string, schemas: set<string>)
    requires IsTopology(schemas) && defaultSchema in schemas
    ensures Preserved(r, TranslateReference(r, defaultSchema), defaultSchema, schemas)
  {
    hide Qualify, SqliteSchema, IsTopology, PostgresSchema, IsForeignSpelling;
    QualifiedSchemaResolves(r.schema, defaultSchema, schemas);
    if r.owner.Some? {
      QualifiedSchemaResolves(r.owner.value, defaultSchema, schemas);
      if PostgresSchema(r.schema, defaultSchema, schemas).Some? && PostgresSchema(r.owner.value, defaultSchema, schemas).Some? {
        SameQualifierSameSchema(r.schema, r.owner.value, defaultSchema, schemas);
      }
    }
  }

  /** Every reference of a statement is preserved by its translation. */
  lemma ResolutionIsPreserved(t: Tree, defaultSchema: string, schemas: set<string>)
    requires IsGrammatical(t) && IsTopology(schemas) && defaultSchema in schemas
    ensures var source, translated := References(t, None, false), References(Translate(t, defaultSchema), None, false);
            && |translated| == |source|
            && forall i :: 0 <= i < |source| ==> Preserved(source[i], translated[i], defaultSchema, schemas)
  {
    hide References, Translate, Preserved, TranslateReference;
    TranslatedReferences(t, defaultSchema, false);
    var source := References(t, None, false);
    forall i | 0 <= i < |source|
      ensures Preserved(source[i], TranslateReference(source[i], defaultSchema), defaultSchema, schemas)
    {
      OneReferenceIsPreserved(source[i], defaultSchema, schemas);
    }
  }
}
