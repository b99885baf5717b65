/** Backup and restore of one database, as they run while they hold their locks and the engine's
    only connection. */
module Backup {
  import opened Wrappers
  import opened Names

  /** What one schema holds: its schema version, which counts DDL, and its rows by table. */
  datatype Image = Image(version: int, rows: map<string, seq<string>>)

  datatype Backup = Backup(schemaNames: seq<string>, schemaVersions: map<string, int>, images: map<string, Image>)

  /** The steps of one call that fail from outside: acquiring the connection, reading the version,
      taking the image or preparing the replacement of a schema, and cancellation. */
  datatype Faults =
    Faults(connection: bool, versions: set<string>, images: set<string>, replacements: set<string>, cancelled: bool)

  const NO_FAULTS := Faults(false, {}, {}, {}, false)

  datatype Error =
    | Closed
    | TopologyChanged
    | SchemaChanged(schema: string)
    | ConnectionFailed
    | VersionUnreadable(schema: string)
    | ImageFailed(schema: string)
    | ReplacementFailed(schema: string)
    | Cancelled

  /** The engine: the version a named schema reports after an image was attached in its place. */
  datatype Engine = Engine(attachedVersion: (string, int) -> int)

  // ---------- specification ----------

  ghost predicate IsBackup(b: Backup) {
    && IsAscending(b.schemaNames) && "public" in b.schemaNames
    && b.schemaVersions.Keys == b.images.Keys == Elements(b.schemaNames)
    && forall n :: n in b.images ==> b.images[n].version == b.schemaVersions[n]
  }

  /** The contents of a schema once its image is back in place. */
  function Replaced(engine: Engine, name: string, image: Image): Image {
    if name == "public" then image else Image(engine.attachedVersion(name, image.version), image.rows)
  }

  function Replacement(engine: Engine, b: Backup): map<string, Image> {
    map n | n in b.images :: Replaced(engine, n, b.images[n])
  }

  /** When a restore goes through: the schemas and their versions are those of the backup, and
      nothing fails from outside before the commit. */
  predicate CanRestore(attached: map<string, Image>, b: Backup, faults: Faults) {
    && attached.Keys == b.images.Keys
    && (forall n :: n in attached && n in b.schemaVersions ==> attached[n].version == b.schemaVersions[n])
    && !faults.connection && !faults.cancelled
    && faults.versions * b.images.Keys == {} && faults.replacements * b.images.Keys == {}
  }

  /** A restore goes through exactly when the schemas are those of the backup, each at its version then,
      and neither the connection, nor a version, nor a replacement fails, nor is the call cancelled. */
  lemma RestoreGoesThroughIff(attached: map<string, Image>, b: Backup, faults: Faults)
    requires IsBackup(b)
    ensures CanRestore(attached, b, faults)
            <==> && attached.Keys == Elements(b.schemaNames)
                 && (forall n :: n in attached ==>
                       && n in b.schemaVersions && attached[n].version == b.schemaVersions[n]
                       && n !in faults.versions && n !in faults.replacements)
                 && !faults.connection && !faults.cancelled
  {
    if forall n :: n in attached ==> n !in faults.versions && n !in faults.replacements {
      if attached.Keys == b.images.Keys {
        assert faults.versions * b.images.Keys == {} && faults.replacements * b.images.Keys == {};
      }
    } else {
      var n :| n in attached && (n in faults.versions || n in faults.replacements);
      assert n in b.images ==> n in faults.versions * b.images.Keys || n in faults.replacements * b.images.Keys;
    }
  }

  /** In the middle of a commit: the schemas split into those already restored and the live rest. */
  function Split(engine: Engine, b: Backup, before: map<string, Image>, restored: set<string>): map<string, Image>
    requires before.Keys == b.images.Keys
  {
    map n | n in before :: if n in restored then Replaced(engine, n, b.images[n]) else before[n]
  }

  lemma SplitAtPublic(engine: Engine, b: Backup, before: map<string, Image>)
    requires before.Keys == b.images.Keys && "public" in before
    ensures before["public" := b.images["public"]] == Split(engine, b, before, {"public"})
  {
  }

  lemma SplitStep(engine: Engine, b: Backup, before: map<string, Image>, restored: set<string>, name: string)
    requires before.Keys == b.images.Keys && name in before
    ensures var now := Split(engine, b, before, restored);
            && name in now
            && now[name := Replaced(engine, name, b.images[name])] == Split(engine, b, before, restored + {name})
            && (name in restored ==> now == Split(engine, b, before, restored + {name}))
  {
    if name in restored {
      assert restored + {name} == restored;
    }
  }

  lemma SplitComplete(engine: Engine, b: Backup, before: map<string, Image>, restored: set<string>)
    requires before.Keys == b.images.Keys <= restored
    ensures Split(engine, b, before, restored) == Replacement(engine, b)
  {
  }

  /** `keys` are the first `i` names of a list. */
  ghost predicate Listed(names: seq<string>, i: nat, keys: set<string>)
    requires i <= |names|
  {
    (forall j :: 0 <= j < i ==> names[j] in keys) && (forall n :: n in keys ==> exists j :: 0 <= j < i && names[j] == n)
  }

  // ---------- the class ----------

  class Database {
    /** The names of the schemas, and whether the database is closed. */
    var schemas: set<string>
    var closed: bool
    /** The engine's databases by schema name; the public schema is the main database. */
    var attached: map<string, Image>
    const engine: Engine

    ghost predicate Valid()
      reads this
    {
      "public" in schemas && attached.Keys == schemas
    }

    method ReadSchemaVersions(names: seq<string>, faults: Faults) returns (r: Result<map<string, int>, Error>)
      requires Elements(names) <= attached.Keys
      ensures r.Ok? <==> faults.versions * Elements(names) == {}
      ensures r.Ok? ==> r.value.Keys == Elements(names) && forall n :: n in r.value ==> r.value[n] == attached[n].version
      ensures r.Err? ==> r.error.VersionUnreadable?
    {
      var versions: map<string, int> := map[];
      for i := 0 to |names|
        invariant Listed(names, i, versions.Keys)
        invariant forall n :: n in versions ==> n !in faults.versions && versions[n] == attached[n].version
      {
        assert names[i] in Elements(names);
        if names[i] in faults.versions {
          assert names[i] in faults.versions * Elements(names);
          return Err(VersionUnreadable(names[i]));
        }
        versions := versions[names[i] := attached[names[i]].version];
      }
      return Ok(versions);
    }

    /** Reads the image of every schema. */
    method ReadImages(names: seq<string>, faults: Faults) returns (r: Result<map<string, Image>, Error>)
      requires Elements(names) <= attached.Keys
      ensures r.Ok? <==> faults.images * Elements(names) == {}
      ensures r.Ok? ==> r.value.Keys == Elements(names) && forall n :: n in r.value ==> r.value[n] == attached[n]
      ensures r.Err? ==> r.error.ImageFailed?
    {
      var images: map<string, Image> := map[];
      for i := 0 to |names|
        invariant Listed(names, i, images.Keys)
        invariant forall n :: n in images ==> n !in faults.images && images[n] == attached[n]
      {
        assert names[i] in Elements(names);
        if names[i] in faults.images {
          assert names[i] in faults.images * Elements(names);
          return Err(ImageFailed(names[i]));
        }
        images := images[names[i] := attached[names[i]]];
      }
      return Ok(images);
    }

    /** Takes the image of every schema; all of them are of one moment. */
    method BackupContext(faults: Faults) returns (r: Result<Backup, Error>)
      requires Valid()
      ensures r == Err(Closed) <==> closed
      ensures r.Ok? <==> !closed && !faults.connection && (faults.versions + faults.images) * schemas == {}
      ensures r.Ok? ==> IsBackup(r.value) && r.value.images == attached
      ensures r.Ok? ==>
                && Elements(r.value.schemaNames) == schemas == r.value.schemaVersions.Keys
                && forall n :: n in schemas ==> r.value.schemaVersions[n] == attached[n].version
    {
      if closed {
        return Err(Closed);
      }
      if faults.connection {
        return Err(ConnectionFailed);
      }
      var names := Sorted(schemas);
      var versions := ReadSchemaVersions(names, faults);
      if versions.Err? {
        return Err(versions.error);
      }
      var images := ReadImages(names, faults);
      if images.Err? {
        return Err(images.error);
      }
      assert (faults.versions + faults.images) * schemas == faults.versions * schemas + faults.images * schemas;
      return Ok(Backup(names, versions.value, images.value));
    }

    /** Puts every schema back to the backup, or leaves every schema alone. */
    method RestoreContext(b: Backup, faults: Faults) returns (err: Option<Error>)
      requires Valid() && IsBackup(b)
      modifies this`attached
      ensures Valid()
      ensures err.None? <==> !closed && CanRestore(old(attached), b, faults)
      ensures attached == if err.None? then Replacement(engine, b) else old(attached)
      ensures err == Some(Closed) <==> closed
      ensures !closed ==> (err == Some(TopologyChanged) <==> schemas != Elements(b.schemaNames))
      ensures err.Some? && err.value.SchemaChanged? ==>
                var n := err.value.schema;
                n in old(attached) && n in b.schemaVersions && old(attached)[n].version != b.schemaVersions[n]
      ensures err == Some(Cancelled) ==> faults.cancelled
    {
      if closed {
        return Some(Closed);
      }
      var names := Sorted(schemas);
      AscendingListsAreSets(names, b.schemaNames);
      var same := EqualStrings(names, b.schemaNames);
      if !same {
        return Some(TopologyChanged);
      }
      if faults.connection {
        return Some(ConnectionFailed);
      }
      err := CheckVersions(b, names, faults);
      if err.Some? {
        return;
      }
      err := PrepareReplacements(b, names, faults);
      if err.Some? {
        return;
      }
      if faults.cancelled {
        return Some(Cancelled);
      }
      Commit(b, names);
      return None;
    }

    /** Compares the version of every schema with that of the backup. */
    method CheckVersions(b: Backup, names: seq<string>, faults: Faults) returns (err: Option<Error>)
      requires Valid() && Elements(names) == b.images.Keys == b.schemaVersions.Keys == attached.Keys
      ensures err.None? <==>
                && faults.versions * b.images.Keys == {}
                && forall n :: n in attached && n in b.schemaVersions ==> attached[n].version == b.schemaVersions[n]
      ensures err.Some? ==> err.value.VersionUnreadable? || err.value.SchemaChanged?
      ensures err.Some? && err.value.SchemaChanged? ==>
                var n := err.value.schema;
                n in attached && n in b.schemaVersions && attached[n].version != b.schemaVersions[n]
    {
      var versions := ReadSchemaVersions(names, faults);
      if versions.Err? {
        return Some(versions.error);
      }
      var changed := FirstDifference(names, versions.value, b.schemaVersions);
      return if changed.Some? then Some(SchemaChanged(changed.value)) else None;
    }

    /** Builds and checks the replacement of every schema while the live data is untouched. */
    method PrepareReplacements(b: Backup, names: seq<string>, faults: Faults) returns (err: Option<Error>)
      requires Valid() && Elements(names) == b.images.Keys
      ensures err.None? <==> faults.replacements * b.images.Keys == {}
      ensures err.Some? ==> err.value.ReplacementFailed?
    {
      if "public" in b.images && "public" in faults.replacements {
        assert "public" in faults.replacements * b.images.Keys;
        return Some(ReplacementFailed("public"));
      }
      for i := 0 to |names|
        invariant forall j :: 0 <= j < i ==> names[j] !in faults.replacements
      {
        assert names[i] in Elements(names);
        if names[i] != "public" && names[i] in faults.replacements {
          assert names[i] in faults.replacements * b.images.Keys;
          return Some(ReplacementFailed(names[i]));
        }
      }
      forall n | n in b.images
        ensures n !in faults.replacements
      {
        assert n in names;
      }
      return None;
    }

    /** Detaches a named schema and attaches an image in its place. */
    method Reattach(name: string, image: Image)
      requires name in attached
      modifies this`attached
      ensures attached == old(attached)[name := Replaced(engine, name, image)]
    {
      attached := attached - {name};
      attached := attached[name := Replaced(engine, name, image)];
    }

    /** The commit: public first, then each named schema is detached and its replacement attached. */
    method Commit(b: Backup, names: seq<string>)
      requires Valid() && IsBackup(b) && names == b.schemaNames && schemas == b.images.Keys
      modifies this`attached
      ensures Valid() && attached == Replacement(engine, b)
    {
      ghost var before, restored := attached, {"public"};
      attached := attached["public" := b.images["public"]];
      SplitAtPublic(engine, b, before);
      for i := 0 to |names|
        invariant Elements(names[..i]) <= restored && "public" in restored
        invariant attached == Split(engine, b, before, restored)
      {
        hide *;
        NextElement(names, i);
        SplitStep(engine, b, before, restored, names[i]);
        if names[i] != "public" {
          Reattach(names[i], b.images[names[i]]);
        }
        restored := restored + {names[i]};
      }
      assert names[..|names|] == names;
      SplitComplete(engine, b, before, restored);
    }
  }

  /** The first name whose versions differ. */
  method FirstDifference(names: seq<string>, left: map<string, int>, right: map<string, int>) returns (r: Option<string>)
    requires left.Keys == right.Keys == Elements(names)
    ensures r.None? <==> left == right
    ensures r.Some? ==> r.value in left && left[r.value] != right[r.value]
  {
    for i := 0 to |names|
      invariant forall j :: 0 <= j < i ==> names[j] in left && left[names[j]] == right[names[j]]
    {
      assert names[i] in Elements(names);
      if left[names[i]] != right[names[i]] {
        return Some(names[i]);
      }
    }
    forall n | n in left
      ensures left[n] == right[n]
    {
      assert n in names;
    }
    return None;
  }

  method EqualStrings(left: seq<string>, right: seq<string>) returns (r: bool)
    ensures r <==> left == right
  {
    if |left| != |right| {
      return false;
    }
    for i := 0 to |left|
      invariant left[..i] == right[..i]
    {
      if left[i] != right[i] {
        return false;
      }
    }
    return true;
  }

  // ---------- restoring again and again ----------

  /** What may happen after a backup: new rows in a schema, DDL, or a restore that may or may not go
      through. */
  datatype Change =
    | Write(schema: string, rows: map<string, seq<string>>)
    | Define(schema: string, image: Image)
    | Attempt(faults: Faults)

  function Apply(engine: Engine, b: Backup, attached: map<string, Image>, change: Change): map<string, Image> {
    match change
    case Write(schema, rows) => if schema in attached then attached[schema := attached[schema].(rows := rows)] else attached
    case Define(schema, image) => if schema in attached then attached[schema := image] else attached
    case Attempt(faults) => if CanRestore(attached, b, faults) then Replacement(engine, b) else attached
  }

  function Run(engine: Engine, b: Backup, attached: map<string, Image>, changes: seq<Change>): map<string, Image> {
    if changes == [] then attached
    else Apply(engine, b, Run(engine, b, attached, changes[..|changes| - 1]), changes[|changes| - 1])
  }

  predicate RestorableAfter(engine: Engine, b: Backup, changes: seq<Change>) {
    CanRestore(Run(engine, b, b.images, changes), b, NO_FAULTS)
  }

  /** An attached image reports the version it carries. */
  predicate KeepsVersions(engine: Engine, b: Backup) {
    forall n :: n in b.images && n != "public" ==>
      engine.attachedVersion(n, b.images[n].version) == b.images[n].version
  }

  /** The changes are to data only. */
  predicate AreData(changes: seq<Change>) {
    forall i :: 0 <= i < |changes| ==> !changes[i].Define?
  }

  lemma {:induction false} SchemasStay(engine: Engine, b: Backup, attached: map<string, Image>, changes: seq<Change>)
    requires attached.Keys == b.images.Keys
    ensures Run(engine, b, attached, changes).Keys == attached.Keys
  {
    if changes != [] {
      SchemasStay(engine, b, attached, changes[..|changes| - 1]);
    }
  }

  /** A restore that goes through gives every schema the rows it had when the backup was taken, whatever
      happened in between and whatever the engine does with versions; one that does not go through
      changes nothing. */
  lemma RestoredRows(engine: Engine, b: Backup, attached: map<string, Image>, changes: seq<Change>, faults: Faults)
    requires IsBackup(b) && b.images == attached
    ensures var before := Run(engine, b, attached, changes);
            var after := Run(engine, b, attached, changes + [Attempt(faults)]);
            && after.Keys == attached.Keys
            && (CanRestore(before, b, faults) ==> forall n :: n in attached ==> after[n].rows == attached[n].rows)
            && (!CanRestore(before, b, faults) ==> after == before)
  {
    hide Run, CanRestore, IsAscending;
    SchemasStay(engine, b, attached, changes);
    RunOnce(engine, b, attached, changes, Attempt(faults));
    var before := Run(engine, b, attached, changes);
    RestoreGivesRows(engine, b, before, faults);
  }

  lemma RunOnce(engine: Engine, b: Backup, attached: map<string, Image>, changes: seq<Change>, change: Change)
    ensures Run(engine, b, attached, changes + [change]) == Apply(engine, b, Run(engine, b, attached, changes), change)
  {
    hide Apply;
    assert (changes + [change])[..|changes|] == changes;
  }

  lemma RestoreGivesRows(engine: Engine, b: Backup, before: map<string, Image>, faults: Faults)
    ensures CanRestore(before, b, faults) ==>
              var after := Apply(engine, b, before, Attempt(faults));
              after.Keys == b.images.Keys && forall n :: n in b.images ==> after[n].rows == b.images[n].rows
    ensures !CanRestore(before, b, faults) ==> Apply(engine, b, before, Attempt(faults)) == before
  {
    hide CanRestore;
  }

  lemma {:induction false} VersionsSurvive(engine: Engine, b: Backup, changes: seq<Change>)
    requires IsBackup(b) && KeepsVersions(engine, b) && AreData(changes)
    ensures RestorableAfter(engine, b, changes)
  {
    if changes != [] {
      VersionsSurvive(engine, b, changes[..|changes| - 1]);
    }
  }

  /** A backup can be restored after any history of writes and restores exactly when the engine keeps
      the version of an attached image; otherwise one restore makes the next one fail. */
  lemma RepeatableIffVersionsKept(engine: Engine, b: Backup)
    requires IsBackup(b)
    ensures (forall changes :: AreData(changes) ==> RestorableAfter(engine, b, changes)) <==> KeepsVersions(engine, b)
  {
    if KeepsVersions(engine, b) {
      forall changes: seq<Change> | AreData(changes)
        ensures RestorableAfter(engine, b, changes)
      {
        VersionsSurvive(engine, b, changes);
      }
    } else {
      var once := [Attempt(NO_FAULTS)];
      assert once[..0] == [];
      assert Run(engine, b, b.images, once) == Apply(engine, b, b.images, once[0]) == Replacement(engine, b);
      assert !RestorableAfter(engine, b, once);
    }
  }
}
