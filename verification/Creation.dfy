/** Which schemas a set of concurrent calls can create. */
module Creation {
  import opened Wrappers
  import opened Text
  import opened Backup
  import opened Locks
  import opened Blocking

  /** The name that CreateSchema gives to a requested one: a simple identifier, with its capital letters
      made small, and none of the three names that are taken. */
  predicate IsFoldedName(requested: string, name: string) {
    && requested != [] && !(48 <= requested[0] as int <= 57) && requested[0] != '$'
    && (forall i :: 0 <= i < |requested| ==>
          var c := requested[i] as int;
          48 <= c <= 57 || 65 <= c <= 90 || 97 <= c <= 122 || c == 95 || c == 36)
    && |name| == |requested|
    && (forall i :: 0 <= i < |name| ==>
          name[i] as int == requested[i] as int + if 65 <= requested[i] as int <= 90 then 32 else 0)
    && name != "main" && name != "temp" && name != "public"
  }

  lemma SchemaNamesAreFolded(requested: string, name: string)
    ensures SchemaName(requested) == Some(name) <==> IsFoldedName(requested, name)
  {
    if IsName(requested) && |name| == |requested| {
      NamesAreAscii(requested);
      LoweredAscii(requested);
      if IsFoldedName(requested, name) {
        assert forall i :: 0 <= i < |name| ==> name[i] == ToLower(requested)[i];
        assert name == ToLower(requested);
      }
    }
  }

  lemma NamesAreAscii(s: string)
    requires IsName(s)
    ensures IsAscii(s)
  {
  }

  /** A schema other than public can come to exist exactly when some call asks for it by its name in any
      case; whatever else is called. */
  lemma SchemaCanBeCreatedIff(s: State, name: string)
    requires Init(s) && name != "public"
    ensures (exists run: seq<State> :: IsRun(run) && run[0] == s && name in run[|run| - 1].schemas)
            <==> exists a :: a in s.pc && s.pc[a].CreateStart? && IsFoldedName(s.pc[a].requested, name)
  {
    assert IsCreated(s, name) <==> exists a :: a in s.pc && s.pc[a].CreateStart? && IsFoldedName(s.pc[a].requested, name) by {
      forall a | a in s.pc && s.pc[a].CreateStart?
        ensures SchemaName(s.pc[a].requested) == Some(name) <==> IsFoldedName(s.pc[a].requested, name)
      {
        SchemaNamesAreFolded(s.pc[a].requested, name);
      }
    }
    hide IsFoldedName, IsCreated, SomeStep;
    if exists run: seq<State> :: IsRun(run) && run[0] == s && name in run[|run| - 1].schemas {
      hide Init;
      var run: seq<State> :| IsRun(run) && run[0] == s && name in run[|run| - 1].schemas;
      Origins(run, |run| - 1);
    }
    if IsCreated(s, name) {
      InitIsQuiet(s);
      hide Init, AllQuiet;
      var t := CreateAll(s, {name});
      RunsArePaths(s, t);
    }
  }
}
