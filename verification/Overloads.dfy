/** The registry of scalar functions: nested maps updated in place, specified by the log of
    accepted registrations. */
module Overloads {
  import opened Wrappers
  import opened Text

  /** A Go callback is a reference; the number says which one. */
  type ScalarFunction = nat

  /** What a caller passes to RegisterFunction; a nil implementation is None. */
  datatype Function = Function(name: string, arity: int, variadic: bool, implementation: Option<ScalarFunction>)

  datatype Variadic = Variadic(minimum: int, implementation: ScalarFunction)

  datatype FunctionOverloads = FunctionOverloads(fixed: map<int, ScalarFunction>, variadic: Option<Variadic>)

  type Registry = map<string, map<string, FunctionOverloads>>

  /** An accepted registration; the name is already lower-cased. */
  datatype Registration =
    Registration(schema: string, name: string, arity: int, variadic: bool, implementation: ScalarFunction)

  datatype RegisterError = InvalidName | NegativeArity | NilImplementation | Closed

  const DISPATCH := "__pgmem_dispatch_749c9c9e"

  // ---------- lookups ----------

  predicate Has(r: Registry, schema: string, name: string) {
    schema in r && name in r[schema]
  }

  predicate HasAny(r: Registry) {
    |r| > 0
  }

  function Implementation(r: Registry, schema: string, name: string, arity: int): Option<ScalarFunction> {
    if !Has(r, schema, name) then None
    else
      var overloads := r[schema][name];
      if arity in overloads.fixed then Some(overloads.fixed[arity])
      else if overloads.variadic.Some? && arity >= overloads.variadic.value.minimum
      then Some(overloads.variadic.value.implementation)
      else None
  }

  // ---------- the registration log ----------

  /** The registry after one more registration. */
  function Put(r: Registry, x: Registration): Registry {
    var functions := if x.schema in r then r[x.schema] else map[];
    var overloads := if x.name in functions then functions[x.name] else FunctionOverloads(map[], None);
    var updated := if x.variadic
                   then overloads.(variadic := Some(Variadic(x.arity, x.implementation)))
                   else overloads.(fixed := overloads.fixed[x.arity := x.implementation]);
    r[x.schema := functions[x.name := updated]]
  }

  function Build(log: seq<Registration>): Registry {
    if log == [] then map[] else Put(Build(log[..|log| - 1]), log[|log| - 1])
  }

  predicate Names(x: Registration, schema: string, name: string) {
    x.schema == schema && x.name == name
  }

  ghost predicate Registered(log: seq<Registration>, schema: string, name: string) {
    exists i :: 0 <= i < |log| && Names(log[i], schema, name)
  }

  /** The most recent fixed registration of this name and arity. */
  function LatestFixed(log: seq<Registration>, schema: string, name: string, arity: int): Option<ScalarFunction> {
    if log == [] then None
    else
      var last := log[|log| - 1];
      if Names(last, schema, name) && !last.variadic && last.arity == arity then Some(last.implementation)
      else LatestFixed(log[..|log| - 1], schema, name, arity)
  }

  /** The most recent variadic registration of this name. */
  function LatestVariadic(log: seq<Registration>, schema: string, name: string): Option<Variadic> {
    if log == [] then None
    else
      var last := log[|log| - 1];
      if Names(last, schema, name) && last.variadic then Some(Variadic(last.arity, last.implementation))
      else LatestVariadic(log[..|log| - 1], schema, name)
  }

  /** Which callback answers a call: the latest fixed overload of that arity, or else the latest
      variadic overload if the call has enough arguments for it. */
  function Resolve(log: seq<Registration>, schema: string, name: string, arity: int): Option<ScalarFunction> {
    var fixed := LatestFixed(log, schema, name, arity);
    var variadic := LatestVariadic(log, schema, name);
    if fixed.Some? then fixed
    else if variadic.Some? && variadic.value.minimum <= arity then Some(variadic.value.implementation)
    else None
  }

  lemma {:induction false} HasIffRegistered(log: seq<Registration>, schema: string, name: string)
    ensures Has(Build(log), schema, name) <==> Registered(log, schema, name)
  {
    if log == [] {
    } else {
      var init, last := log[..|log| - 1], log[|log| - 1];
      HasIffRegistered(init, schema, name);
      assert log == init + [last];
      if Registered(init, schema, name) {
        var i :| 0 <= i < |init| && Names(init[i], schema, name);
        assert Names(log[i], schema, name);
      }
      if Names(last, schema, name) {
        assert Names(log[|log| - 1], schema, name);
      }
    }
  }

  lemma {:induction false} OverloadsFollowLog(log: seq<Registration>, schema: string, name: string)
    requires Has(Build(log), schema, name)
    ensures var o := Build(log)[schema][name];
            && o.variadic == LatestVariadic(log, schema, name)
            && forall n :: (n in o.fixed <==> LatestFixed(log, schema, name, n).Some?)
                           && (n in o.fixed ==> LatestFixed(log, schema, name, n) == Some(o.fixed[n]))
  {
    var init, last := log[..|log| - 1], log[|log| - 1];
    if Has(Build(init), schema, name) {
      OverloadsFollowLog(init, schema, name);
    } else {
      UnregisteredHasNoOverload(init, schema, name, 0);
      forall n
        ensures LatestFixed(init, schema, name, n) == None
      {
        UnregisteredHasNoOverload(init, schema, name, n);
      }
    }
  }

  lemma {:induction false} UnregisteredHasNoOverload(log: seq<Registration>, schema: string, name: string, n: int)
    requires !Has(Build(log), schema, name)
    ensures LatestFixed(log, schema, name, n) == None && LatestVariadic(log, schema, name) == None
  {
    if log != [] {
      UnregisteredHasNoOverload(log[..|log| - 1], schema, name, n);
    }
  }

  /** The nested maps answer every lookup as the log prescribes. */
  lemma LookupRefinesLog(log: seq<Registration>, schema: string, name: string, arity: int)
    ensures Implementation(Build(log), schema, name, arity) == Resolve(log, schema, name, arity)
  {
    if Has(Build(log), schema, name) {
      OverloadsFollowLog(log, schema, name);
    } else {
      UnregisteredHasNoOverload(log, schema, name, arity);
    }
  }

  /** Registration never leaves an empty inner map, so the emptiness test of the prefilter means
      that no lookup of any name can succeed. */
  lemma HasAnyIffHas(log: seq<Registration>)
    ensures HasAny(Build(log)) <==> exists schema, name :: Has(Build(log), schema, name)
  {
    if log == [] {
    } else {
      var last := log[|log| - 1];
      assert Has(Build(log), last.schema, last.name);
      assert last.schema in Build(log);
    }
  }

  /** The registration made last answers the calls it was made for: a fixed one those of its arity, a
      variadic one those with enough arguments that no fixed one answers. */
  lemma LastRegistrationAnswers(log: seq<Registration>, x: Registration, arity: int)
    ensures !x.variadic ==> Implementation(Build(log + [x]), x.schema, x.name, x.arity) == Some(x.implementation)
    ensures x.variadic && arity >= x.arity && LatestFixed(log, x.schema, x.name, arity).None? ==>
              Implementation(Build(log + [x]), x.schema, x.name, arity) == Some(x.implementation)
    ensures x.variadic && LatestFixed(log, x.schema, x.name, arity).Some? ==>
              Implementation(Build(log + [x]), x.schema, x.name, arity) == LatestFixed(log, x.schema, x.name, arity)
  {
    hide Build, Implementation;
    assert (log + [x])[..|log|] == log;
    LookupRefinesLog(log + [x], x.schema, x.name, x.arity);
    LookupRefinesLog(log + [x], x.schema, x.name, arity);
  }

  // ---------- growth ----------

  /** A name that is registered stays registered, and a fixed arity that resolves keeps resolving
      to a fixed overload, whatever is registered later. */
  lemma {:induction false} RegistrationIsMonotone(
    log: seq<Registration>, more: seq<Registration>, schema: string, name: string, arity: int)
    ensures Has(Build(log), schema, name) ==> Has(Build(log + more), schema, name)
    ensures LatestFixed(log, schema, name, arity).Some? ==> LatestFixed(log + more, schema, name, arity).Some?
  {
    if more == [] {
      assert log + more == log;
    } else {
      var init := more[..|more| - 1];
      RegistrationIsMonotone(log, init, schema, name, arity);
      assert (log + more)[..|log + more| - 1] == log + init;
    }
  }

  /** A call stops resolving at a registration exactly when that registration replaces the
      variadic overload the call relied on by one with a larger minimum. */
  lemma ArityLostOnlyToLargerMinimum(log: seq<Registration>, x: Registration, schema: string, name: string, arity: int)
    ensures Resolve(log, schema, name, arity).Some? && Resolve(log + [x], schema, name, arity).None?
            <==> && Names(x, schema, name) && x.variadic && arity < x.arity
                 && LatestFixed(log, schema, name, arity).None?
                 && LatestVariadic(log, schema, name).Some?
                 && LatestVariadic(log, schema, name).value.minimum <= arity
  {
  }

  // ---------- the class ----------

  predicate AllowedName(name: string) {
    IsName(name) && !EqualFold(name, DISPATCH)
  }

  /** Letters, digits, underscores and dollar signs, with a letter or an underscore first; and not the
      dispatcher's own name in any case. */
  lemma AllowedNamesSpelled(name: string)
    ensures AllowedName(name)
            <==> && name != [] && !(48 <= name[0] as int <= 57) && name[0] != '$'
                 && (forall i :: 0 <= i < |name| ==>
                       var c := name[i] as int;
                       48 <= c <= 57 || 65 <= c <= 90 || 97 <= c <= 122 || c == 95 || c == 36)
                 && !EqualFold(name, "__pgmem_dispatch_749c9c9e")
  {
    hide EqualFold;
  }

  class FunctionRegistry {
    var bySchema: Registry
    ghost var log: seq<Registration>

    ghost predicate Valid()
      reads this
    {
      bySchema == Build(log)
    }

    constructor ()
      ensures Valid() && log == []
    {
      bySchema := map[];
      log := [];
    }

    /** Registers or replaces one overload of `schema`; `closed` says whether the database is closed. */
    method RegisterFunction(schema: string, definition: Function, closed: bool) returns (err: Option<RegisterError>)
      requires Valid()
      modifies this
      ensures Valid()
      ensures err == Some(InvalidName) <==> !AllowedName(definition.name)
      ensures err == Some(NegativeArity) <==> AllowedName(definition.name) && definition.arity < 0
      ensures err == Some(NilImplementation) <==>
                AllowedName(definition.name) && definition.arity >= 0 && definition.implementation.None?
      ensures err == Some(Closed) <==>
                AllowedName(definition.name) && definition.arity >= 0 && definition.implementation.Some? && closed
      ensures err.None? ==>
                && definition.implementation.Some?
                && log == old(log) + [Registration(schema, ToLower(definition.name), definition.arity,
                                                   definition.variadic, definition.implementation.value)]
      ensures err.Some? ==> log == old(log) && bySchema == old(bySchema)
    {
      if !AllowedName(definition.name) {
        return Some(InvalidName);
      }
      if definition.arity < 0 {
        return Some(NegativeArity);
      }
      if definition.implementation.None? {
        return Some(NilImplementation);
      }
      if closed {
        return Some(Closed);
      }
      var name := ToLower(definition.name);
      ghost var x := Registration(schema, name, definition.arity, definition.variadic, definition.implementation.value);
      if schema !in bySchema {
        bySchema := bySchema[schema := map[]];
      }
      var functions := bySchema[schema];
      if name !in functions {
        functions := functions[name := FunctionOverloads(map[], None)];
      }
      var overloads := functions[name];
      if definition.variadic {
        overloads := overloads.(variadic := Some(Variadic(definition.arity, definition.implementation.value)));
      } else {
        overloads := overloads.(fixed := overloads.fixed[definition.arity := definition.implementation.value]);
      }
      bySchema := bySchema[schema := functions[name := overloads]];
      assert (log + [x])[..|log|] == log;
      ghost var inner := if schema in old(bySchema) then old(bySchema)[schema] else map[];
      assert functions[name := overloads] == inner[name := overloads];
      assert bySchema == old(bySchema)[schema := inner[name := overloads]];
      log := log + [x];
      return None;
    }
  }
}
