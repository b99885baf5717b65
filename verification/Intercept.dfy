/** The query interceptors of a schema: registrations in an array that is shifted in place. */
module Intercept {
  import opened Wrappers

  /** A callback is a reference; the number says which one. */
  type Interceptor = nat

  datatype Registration = Vacant | Registration(id: nat, interceptor: Interceptor)

  // ---------- specification ----------

  datatype Operation = Subscribed(id: nat, interceptor: Interceptor) | Unsubscribed(id: nat)

  /** The registrations of a log in their order, without those that were ended. */
  function Live(log: seq<Operation>): seq<Registration> {
    Ongoing(log, log)
  }

  function Ongoing(log: seq<Operation>, all: seq<Operation>): seq<Registration> {
    if log == [] then []
    else
      var init, last := Ongoing(log[..|log| - 1], all), log[|log| - 1];
      if last.Subscribed? && Unsubscribed(last.id) !in all then init + [Registration(last.id, last.interceptor)]
      else init
  }

  /** Without the registration of this id. */
  function Without(entries: seq<Registration>, id: nat): seq<Registration> {
    if entries == [] then []
    else
      var init, last := Without(entries[..|entries| - 1], id), entries[|entries| - 1];
      if last.Registration? && last.id == id then init else init + [last]
  }

  predicate HasIdsUpTo(log: seq<Operation>, n: nat) {
    forall i :: 0 <= i < |log| ==> log[i].id <= n
  }

  /** What a callback does to the registry: it may register an interceptor, or end a registration
      whose handle exists. */
  datatype Action = Subscribe(interceptor: Interceptor) | End(id: nat)

  /** The largest id after some actions. */
  function LargestId(n: nat, actions: seq<Action>): (m: nat)
    ensures n <= m
  {
    if actions == [] then n
    else LargestId(n, actions[..|actions| - 1]) + if actions[|actions| - 1].Subscribe? then 1 else 0
  }

  /** What one action adds to the log. */
  function Operations(n: nat, action: Action): seq<Operation> {
    match action
    case Subscribe(f) => [Subscribed(n + 1, f)]
    case End(id) => if id <= n then [Unsubscribed(id)] else []
  }

  /** What actions add to the log. */
  function AllOperations(n: nat, actions: seq<Action>): seq<Operation> {
    if actions == [] then []
    else
      var init := actions[..|actions| - 1];
      AllOperations(n, init) + Operations(LargestId(n, init), actions[|actions| - 1])
  }

  /** Registrations in the order of their ids, none of them above n. */
  predicate IsIncreasing(entries: seq<Registration>, n: nat) {
    && (forall i :: 0 <= i < |entries| ==> entries[i].Registration? && entries[i].id <= n)
    && forall i, j :: 0 <= i < j < |entries| ==> entries[i].id < entries[j].id
  }

  lemma {:induction false} OngoingAfterSubscribe(log: seq<Operation>, all: seq<Operation>, id: nat, f: Interceptor)
    ensures Ongoing(log, all + [Subscribed(id, f)]) == Ongoing(log, all)
  {
    if log != [] {
      OngoingAfterSubscribe(log[..|log| - 1], all, id, f);
    }
  }

  lemma {:induction false} OngoingAfterUnsubscribe(log: seq<Operation>, all: seq<Operation>, id: nat)
    ensures Ongoing(log, all + [Unsubscribed(id)]) == Without(Ongoing(log, all), id)
  {
    if log != [] {
      var init, last := log[..|log| - 1], log[|log| - 1];
      OngoingAfterUnsubscribe(init, all, id);
      var entries := Ongoing(init, all);
      if last.Subscribed? {
        var entry := Registration(last.id, last.interceptor);
        assert (entries + [entry])[..|entries|] == entries;
      }
    }
  }

  /** A new registration goes to the end; ending one takes exactly it away. */
  lemma LiveFollowsLog(log: seq<Operation>, n: nat, id: nat, f: Interceptor)
    requires HasIdsUpTo(log, n)
    ensures id > n ==> Live(log + [Subscribed(id, f)]) == Live(log) + [Registration(id, f)]
    ensures Live(log + [Unsubscribed(id)]) == Without(Live(log), id)
  {
    var s, u := log + [Subscribed(id, f)], log + [Unsubscribed(id)];
    assert s[..|s| - 1] == log && u[..|u| - 1] == log;
    OngoingAfterSubscribe(log, log, id, f);
    OngoingAfterUnsubscribe(log, log, id);
  }

  lemma {:induction false} WithoutAbsent(entries: seq<Registration>, id: nat)
    requires forall i :: 0 <= i < |entries| ==> entries[i].Registration? && entries[i].id != id
    ensures Without(entries, id) == entries
  {
    if entries != [] {
      WithoutAbsent(entries[..|entries| - 1], id);
    }
  }

  /** In a list with increasing ids, taking an id away is cutting its one position out. */
  lemma {:induction false} WithoutAt(entries: seq<Registration>, n: nat, k: nat)
    requires IsIncreasing(entries, n) && k < |entries|
    ensures Without(entries, entries[k].id) == entries[..k] + entries[k + 1..]
  {
    var last := |entries| - 1;
    if k == last {
      WithoutAbsent(entries[..last], entries[k].id);
    } else {
      WithoutAt(entries[..last], n, k);
      assert entries[..last][..k] == entries[..k];
      assert entries[k + 1..] == entries[..last][k + 1..] + [entries[last]];
    }
  }

  lemma CutKeepsOrder(entries: seq<Registration>, n: nat, k: nat)
    requires IsIncreasing(entries, n) && k < |entries|
    ensures IsIncreasing(entries[..k] + entries[k + 1..], n)
  {
  }

  lemma AppendKeepsOrder(entries: seq<Registration>, n: nat, f: Interceptor)
    requires IsIncreasing(entries, n)
    ensures IsIncreasing(entries + [Registration(n + 1, f)], n + 1)
  {
  }

  // ---------- the registry ----------

  class InterceptorRegistry {
    var nextID: nat
    var buffer: array<Registration>
    var count: nat
    ghost var log: seq<Operation>

    ghost predicate Valid()
      reads this, buffer
    {
      && count <= buffer.Length
      && HasIdsUpTo(log, nextID)
      && Entries() == Live(log)
      && IsIncreasing(Entries(), nextID)
    }

    ghost function Entries(): seq<Registration>
      requires count <= buffer.Length
      reads this, buffer
    {
      buffer[..count]
    }

    constructor ()
      ensures Valid() && fresh(buffer) && log == []
    {
      nextID, count, buffer, log := 0, 0, new Registration[0], [];
    }

    /** Registers an interceptor behind those already there. */
    method InterceptQueries(interceptor: Interceptor) returns (id: nat)
      requires Valid()
      modifies this, buffer
      ensures Valid() && (buffer == old(buffer) || fresh(buffer))
      ensures id == old(nextID) + 1 == nextID && log == old(log) + [Subscribed(id, interceptor)]
      ensures Entries() == old(Entries()) + [Registration(id, interceptor)]
    {
      hide Live, IsIncreasing;
      LiveFollowsLog(log, nextID, nextID + 1, interceptor);
      AppendKeepsOrder(Entries(), nextID, interceptor);
      nextID := nextID + 1;
      id := nextID;
      Append(Registration(id, interceptor));
      log := log + [Subscribed(id, interceptor)];
    }

    /** Puts an entry behind the others, in a larger array if this one is full. */
    method Append(entry: Registration)
      requires count <= buffer.Length
      modifies this`buffer, this`count, buffer
      ensures count <= buffer.Length && (buffer == old(buffer) || fresh(buffer))
      ensures Entries() == old(Entries()) + [entry]
    {
      if count == buffer.Length {
        var larger := new Registration[2 * count + 1](i => Vacant);
        forall i | 0 <= i < count {
          larger[i] := buffer[i];
        }
        buffer := larger;
      }
      buffer[count] := entry;
      count := count + 1;
    }

    /** Ends a registration: the entries behind it move one place to the front. */
    method Remove(id: nat)
      requires Valid() && id <= nextID
      modifies this`count, this`log, buffer
      ensures Valid()
      ensures log == old(log) + [Unsubscribed(id)] && Entries() == Without(old(Entries()), id)
    {
      LiveFollowsLog(log, nextID, id, 0);
      log := log + [Unsubscribed(id)];
      hide Live, Without;
      assert forall i :: 0 <= i < count ==> buffer[i] == Entries()[i];
      var index := Find(id);
      if index < count {
        WithoutAt(Entries(), nextID, index);
        CutKeepsOrder(Entries(), nextID, index);
        Shift(index);
      } else {
        WithoutAbsent(Entries(), id);
      }
    }

    /** Where the registration of an id stands; the number of entries if it is not there. */
    method Find(id: nat) returns (index: nat)
      requires count <= buffer.Length && forall i :: 0 <= i < count ==> buffer[i].Registration?
      ensures index <= count && forall i :: 0 <= i < index ==> buffer[i].id != id
      ensures index < count ==> buffer[index].id == id
    {
      index := 0;
      while index < count && buffer[index].id != id
        invariant index <= count
        invariant forall i :: 0 <= i < index ==> buffer[i].id != id
      {
        index := index + 1;
      }
    }

    /** Cuts one position out of the entries. */
    method Shift(index: nat)
      requires index < count <= buffer.Length
      modifies this`count, buffer
      ensures count == old(count) - 1
      ensures Entries() == old(Entries())[..index] + old(Entries())[index + 1..]
    {
      for i := index to count - 1
        invariant count == old(count)
        invariant forall j :: 0 <= j < buffer.Length ==>
                    buffer[j] == if index <= j < i then old(buffer[j + 1]) else old(buffer[j])
      {
        buffer[i] := buffer[i + 1];
      }
      buffer[count - 1] := Vacant;
      count := count - 1;
    }

    /** Asks the interceptors registered at the start, in order, until one fails or handles the
        statement.  A callback may register interceptors and end registrations while it runs; that does not
        change who is asked. */
    method RunInterceptors(cancelled: bool, closed: bool, reply: Interceptor -> Callback, command: string)
      returns (r: Decision)
      requires Valid()
      modifies this, buffer
      ensures Valid() && (buffer == old(buffer) || fresh(buffer))
      ensures cancelled ==> r == Failed(Cancelled)
      ensures !cancelled && closed ==> r == Failed(Closed)
      ensures !cancelled && !closed ==> r == Decide(old(Entries()), reply, command)
      ensures !cancelled && !closed ==>
                forall k :: IsFirstAnswer(old(Entries()), reply, k) ==>
                  match reply(old(Entries())[k].interceptor).answer
                  case Fails(message) => r == Failed(CallbackFailed(message))
                  case Handles(given) =>
                    && r.Handled? && r.result.rows == given.rows
                    && r.result.rowCount == (if given.rows.Some? then |given.rows.value| else given.rowCount)
                    && r.result.command == (if given.command == "" then command else given.command)
                  case Passes => true
      ensures !cancelled && !closed && (forall k :: !IsFirstAnswer(old(Entries()), reply, k)) ==> r == Passed
      ensures log == old(log)
                     + if cancelled || closed then [] else AllOperations(old(nextID), Taken(old(Entries()), reply))
    {
      if cancelled {
        return Failed(Cancelled);
      }
      if closed {
        return Failed(Closed);
      }
      FirstAnswerIsGiven(buffer[..count], nextID, reply, command);
      hide Decide, IsFirstAnswer;
      r := Ask(buffer[..count], reply, command);
    }

    /** Asks these interceptors in turn, whatever becomes of the registrations meanwhile. */
    method Ask(snapshot: seq<Registration>, reply: Interceptor -> Callback, command: string) returns (r: Decision)
      requires Valid() && forall i :: 0 <= i < |snapshot| ==> snapshot[i].Registration?
      modifies this, buffer
      ensures Valid() && (buffer == old(buffer) || fresh(buffer)) && r == Decide(snapshot, reply, command)
      ensures log == old(log) + AllOperations(old(nextID), Taken(snapshot, reply))
    {
      hide *;
      ghost var before, n := log, nextID;
      ghost var taken: seq<Action> := [];
      NobodyLeft(n, reply, command);
      for i := 0 to |snapshot|
        invariant Valid() && (buffer == old(buffer) || fresh(buffer))
        invariant nextID == LargestId(n, taken) && log == before + AllOperations(n, taken)
        invariant Decide(snapshot, reply, command) == Decide(snapshot[i..], reply, command)
        invariant Taken(snapshot, reply) == taken + Taken(snapshot[i..], reply)
      {
        var callback := reply(snapshot[i].interceptor);
        OneAnswer(snapshot, i, reply, command);
        ActAll(callback.actions);
        MoreActions(n, taken, callback.actions);
        taken := taken + callback.actions;
        if !callback.answer.Passes? {
          return Decided(callback.answer, command, Passed);
        }
      }
      assert snapshot[|snapshot|..] == [] && Taken(snapshot, reply) == taken;
      return Passed;
    }

    method Act(action: Action)
      requires Valid()
      modifies this, buffer
      ensures Valid() && (buffer == old(buffer) || fresh(buffer))
      ensures nextID == old(nextID) + (if action.Subscribe? then 1 else 0)
      ensures log == old(log) + Operations(old(nextID), action)
    {
      hide Valid;
      match action {
        case Subscribe(f) =>
          var id := InterceptQueries(f);
        case End(id) =>
          if id <= nextID {
            Remove(id);
          }
      }
    }

    method ActAll(actions: seq<Action>)
      requires Valid()
      modifies this, buffer
      ensures Valid() && (buffer == old(buffer) || fresh(buffer))
      ensures nextID == LargestId(old(nextID), actions) && log == old(log) + AllOperations(old(nextID), actions)
    {
      ghost var before, n := log, nextID;
      for i := 0 to |actions|
        invariant Valid() && (buffer == old(buffer) || fresh(buffer))
        invariant nextID == LargestId(n, actions[..i]) && log == before + AllOperations(n, actions[..i])
      {
        hide *;
        Act(actions[i]);
        NextAction(n, actions, i);
      }
      assert actions[..|actions|] == actions;
    }
  }

  /** The handle of one registration. */
  class Subscription {
    const registry: InterceptorRegistry
    const id: nat
    var ended: bool

    constructor (registry: InterceptorRegistry, id: nat)
      ensures this.registry == registry && this.id == id && !ended
    {
      this.registry, this.id, ended := registry, id, false;
    }

    /** Ends the registration; any further call has no effect. */
    method Unsubscribe()
      requires registry.Valid() && id <= registry.nextID
      modifies this`ended, registry`count, registry`log, registry.buffer
      ensures registry.Valid() && ended
      ensures old(ended) ==> registry.log == old(registry.log) && registry.Entries() == old(registry.Entries())
      ensures !old(ended) ==> registry.Entries() == Without(old(registry.Entries()), id)
    {
      if !ended {
        ended := true;
        registry.Remove(id);
      }
    }
  }

  // ---------- decisions ----------

  type Row = map<string, string>

  datatype QueryResult = QueryResult(rows: Option<seq<Row>>, rowCount: int, command: string)

  datatype Answer = Passes | Handles(result: QueryResult) | Fails(message: string)

  /** What a callback answers, and what it does to the registry while it runs. */
  datatype Callback = Callback(answer: Answer, actions: seq<Action>)

  datatype Error = Cancelled | Closed | CallbackFailed(message: string)

  datatype Decision = Passed | Handled(result: QueryResult) | Failed(error: Error)

  /** A handled result with its row count and command filled in. */
  function Complete(result: QueryResult, command: string): QueryResult {
    QueryResult(result.rows,
                if result.rows.Some? then |result.rows.value| else result.rowCount,
                if result.command == "" then command else result.command)
  }

  /** What the callbacks do up to the one that decides. */
  function Taken(entries: seq<Registration>, reply: Interceptor -> Callback): seq<Action> {
    if entries == [] || entries[0].Vacant? then []
    else
      var callback := reply(entries[0].interceptor);
      callback.actions + if callback.answer.Passes? then Taken(entries[1..], reply) else []
  }

  /** What an answer decides; `otherwise` if it passes the statement on. */
  function Decided(answer: Answer, command: string, otherwise: Decision): Decision {
    match answer
    case Fails(message) => Failed(CallbackFailed(message))
    case Handles(result) => Handled(Complete(result, command))
    case Passes => otherwise
  }

  function Decide(entries: seq<Registration>, reply: Interceptor -> Callback, command: string): Decision {
    if entries == [] || entries[0].Vacant? then Passed
    else Decided(reply(entries[0].interceptor).answer, command, Decide(entries[1..], reply, command))
  }

  /** The interceptor at k is the first that does not pass the statement on. */
  predicate IsFirstAnswer(entries: seq<Registration>, reply: Interceptor -> Callback, k: int) {
    && 0 <= k < |entries| && (forall i :: 0 <= i <= k ==> entries[i].Registration?)
    && (forall i :: 0 <= i < k ==> reply(entries[i].interceptor).answer.Passes?)
    && !reply(entries[k].interceptor).answer.Passes?
  }

  lemma FirstAnswerIsGiven(entries: seq<Registration>, n: nat, reply: Interceptor -> Callback, command: string)
    requires IsIncreasing(entries, n)
    ensures forall k :: IsFirstAnswer(entries, reply, k) ==>
              Decide(entries, reply, command) == Decided(reply(entries[k].interceptor).answer, command, Passed)
    ensures (forall k :: !IsFirstAnswer(entries, reply, k)) ==> Decide(entries, reply, command) == Passed
  {
    forall k | IsFirstAnswer(entries, reply, k)
      ensures Decide(entries, reply, command) == Decided(reply(entries[k].interceptor).answer, command, Passed)
    {
      FirstAnswerDecides(entries, n, reply, command, k);
    }
    if forall k :: !IsFirstAnswer(entries, reply, k) {
      NobodyAnswers(entries, reply, |entries|);
      FirstAnswerDecides(entries, n, reply, command, |entries|);
    }
  }

  lemma {:induction false} NobodyAnswers(entries: seq<Registration>, reply: Interceptor -> Callback, k: nat)
    requires k <= |entries| && forall i :: 0 <= i < |entries| ==> entries[i].Registration?
    requires forall j :: !IsFirstAnswer(entries, reply, j)
    ensures forall i :: 0 <= i < k ==> reply(entries[i].interceptor).answer.Passes?
  {
    if k > 0 {
      NobodyAnswers(entries, reply, k - 1);
      assert !IsFirstAnswer(entries, reply, k - 1);
    }
  }

  lemma OneAnswer(entries: seq<Registration>, i: nat, reply: Interceptor -> Callback, command: string)
    requires i < |entries| && entries[i].Registration?
    ensures var callback, rest := reply(entries[i].interceptor), entries[i + 1..];
            if callback.answer.Passes? then
              && Decide(entries[i..], reply, command) == Decide(rest, reply, command)
              && Taken(entries[i..], reply) == callback.actions + Taken(rest, reply)
            else
              && Decide(entries[i..], reply, command) == Decided(callback.answer, command, Passed)
              && Taken(entries[i..], reply) == callback.actions
  {
    assert entries[i..][1..] == entries[i + 1..];
  }

  lemma NobodyLeft(n: nat, reply: Interceptor -> Callback, command: string)
    ensures Decide([], reply, command) == Passed && Taken([], reply) == []
    ensures LargestId(n, []) == n && AllOperations(n, []) == []
  {
  }

  lemma NextAction(n: nat, actions: seq<Action>, i: nat)
    requires i < |actions|
    ensures var m := LargestId(n, actions[..i]);
            && LargestId(n, actions[..i + 1]) == m + (if actions[i].Subscribe? then 1 else 0)
            && AllOperations(n, actions[..i + 1]) == AllOperations(n, actions[..i]) + Operations(m, actions[i])
  {
    assert actions[..i + 1][..i] == actions[..i];
  }

  lemma {:induction false} MoreIds(n: nat, a: seq<Action>, b: seq<Action>)
    ensures LargestId(n, a + b) == LargestId(LargestId(n, a), b)
  {
    if b == [] {
      assert a + b == a;
    } else {
      MoreIds(n, a, b[..|b| - 1]);
      assert (a + b)[..|a + b| - 1] == a + b[..|b| - 1];
    }
  }

  /** Actions go on where others have stopped. */
  lemma {:induction false} MoreActions(n: nat, a: seq<Action>, b: seq<Action>)
    ensures LargestId(n, a + b) == LargestId(LargestId(n, a), b)
    ensures AllOperations(n, a + b) == AllOperations(n, a) + AllOperations(LargestId(n, a), b)
  {
    hide LargestId, Operations;
    MoreIds(n, a, b);
    if b == [] {
      assert a + b == a;
    } else {
      MoreIds(n, a, b[..|b| - 1]);
      MoreActions(n, a, b[..|b| - 1]);
      assert (a + b)[..|a + b| - 1] == a + b[..|b| - 1];
    }
  }

  /** The decision is that of the first interceptor, in registration order, that does not pass. */
  lemma {:induction false} FirstAnswerDecides(
    entries: seq<Registration>, n: nat, reply: Interceptor -> Callback, command: string, k: nat)
    requires IsIncreasing(entries, n) && k <= |entries|
    requires forall i :: 0 <= i < k ==> reply(entries[i].interceptor).answer.Passes?
    requires k < |entries| ==> !reply(entries[k].interceptor).answer.Passes?
    ensures Decide(entries, reply, command)
            == if k == |entries| then Passed else Decided(reply(entries[k].interceptor).answer, command, Passed)
  {
    if k > 0 {
      assert entries[1..][k - 1..] == entries[k..];
      FirstAnswerDecides(entries[1..], n, reply, command, k - 1);
    }
  }
}
