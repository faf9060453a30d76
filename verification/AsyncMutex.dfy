/**
The coroutine mutex: direct first-in first-out hand-off of ownership, with the next waiter
resumed inline by the releasing holder.

`AsyncMutex` and `Guard` are the objects. The run model below them adds who is acting: an
actor is inside from the moment an acquisition succeeds, or it is resumed, until it unlocks;
a queued actor is suspended and cannot act.
*/
module AsyncMutex {

  import opened Results

  /** A coroutine handle, or the identity of a plain caller of `try_lock`. */
  type Actor = nat

  /** The fields guarded by `state_mutex_`. */
  datatype Fields = Fields(held: bool, holder: Option<Actor>, waiters: seq<Actor>)

  function TryLockFields(f: Fields): Fields {
    if f.held then f else f.(held := true, holder := None)
  }

  function AwaitFields(f: Fields, a: Actor): Fields {
    if !f.held then f.(held := true, holder := Some(a)) else f.(waiters := f.waiters + [a])
  }

  function UnlockFields(f: Fields): Fields {
    if f.waiters == [] then f.(held := false, holder := None)
    else f.(holder := Some(f.waiters[0]), waiters := f.waiters[1..])
  }

  class AsyncMutex {
    var held: bool
    var holder: Option<Actor>
    var waiters: seq<Actor>

    ghost function View(): Fields
      reads this
    {
      Fields(held, holder, waiters)
    }

    constructor ()
      ensures View() == Fields(false, None, [])
    {
      held, holder, waiters := false, None, [];
    }

    method TryLock() returns (taken: bool)
      modifies this
      ensures taken == !old(held)
      ensures View() == TryLockFields(old(View()))
    {
      if held {
        return false;
      }
      held := true;
      holder := None;
      return true;
    }

    /** `await_suspend`: true when the coroutine was queued and stays suspended; `reported` when it is logged as deadlocked. */
    method AcquireOrEnqueue(a: Actor) returns (suspended: bool, reported: bool)
      modifies this
      ensures suspended == old(held)
      ensures reported == (old(held) && old(holder) == Some(a))
      ensures View() == AwaitFields(old(View()), a)
    {
      if !held {
        held := true;
        holder := Some(a);
        return false, false;
      }
      reported := holder == Some(a);
      waiters := waiters + [a];
      return true, reported;
    }

    /** The state change of `unlock`; the coroutine returned is the one it then resumes. */
    method Unlock() returns (next: Option<Actor>)
      modifies this
      ensures next == if old(waiters) == [] then None else Some(old(waiters)[0])
      ensures View() == UnlockFields(old(View()))
    {
      next := None;
      if waiters == [] {
        held := false;
      } else {
        next := Some(waiters[0]);
        waiters := waiters[1..];
      }
      holder := next;
    }
  }

  /** Ownership released when the guard goes out of scope. */
  class Guard {
    var owner: AsyncMutex?

    constructor Empty()
      ensures owner == null
    {
      owner := null;
    }

    constructor Adopt(mutex: AsyncMutex)
      ensures owner == mutex
    {
      owner := mutex;
    }

    /** The move constructor: ownership is transferred, not duplicated. */
    constructor MoveFrom(other: Guard)
      modifies other
      ensures owner == old(other.owner) && other.owner == null
    {
      owner := other.owner;
      new;
      other.owner := null;
    }

    /** Unlocks what the guard owns, once: a guard that owns nothing leaves every mutex alone. */
    method Release() returns (next: Option<Actor>)
      modifies this, if owner == null then {} else {owner}
      ensures owner == null
      ensures old(owner) == null ==> next == None
      ensures old(owner) != null ==> old(owner).View() == UnlockFields(old(owner.View()))
      ensures old(owner) != null ==>
                next == if old(owner.waiters) == [] then None else Some(old(owner.waiters[0]))
    {
      next := None;
      if owner != null {
        var mutex := owner;
        owner := null;
        next := mutex.Unlock();
      }
    }

    /** Move assignment: releases what this guard holds, then takes over; self-assignment does nothing. */
    method Assign(other: Guard) returns (next: Option<Actor>)
      modifies this, other, if owner == null then {} else {owner}
      ensures this == other ==> owner == old(owner) && next == None
      ensures this != other ==> owner == old(other.owner) && other.owner == null
      ensures this != other && old(owner) != null ==> old(owner).View() == UnlockFields(old(owner.View()))
      ensures this != other ==>
                next == if old(owner == null || owner.waiters == []) then None else Some(old(owner.waiters[0]))
      ensures this == other && old(owner) != null ==> old(owner).View() == old(owner.View())
    {
      next := None;
      if this != other {
        next := Release();
        owner := other.owner;
        other.owner := null;
      }
    }
  }

  // ---------------------------------------------------------------- runs

  datatype State = State(
    fields: Fields,
    inside: set<Actor>,        // actors that have acquired and not unlocked
    arrivals: seq<Actor>,      // every actor ever queued, in order
    handed: seq<Actor>)        // every actor resumed with ownership, in order

  datatype Event = TryLock(a: Actor) | Await(a: Actor) | Unlock(a: Actor)

  const START := State(Fields(false, None, []), {}, [], [])

  /** Whoever acts is not suspended, and only an actor inside unlocks. */
  predicate Allowed(s: State, e: Event) {
    e.a !in s.fields.waiters && (e.Unlock? ==> e.a in s.inside)
  }

  function Apply(s: State, e: Event): State {
    match e
    case TryLock(a) =>
      s.(fields := TryLockFields(s.fields), inside := if s.fields.held then s.inside else s.inside + {a})
    case Await(a) =>
      s.(fields := AwaitFields(s.fields, a),
         inside := if s.fields.held then s.inside else s.inside + {a},
         arrivals := if s.fields.held then s.arrivals + [a] else s.arrivals)
    case Unlock(a) =>
      var next := s.fields.waiters[..if s.fields.waiters == [] then 0 else 1];
      s.(fields := UnlockFields(s.fields),
         inside := s.inside - {a} + (set x | x in next),
         handed := s.handed + next)
  }

  ghost predicate Inv(s: State) {
    var f := s.fields;
    && (f.held <==> s.inside != {})
    && (forall x, y :: x in s.inside && y in s.inside ==> x == y)
    && (f.holder.Some? ==> s.inside == {f.holder.value})
    && (!f.held ==> f.waiters == [] && f.holder == None)
    && (forall i, j :: 0 <= i < j < |f.waiters| ==> f.waiters[i] != f.waiters[j])
    && s.arrivals == s.handed + f.waiters
  }

  lemma StepInv(s: State, e: Event)
    requires Inv(s) && Allowed(s, e)
    ensures Inv(Apply(s, e))
  {
    var s' := Apply(s, e);
    if e.Unlock? && s.fields.waiters != [] {
      var next := s.fields.waiters[0];
      assert s.fields.waiters[..1] == [next];
      assert s'.inside == {next};
      assert s.fields.waiters == [next] + s'.fields.waiters;
    }
  }

  ghost predicate Legal(s: State, events: seq<Event>)
    decreases |events|
  {
    events == [] || (Allowed(s, events[0]) && Legal(Apply(s, events[0]), events[1..]))
  }

  ghost function Final(s: State, events: seq<Event>): State
    decreases |events|
  {
    if events == [] then s else Final(Apply(s, events[0]), events[1..])
  }

  lemma {:induction false} RunInv(s: State, events: seq<Event>)
    requires Inv(s) && Legal(s, events)
    ensures Inv(Final(s, events))
    decreases |events|
  {
    if events != [] {
      StepInv(s, events[0]);
      RunInv(Apply(s, events[0]), events[1..]);
    }
  }

  /** Over every run there is at most one owner, and coroutines are resumed in exactly the order they queued, once each. */
  lemma ExclusiveAndFifo(events: seq<Event>)
    requires Legal(START, events)
    ensures var s := Final(START, events);
            && (forall x, y :: x in s.inside && y in s.inside ==> x == y)
            && (s.fields.held <==> s.inside != {})
            && s.handed <= s.arrivals
            && s.fields.waiters == s.arrivals[|s.handed|..]
  {
    RunInv(START, events);
  }

  /** Nobody slips in front: while a waiter is queued the only way in is to be the first waiter when the owner unlocks. */
  lemma NoBarging(s: State, e: Event)
    requires Inv(s) && Allowed(s, e) && s.fields.waiters != []
    ensures if e.Unlock? then Apply(s, e).inside == {s.fields.waiters[0]} else Apply(s, e).inside == s.inside
    ensures Apply(s, e).fields.held
  {
    if e.Unlock? {
      assert s.fields.waiters[..1] == [s.fields.waiters[0]];
    }
  }

  function Unlocks(events: seq<Event>): nat {
    if events == [] then 0 else (if events[0].Unlock? then 1 else 0) + Unlocks(events[1..])
  }

  lemma FirstThenRest(w: seq<Actor>, n: nat)
    requires 1 <= n <= |w|
    ensures w[..n] == w[..1] + w[1..][..n - 1] && w[n..] == w[1..][n - 1..]
  {
  }

  lemma MoreBehind(w: seq<Actor>, longer: seq<Actor>, n: nat)
    requires w <= longer && n <= |w|
    ensures longer[..n] == w[..n] && w[n..] <= longer[n..]
  {
  }

  /**
  The waiter at position `k` is resumed by exactly the `k+1`-th following unlock: after `n`
  unlocks, `n` no more than the queue's length, the first `n` waiters have been resumed in
  order and the rest have moved up, whatever else happened in between.
  */
  lemma {:induction false} ServedInTurn(s: State, events: seq<Event>)
    requires Inv(s) && Legal(s, events) && Unlocks(events) <= |s.fields.waiters|
    ensures var n, f := Unlocks(events), Final(s, events);
            && f.handed == s.handed + s.fields.waiters[..n]
            && s.fields.waiters[n..] <= f.fields.waiters
    decreases |events|
  {
    if events != [] {
      var e, next := events[0], Apply(s, events[0]);
      StepInv(s, e);
      var w := s.fields.waiters;
      var n := Unlocks(events);
      ServedInTurn(next, events[1..]);
      if e.Unlock? {
        FirstThenRest(w, n);
      } else {
        MoreBehind(w, next.fields.waiters, n);
      }
    }
  }

  // ---------------------------------------------------------------- inline resumption

  /** A call, with everything the coroutine it resumes does before the call returns. */
  datatype Call = CallTryLock(a: Actor) | CallAwait(a: Actor) | CallUnlock(a: Actor, during: seq<Call>)

  /** Execution as it nests: `unlock` changes the state, then runs the resumed coroutine, then returns. */
  function Execute(s: State, call: Call): State
    decreases call, 0
  {
    match call
    case CallTryLock(a) => Apply(s, TryLock(a))
    case CallAwait(a) => Apply(s, Await(a))
    case CallUnlock(a, during) =>
      var s' := Apply(s, Unlock(a));
      if s.fields.waiters == [] then s' else ExecuteAll(s', during)
  }

  function ExecuteAll(s: State, calls: seq<Call>): State
    decreases calls
  {
    if calls == [] then s else ExecuteAll(Execute(s, calls[0]), calls[1..])
  }

  /** The same execution as a flat sequence of events. */
  function Flatten(s: State, call: Call): seq<Event>
    decreases call, 0
  {
    match call
    case CallTryLock(a) => [TryLock(a)]
    case CallAwait(a) => [Await(a)]
    case CallUnlock(a, during) =>
      [Unlock(a)] + if s.fields.waiters == [] then [] else FlattenAll(Apply(s, Unlock(a)), during)
  }

  function FlattenAll(s: State, calls: seq<Call>): seq<Event>
    decreases calls
  {
    if calls == [] then [] else Flatten(s, calls[0]) + FlattenAll(Execute(s, calls[0]), calls[1..])
  }

  /** Every call of the nest is one its actor may make in the state it is made in. */
  ghost predicate Nests(s: State, call: Call)
    decreases call, 0
  {
    match call
    case CallTryLock(a) => Allowed(s, TryLock(a))
    case CallAwait(a) => Allowed(s, Await(a))
    case CallUnlock(a, during) =>
      Allowed(s, Unlock(a)) && (s.fields.waiters != [] ==> NestsAll(Apply(s, Unlock(a)), during))
  }

  ghost predicate NestsAll(s: State, calls: seq<Call>)
    decreases calls
  {
    calls == [] || (Nests(s, calls[0]) && NestsAll(Execute(s, calls[0]), calls[1..]))
  }

  /** Wherever the nest resumes a coroutine inline, the mutex is in order and that coroutine is its one owner. */
  ghost predicate ResumesTheOwner(s: State, call: Call)
    decreases call, 0
  {
    call.CallUnlock? && s.fields.waiters != [] ==>
      var resumed := Apply(s, Unlock(call.a));
      Inv(resumed) && resumed.inside == {s.fields.waiters[0]} && ResumesTheOwnerAll(resumed, call.during)
  }

  ghost predicate ResumesTheOwnerAll(s: State, calls: seq<Call>)
    decreases calls
  {
    calls == [] || (ResumesTheOwner(s, calls[0]) && ResumesTheOwnerAll(Execute(s, calls[0]), calls[1..]))
  }

  lemma {:induction false} RunConcat(s: State, a: seq<Event>, b: seq<Event>)
    requires Legal(s, a) && Legal(Final(s, a), b)
    ensures Legal(s, a + b) && Final(s, a + b) == Final(Final(s, a), b)
    decreases |a|
  {
    if a == [] {
      assert a + b == b;
    } else {
      assert (a + b)[1..] == a[1..] + b;
      RunConcat(Apply(s, a[0]), a[1..], b);
    }
  }

  lemma RunOne(s: State, e: Event)
    requires Allowed(s, e)
    ensures Legal(s, [e]) && Final(s, [e]) == Apply(s, e)
  {
    assert [e][1..] == [];
  }

  /**
  Nested resumption is a run like any other: the nest flattens into a legal run with the same outcome, so
  every result about runs covers it. At each inline resume inside it the coroutine resumed is the owner.
  */
  lemma {:induction false} NestingIsFlat(s: State, call: Call)
    requires Inv(s) && Nests(s, call)
    ensures Legal(s, Flatten(s, call)) && Execute(s, call) == Final(s, Flatten(s, call))
    ensures Inv(Execute(s, call)) && ResumesTheOwner(s, call)
    decreases call, 0
  {
    match call
    case CallTryLock(a) =>
      StepInv(s, TryLock(a));
      RunOne(s, TryLock(a));
    case CallAwait(a) =>
      StepInv(s, Await(a));
      RunOne(s, Await(a));
    case CallUnlock(a, during) =>
      StepInv(s, Unlock(a));
      RunOne(s, Unlock(a));
      if s.fields.waiters != [] {
        NoBarging(s, Unlock(a));
        var resumed := Apply(s, Unlock(a));
        NestingIsFlatAll(resumed, during);
        RunConcat(s, [Unlock(a)], FlattenAll(resumed, during));
      }
  }

  lemma {:induction false} NestingIsFlatAll(s: State, calls: seq<Call>)
    requires Inv(s) && NestsAll(s, calls)
    ensures Legal(s, FlattenAll(s, calls)) && ExecuteAll(s, calls) == Final(s, FlattenAll(s, calls))
    ensures Inv(ExecuteAll(s, calls)) && ResumesTheOwnerAll(s, calls)
    decreases calls
  {
    if calls != [] {
      NestingIsFlat(s, calls[0]);
      NestingIsFlatAll(Execute(s, calls[0]), calls[1..]);
      RunConcat(s, Flatten(s, calls[0]), FlattenAll(Execute(s, calls[0]), calls[1..]));
    }
  }

  /** In particular, a nest of calls on a fresh mutex is exclusive and first-in first-out throughout. */
  lemma NestedIsExclusiveAndFifo(calls: seq<Call>)
    requires NestsAll(START, calls)
    ensures var s := ExecuteAll(START, calls);
            && (forall x, y :: x in s.inside && y in s.inside ==> x == y)
            && s.handed <= s.arrivals && s.fields.waiters == s.arrivals[|s.handed|..]
  {
    NestingIsFlatAll(START, calls);
    ExclusiveAndFifo(FlattenAll(START, calls));
  }

  // ---------------------------------------------------------------- awaiting a mutex already held

  /** The owner is itself queued. */
  ghost predicate SelfQueued(s: State) {
    exists a :: a in s.inside && a in s.fields.waiters
  }

  /** An owner that awaits its own mutex never resumes: no unlock is possible, and nobody is ever handed ownership again. */
  lemma {:induction false} SelfAwaitNeverResumes(s: State, events: seq<Event>)
    requires Inv(s) && SelfQueued(s) && Legal(s, events)
    ensures Unlocks(events) == 0
    ensures Final(s, events).inside == s.inside && Final(s, events).handed == s.handed && SelfQueued(Final(s, events))
    decreases |events|
  {
    if events != [] {
      StepInv(s, events[0]);
      var a :| a in s.inside && a in s.fields.waiters;
      assert s.fields.held;
      assert !events[0].Unlock?;
      assert a in Apply(s, events[0]).fields.waiters;
      SelfAwaitNeverResumes(Apply(s, events[0]), events[1..]);
    }
  }

  /** The deadlock is reported exactly for a coroutine that owns the mutex through an await, not through `try_lock`. */
  lemma ReportedExactly(s: State, a: Actor)
    requires Inv(s) && Allowed(s, Await(a))
    ensures s.fields.held && s.fields.holder == Some(a) <==> a in s.inside && s.fields.holder != None
    ensures a in s.inside ==> SelfQueued(Apply(s, Await(a)))
  {
    if a in s.inside {
      assert a in Apply(s, Await(a)).inside && a in Apply(s, Await(a)).fields.waiters;
    }
  }
}
