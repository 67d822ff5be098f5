/** The consuming side of the slot (Future_Promise/async/future.h).

    Get's wait loop (`while (s == INIT) wait`) becomes a precondition: the call can
    only take its step once the state has left INIT. TryGet reads the state without
    the lock and only then takes the lock, so it is modelled as two steps, the load
    and the locked part, between which another consumer may step. The result of a
    consuming call is Ok(outcome), where Thrown(e) is the stored exception rethrown,
    or Err(message) for the library's own runtime errors and failed assertions. */
module Futures {
  import opened Wrappers
  import opened SharedStates

  /** GetReadyResult: the stored exception is rethrown if there is one, and only
      otherwise is the value returned. */
  function ReadyResultOf<T(==)>(s: Slot<T>): (r: Result<Outcome<T>>)
    ensures s.exception.Some? ==> r == Ok(Thrown(s.exception.value))
    ensures s.exception == None ==> (r.Ok? <==> s.result.Some?)
    ensures s.exception == None && s.result.Some? ==> r == Ok(Value(s.result.value))
  {
    if s.exception.Some? then Ok(Thrown(s.exception.value))
    else if s.result.None? then Err("assertion failed: result.has_value()")
    else Ok(Value(s.result.value))
  }

  /** GetUnderLock: the first consume of a READY slot moves it to DONE_WAITING and
      yields its payload (the value is checked first here); any other state is a
      misuse. Returns the new slot and the outcome. */
  function UnderLockStep<T(==)>(s: Slot<T>): (r: (Slot<T>, Result<Outcome<T>>))
    ensures s.state == Ready ==> r.0 == s.(state := DoneWaiting)
    ensures s.state != Ready ==> r.0 == s && r.1.Err?
    ensures s.state != Init && s.state != Ready ==> r.1 == Err("double call to Future::Get")
    ensures s.state == Ready && s.result.Some? ==> r.1 == Ok(Value(s.result.value))
    ensures s.state == Ready && s.result == None ==>
              (r.1.Ok? <==> s.exception.Some?) && (r.1.Ok? ==> r.1.value == Thrown(s.exception.value))
  {
    if s.state == Init then (s, Err("assertion failed: state_number != INIT"))
    else if s.state == Ready then
      var s' := s.(state := DoneWaiting);
      if s.result.Some? then (s', Ok(Value(s.result.value)))
      else if s.exception.Some? then (s', Ok(Thrown(s.exception.value)))
      else (s', Err("assertion failed: result must hold exception"))
    else (s, Err("double call to Future::Get"))
  }

  /** Get, once the wait loop has seen a state other than INIT. */
  function GetStep<T(==)>(s: Slot<T>): (r: (Slot<T>, Result<Outcome<T>>))
    requires s.state != Init
  {
    if s.state == DoneWaiting then (s, ReadyResultOf(s)) else UnderLockStep(s)
  }

  /** Wraps a consumed outcome as TryGet's `optional<T>` (an exception stays thrown). */
  function Present<T>(r: Result<Outcome<T>>): Result<Option<Outcome<T>>> {
    if r.Ok? then Ok(Some(r.value)) else Err(r.error)
  }

  /** The part of TryGet after its unlocked load, which saw the state `seen`, run on
      the slot `s` as it is when that part runs. */
  function TryGetAfterLoad<T(==)>(s: Slot<T>, seen: nat): (r: (Slot<T>, Result<Option<Outcome<T>>>)) {
    if seen == Init then (s, Ok(None))
    else if seen == DoneWaiting then (s, Present(ReadyResultOf(s)))
    else var (s', o) := UnderLockStep(s); (s', Present(o))
  }

  /** TryGet with no other step between its load and its lock. */
  function TryGetStep<T(==)>(s: Slot<T>): (Slot<T>, Result<Option<Outcome<T>>>) {
    TryGetAfterLoad(s, s.state)
  }

  // ---------------------------------------------------------------- properties

  /** TryGet on an INIT slot answers "empty" and changes nothing. */
  lemma TryGetOnInit<T>(s: Slot<T>)
    requires s.state == Init
    ensures TryGetStep(s) == (s, Ok(None))
  {
  }

  /** The first consume of a READY slot, by Get or TryGet, moves it to DONE_WAITING and
      yields the stored value or rethrows the stored exception. */
  lemma FirstConsume<T>(s: Slot<T>, o: Outcome<T>)
    requires s.state == Ready && Holds(s, o)
    ensures GetStep(s) == (s.(state := DoneWaiting), Ok(o))
    ensures TryGetStep(s) == (s.(state := DoneWaiting), Present(Ok(o)))
  {
  }

  /** A consume of a DONE_WAITING slot yields the same outcome again, changes nothing,
      and is not an error. */
  lemma ConsumeAgain<T>(s: Slot<T>, o: Outcome<T>)
    requires s.state == DoneWaiting && Holds(s, o)
    ensures GetStep(s) == (s, Ok(o))
    ensures TryGetStep(s) == (s, Ok(Some(o)))
  {
  }

  /** With no step between its load and its lock, TryGet never reports a double call,
      and neither does Get, as long as the state is one of the three. */
  lemma NoDoubleCallWithoutRace<T>(s: Slot<T>)
    requires s.state in {Init, Ready, DoneWaiting}
    ensures TryGetStep(s).1 != Err("double call to Future::Get")
    ensures s.state != Init ==> GetStep(s).1 != Err("double call to Future::Get")
  {
  }

  /** "double call to Future::Get" comes only from a TryGet whose load saw READY while
      the slot it then locks is no longer READY. */
  lemma DoubleCallOnlyFromRace<T>(s: Slot<T>, seen: nat)
    requires s.state in {Init, Ready, DoneWaiting}
    requires TryGetAfterLoad(s, seen).1 == Err("double call to Future::Get")
    ensures seen != Init && seen != DoneWaiting && s.state == DoneWaiting
  {
  }

  /** Two TryGets whose loads both saw READY: the first to lock consumes the payload,
      the second reports the double call. */
  lemma LosingTheRace<T>(s: Slot<T>, o: Outcome<T>)
    requires s.state == Ready && Holds(s, o)
    ensures var (s1, first) := TryGetAfterLoad(s, s.state);
            first == Ok(Some(o)) && TryGetAfterLoad(s1, s.state) == (s1, Err("double call to Future::Get"))
  {
  }

  /** A future from MakeReady or MakeException answers Get and TryGet at once with its
      outcome, on the slot as written and on the corrected one alike. */
  lemma ReadyAnswersAtOnce<T>(o: Outcome<T>)
    ensures TryGetStep(MadeSlot(o)).1 == Ok(Some(o)) && GetStep(MadeSlot(o)).1 == Ok(o)
    ensures TryGetStep(ReadySlot(o)).1 == Ok(Some(o)) && GetStep(ReadySlot(o)).1 == Ok(o)
  {
    FirstConsume(MadeSlot(o), o);
    FirstConsume(ReadySlot(o), o);
  }

  // ---------------------------------------------------------------- the object

  /** A future: a handle on a shared slot. */
  class Future<T(==)> {
    const shared: SharedState<T>

    constructor (shared: SharedState<T>)
      ensures this.shared == shared
    {
      this.shared := shared;
    }

    /** Future::MakeReady, as written: a future on SharedState::MakeResult's slot
        (counter 1). */
    static method MakeReady(v: T) returns (f: Future<T>)
      ensures fresh(f) && fresh(f.shared) && f.shared.Snapshot() == MakeResult(v)
    {
      var s := SharedState.MakeResultAsWritten(v);
      f := new Future(s);
    }

    /** Future::MakeException, as written: a future on SharedState::MakeException's
        slot (counter 1). */
    static method MakeException(e: Exception) returns (f: Future<T>)
      ensures fresh(f) && fresh(f.shared) && f.shared.Snapshot() == SharedStates.MakeException(e)
    {
      var s := SharedState.MakeExceptionAsWritten(e);
      f := new Future(s);
    }

    /** MakeReady and MakeException as evidently intended: a future on the ready slot
        with the counter at 2. */
    static method MakeReadyCorrected(o: Outcome<T>) returns (f: Future<T>)
      ensures fresh(f) && fresh(f.shared) && f.shared.Snapshot() == ReadySlot(o)
    {
      var s := SharedState.MakeReady(o);
      f := new Future(s);
    }

    method GetReadyResult() returns (r: Result<Outcome<T>>)
      ensures r == ReadyResultOf(shared.Snapshot())
    {
      if shared.exception.Some? {
        return Ok(Thrown(shared.exception.value));
      }
      if shared.result.None? {
        return Err("assertion failed: result.has_value()");
      }
      r := Ok(Value(shared.result.value));
    }

    method GetUnderLock() returns (r: Result<Outcome<T>>)
      modifies shared
      ensures (shared.Snapshot(), r) == UnderLockStep(old(shared.Snapshot()))
    {
      var stateNumber := shared.state;
      if stateNumber == Init {
        return Err("assertion failed: state_number != INIT");
      }
      if stateNumber == Ready {
        shared.state := DoneWaiting;
        if shared.result.Some? {
          return Ok(Value(shared.result.value));
        }
        if shared.exception.None? {
          return Err("assertion failed: result must hold exception");
        }
        return Ok(Thrown(shared.exception.value));
      }
      r := Err("double call to Future::Get");
    }

    /** Future::Get, once the state has left INIT. */
    method Get() returns (r: Result<Outcome<T>>)
      requires shared.state != Init
      modifies shared
      ensures (shared.Snapshot(), r) == GetStep(old(shared.Snapshot()))
    {
      if shared.state == DoneWaiting {
        r := GetReadyResult();
      } else {
        r := GetUnderLock();
      }
    }

    /** Future::TryGet with no other step between its load and its lock. */
    method TryGet() returns (r: Result<Option<Outcome<T>>>)
      modifies shared
      ensures (shared.Snapshot(), r) == TryGetStep(old(shared.Snapshot()))
    {
      var s := shared.state;
      if s == Init {
        return Ok(None);
      }
      var o;
      if s == DoneWaiting {
        o := GetReadyResult();
      } else {
        o := GetUnderLock();
      }
      r := if o.Ok? then Ok(Some(o.value)) else Err(o.error);
    }

    /** Future::Then: SetContinuation on the shared slot. */
    method Then(f: Callback) returns (r: Result<()>)
      modifies shared
      ensures var spec := SetContinuation(old(shared.Snapshot()), f);
              (r.Ok? <==> spec.Ok?) &&
              (spec.Ok? ==> shared.Snapshot() == spec.value) &&
              (spec.Err? ==> shared.Snapshot() == old(shared.Snapshot()) && r.error == spec.error)
    {
      r := shared.SetContinuationAtOnce(f);
    }

    method GetExecutor() returns (e: Option<Executor>)
      ensures e == shared.executor
    {
      e := shared.executor;
    }

    method SetExecutor(e: Option<Executor>)
      modifies shared
      ensures shared.Snapshot() == old(shared.Snapshot()).(executor := e)
    {
      shared.executor := e;
    }
  }
}
