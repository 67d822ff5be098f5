/** The result slot shared by a promise, its future and an attached continuation
    (Future_Promise/async/shared_state.h), studied one atomic step at a time.

    Each step of the source is a pure function on a `Slot` value; the class
    `SharedState` holds the same fields and its methods perform the steps in place.
    `std::exception_ptr` is an opaque `Exception` token, the executor pointer an
    `Option<Executor>` (None is nullptr), and the stored continuation an opaque
    `Callback` token. Invoking a continuation (`f(*this)`) is recorded by appending it
    to `invoked`; what a continuation does is modelled where it is built (then.h). */
module SharedStates {
  import opened Wrappers

  // The three values of `state`.
  const Init: nat := 0
  const Ready: nat := 1
  const DoneWaiting: nat := 2

  /** An opaque exception pointer. */
  datatype Exception = Exception(id: nat)

  /** An opaque continuation. */
  datatype Callback = Callback(id: nat)

  /** An opaque executor; `Option<Executor>` stands for a possibly-null pointer. */
  type Executor = nat

  /** What a producer delivers and a consumer receives: a value or an exception. */
  datatype Outcome<T> = Value(value: T) | Thrown(exception: Exception)

  datatype Slot<T> = Slot(
    state: nat,
    result: Option<T>,
    exception: Option<Exception>,
    counter: nat,                     // futures_counter
    executor: Option<Executor>,
    continuation: Option<Callback>,
    invoked: seq<Callback>)           // every call f(*this) made so far, in order

  /** A default-constructed slot. */
  function Fresh<T(==)>(): Slot<T> {
    Slot(Init, None, None, 0, None, None, [])
  }

  /** The slot's payload holds exactly the outcome `o`. */
  predicate Holds<T(==)>(s: Slot<T>, o: Outcome<T>) {
    match o
    case Value(v) => s.result == Some(v) && s.exception == None
    case Thrown(e) => s.result == None && s.exception == Some(e)
  }

  /** SharedState::MakeResult, as written: READY, counter 1, the value stored. */
  function MakeResult<T(==)>(v: T): (s: Slot<T>)
    ensures s.state == Ready && s.counter == 1 && Holds(s, Value(v))
    ensures s.executor == None && s.continuation == None && s.invoked == []
  {
    Fresh<T>().(state := Ready, counter := 1, result := Some(v))
  }

  /** SharedState::MakeException, as written: READY, counter 1, the exception stored. */
  function MakeException<T(==)>(e: Exception): (s: Slot<T>)
    ensures s.state == Ready && s.counter == 1 && Holds(s, Thrown(e))
    ensures s.executor == None && s.continuation == None && s.invoked == []
  {
    Fresh<T>().(state := Ready, counter := 1, exception := Some(e))
  }

  /** The slot Future::MakeReady or Future::MakeException builds for an outcome, as
      written: SharedState::MakeResult or MakeException, READY at counter 1. */
  function MadeSlot<T(==)>(o: Outcome<T>): (s: Slot<T>)
    ensures s.state == Ready && s.counter == 1 && Holds(s, o)
    ensures s.executor == None && s.continuation == None && s.invoked == []
  {
    match o
    case Value(v) => MakeResult(v)
    case Thrown(e) => MakeException(e)
  }

  /** The corrected ready slot: READY with the outcome stored and
      the counter at 2, the value it has after MakeFuture (+1) and Set (+1) on a promise,
      so that SetContinuation sees "future created and value ready". */
  function ReadySlot<T(==)>(o: Outcome<T>): (s: Slot<T>)
    ensures s.state == Ready && s.counter == 2 && Holds(s, o)
    ensures s.executor == None && s.continuation == None && s.invoked == []
  {
    match o
    case Value(v) => Fresh<T>().(state := Ready, counter := 2, result := Some(v))
    case Thrown(e) => Fresh<T>().(state := Ready, counter := 2, exception := Some(e))
  }

  /** f(*this): the continuation runs on the slot. */
  function Invoke<T(==)>(s: Slot<T>, f: Callback): Slot<T> {
    s.(invoked := s.invoked + [f])
  }

  /** The first fetch_add of SetContinuation. With prev == 1 the continuation is stored
      by the next two steps (the flag in the result says so); with prev == 2 the value is
      ready and f runs at once. A continuation already present, or any other prev, fails
      an assertion. */
  function Attach<T(==)>(s: Slot<T>, f: Callback): (r: Result<(Slot<T>, bool)>)
    ensures r.Ok? <==> s.continuation == None && s.counter in {1, 2}
    ensures r.Ok? ==> r.value.1 == (s.counter == 1)
    ensures r.Ok? ==> r.value.0.counter == s.counter + 1 && r.value.0.continuation == None
    ensures r.Ok? ==> r.value.0.invoked == s.invoked + (if s.counter == 2 then [f] else [])
  {
    if s.continuation.Some? then Err("assertion failed: !continuation.has_value()")
    else
      var prev := s.counter;
      var s1 := s.(counter := prev + 1);
      if prev == 1 then Ok((s1, true))
      else if prev == 2 then Ok((Invoke(s1, f), false))
      else Err("assertion failed: prev == 2")
  }

  /** continuation.emplace(f), between the two increments of SetContinuation. */
  function Emplace<T(==)>(s: Slot<T>, f: Callback): (s': Slot<T>)
    ensures s'.continuation == Some(f) && s' == s.(continuation := s'.continuation)
  {
    s.(continuation := Some(f))
  }

  /** The second fetch_add of SetContinuation, which publishes the stored continuation. */
  function Signal<T(==)>(s: Slot<T>): (s': Slot<T>)
    ensures s'.counter == s.counter + 1 && s' == s.(counter := s'.counter)
  {
    s.(counter := s.counter + 1)
  }

  /** The whole of SetContinuation with no other step in between. */
  function SetContinuation<T(==)>(s: Slot<T>, f: Callback): Result<Slot<T>> {
    var (s1, emplace) :- Attach(s, f);
    if emplace then Ok(Signal(Emplace(s1, f))) else Ok(s1)
  }

  // ---------------------------------------------------------------- properties

  /** A continuation attached to a slot whose value is already set (counter 2) runs
      once, right away; attached before (counter 1) it is stored, not run, and the
      counter ends at 3. An existing continuation is an assertion failure. */
  lemma SetContinuationCases<T>(s: Slot<T>, f: Callback)
    ensures s.continuation.Some? ==> SetContinuation(s, f).Err?
    ensures s.continuation == None && s.counter == 1 ==>
              SetContinuation(s, f) == Ok(s.(counter := 3, continuation := Some(f)))
    ensures s.continuation == None && s.counter == 2 ==>
              SetContinuation(s, f) == Ok(s.(counter := 3, invoked := s.invoked + [f]))
  {
    if s.continuation == None && s.counter in {1, 2} {
      var (s1, emplace) := Attach(s, f).value;
      assert emplace == (s.counter == 1);
    }
  }

  /** As written, a continuation attached to a MakeResult or MakeException slot is
      stored and never run: the slot has no promise, so no Set will come to run it. */
  lemma ThenOnMadeResultIsStored<T>(v: T, e: Exception, f: Callback)
    ensures var r := SetContinuation(MakeResult(v), f);
            r.Ok? && r.value.invoked == [] && r.value.continuation == Some(f) && r.value.counter == 3
    ensures var r := SetContinuation(MakeException<T>(e), f);
            r.Ok? && r.value.invoked == [] && r.value.continuation == Some(f) && r.value.counter == 3
  {
    SetContinuationCases(MakeResult(v), f);
    SetContinuationCases(MakeException<T>(e), f);
  }

  /** With the counter at 2, a continuation attached to a ready slot runs exactly once,
      right away, and is not stored. */
  lemma ThenOnReadySlotRuns<T>(o: Outcome<T>, f: Callback)
    ensures var r := SetContinuation(ReadySlot(o), f);
            r.Ok? && r.value.invoked == [f] && r.value.continuation == None && Holds(r.value, o)
  {
    SetContinuationCases(ReadySlot(o), f);
  }

  // ---------------------------------------------------------------- the object

  /** The slot as an object whose fields the steps update in place. */
  class SharedState<T(==)> {
    var state: nat
    var result: Option<T>
    var exception: Option<Exception>
    var futuresCounter: nat
    var executor: Option<Executor>
    var continuation: Option<Callback>
    var invoked: seq<Callback>

    function Snapshot(): Slot<T>
      reads this
    {
      Slot(state, result, exception, futuresCounter, executor, continuation, invoked)
    }

    /** A fresh slot: INIT, counter 0, no payload, no continuation, null executor. */
    constructor ()
      ensures Snapshot() == Fresh()
    {
      state, result, exception, futuresCounter := Init, None, None, 0;
      executor, continuation, invoked := None, None, [];
    }

    /** SharedState::MakeResult, as written (counter 1). */
    static method MakeResultAsWritten(v: T) returns (s: SharedState<T>)
      ensures fresh(s) && s.Snapshot() == MakeResult(v)
    {
      s := new SharedState();
      s.state := Ready;
      s.futuresCounter := 1;
      s.result := Some(v);
    }

    /** SharedState::MakeException, as written (counter 1). */
    static method MakeExceptionAsWritten(e: Exception) returns (s: SharedState<T>)
      ensures fresh(s) && s.Snapshot() == MakeException(e)
    {
      s := new SharedState();
      s.state := Ready;
      s.futuresCounter := 1;
      s.exception := Some(e);
    }

    /** A ready slot with the counter at 2 (the corrected factories). */
    static method MakeReady(o: Outcome<T>) returns (s: SharedState<T>)
      ensures fresh(s) && s.Snapshot() == ReadySlot(o)
    {
      s := new SharedState();
      s.state := Ready;
      s.futuresCounter := 2;
      match o {
        case Value(v) => s.result := Some(v);
        case Thrown(e) => s.exception := Some(e);
      }
    }

    /** The first half of SetContinuation: Ok(true) when the continuation is still to be
        stored by EmplaceContinuation and SignalContinuation, Ok(false) when it ran. */
    method AttachContinuation(f: Callback) returns (r: Result<bool>)
      modifies this
      ensures var spec := Attach(old(Snapshot()), f);
              (r.Ok? <==> spec.Ok?) &&
              (spec.Ok? ==> Snapshot() == spec.value.0 && r.value == spec.value.1) &&
              (spec.Err? ==> Snapshot() == old(Snapshot()) && r.error == spec.error)
    {
      if continuation.Some? {
        return Err("assertion failed: !continuation.has_value()");
      }
      var prev := futuresCounter;
      if prev != 1 && prev != 2 {
        return Err("assertion failed: prev == 2");
      }
      futuresCounter := prev + 1;
      if prev == 1 {
        r := Ok(true);
      } else {
        invoked := invoked + [f];
        r := Ok(false);
      }
    }

    /** continuation.emplace(f). */
    method EmplaceContinuation(f: Callback)
      modifies this
      ensures Snapshot() == Emplace(old(Snapshot()), f)
    {
      continuation := Some(f);
    }

    /** The second fetch_add of SetContinuation. */
    method SignalContinuation()
      modifies this
      ensures Snapshot() == Signal(old(Snapshot()))
    {
      futuresCounter := futuresCounter + 1;
    }

    /** SetContinuation run by one thread from start to end. */
    method SetContinuationAtOnce(f: Callback) returns (r: Result<()>)
      modifies this
      ensures var spec := SetContinuation(old(Snapshot()), f);
              (r.Ok? <==> spec.Ok?) &&
              (spec.Ok? ==> Snapshot() == spec.value) &&
              (spec.Err? ==> Snapshot() == old(Snapshot()) && r.error == spec.error)
    {
      var first := AttachContinuation(f);
      if first.Err? {
        return Err(first.error);
      }
      if first.value {
        EmplaceContinuation(f);
        SignalContinuation();
      }
      r := Ok(());
    }
  }
}
