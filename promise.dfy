/** The producing side of the slot (Future_Promise/async/promise.h).

    Set takes the slot's lock, stores the outcome and moves INIT to READY, then runs
    HandleContinuation, whose fetch_add decides who fires the continuation. When that
    fetch_add sees 2 the continuation is being attached at that moment and Set spins
    until the counter reaches 4; the spin is the separate step `Resume`, enabled only
    at counter 4. */
module Promises {
  import opened Wrappers
  import opened SharedStates
  import Futures

  /** MakeFuture's fetch_add: the counter goes up whether or not the call succeeds, and
      only the call that saw 0 gets a future. */
  function MakeFutureStep<T(==)>(s: Slot<T>): (r: (Slot<T>, Result<()>))
    ensures r.0 == s.(counter := s.counter + 1)
    ensures r.1.Ok? <==> s.counter == 0
    ensures r.1.Err? ==> r.1.error == "double call to Promise::MakeFuture"
  {
    var s' := s.(counter := s.counter + 1);
    if s.counter == 0 then (s', Ok(())) else (s', Err("double call to Promise::MakeFuture"))
  }

  /** The locked part of Set: in INIT the outcome is stored (a value in `result`, an
      exception in `exception`) and the state becomes READY; otherwise the call throws. */
  function Store<T(==)>(s: Slot<T>, o: Outcome<T>): (r: Result<Slot<T>>)
    ensures r.Ok? <==> s.state == Init
    ensures r.Err? ==> r.error == "double call to Promise::set"
    ensures r.Ok? ==> r.value.state == Ready && r.value.counter == s.counter &&
                      r.value.continuation == s.continuation && r.value.invoked == s.invoked &&
                      r.value.executor == s.executor
    ensures r.Ok? && s.result == None && s.exception == None ==> Holds(r.value, o)
  {
    if s.state != Init then Err("double call to Promise::set")
    else match o
      case Value(v) => Ok(s.(result := Some(v), state := Ready))
      case Thrown(e) => Ok(s.(exception := Some(e), state := Ready))
  }

  /** HandleContinuation's fetch_add. prev == 1: the continuation is not attached yet
      and will run when it is; prev == 3: it is attached and runs now; prev == 2: it is
      being attached, and the flag in the result says Set must wait for counter 4. */
  function HandleBegin<T(==)>(s: Slot<T>): (r: Result<(Slot<T>, bool)>)
    ensures r.Ok? <==> s.counter in {1, 2} || (s.counter == 3 && s.continuation.Some?)
    ensures r.Ok? ==> r.value.1 == (s.counter == 2)
    ensures r.Ok? ==> r.value.0.counter == s.counter + 1 && r.value.0.state == s.state
    ensures r.Ok? ==> r.value.0.invoked ==
                      s.invoked + (if s.counter == 3 then [s.continuation.value] else [])
  {
    var prev := s.counter;
    var s1 := s.(counter := prev + 1);
    if prev == 2 then Ok((s1, true))
    else if prev == 3 then
      if s.continuation.None? then Err("bad optional access")
      else Ok((Invoke(s1, s.continuation.value), false))
    else if prev == 1 then Ok((s1, false))
    else Err("assertion failed: prev == 1")
  }

  /** The end of the spin: at counter 4 the stored continuation runs. */
  function Resume<T(==)>(s: Slot<T>): (r: Result<Slot<T>>)
    requires s.counter == 4
    ensures r.Ok? <==> s.continuation.Some?
    ensures r.Ok? ==> r.value == s.(invoked := s.invoked + [s.continuation.value])
  {
    if s.continuation.None? then Err("bad optional access")
    else Ok(Invoke(s, s.continuation.value))
  }

  /** Set: the locked store followed by HandleContinuation's fetch_add. */
  function SetStep<T(==)>(s: Slot<T>, o: Outcome<T>): Result<(Slot<T>, bool)> {
    var s1 :- Store(s, o);
    HandleBegin(s1)
  }

  /** A promise's slot just after its one successful MakeFuture. */
  function Promised<T(==)>(): (s: Slot<T>)
    ensures s == Fresh().(counter := 1)
  {
    MakeFutureStep(Fresh<T>()).0
  }

  // ---------------------------------------------------------------- properties

  /** The first MakeFuture succeeds; every later one throws but still counts. */
  lemma MakeFutureOnce<T>(n: nat)
    ensures MakeFutureStep(Fresh<T>()).1.Ok?
    ensures var s := Fresh<T>().(counter := n + 1);
            MakeFutureStep(s) == (Fresh().(counter := n + 2), Err("double call to Promise::MakeFuture"))
  {
  }

  /** A second Set fails and leaves the slot as the first Set made it. */
  lemma SetTwiceFails<T>(s: Slot<T>, o1: Outcome<T>, o2: Outcome<T>)
    requires Store(s, o1).Ok?
    ensures Store(Store(s, o1).value, o2) == Err("double call to Promise::set")
  {
  }

  /** Set depends on MakeFuture having run: on a slot whose counter is still 0 the
      fallback branch's assertion fails. */
  lemma SetBeforeMakeFutureFails<T>(o: Outcome<T>)
    ensures SetStep(Fresh<T>(), o) == Err("assertion failed: prev == 1")
  {
  }

  /** Set on a promised slot with no continuation: exactly the outcome is stored, the
      state is READY, nothing runs and the counter is 2. */
  lemma SetOnPromised<T>(o: Outcome<T>)
    ensures var r := SetStep(Promised<T>(), o);
            r.Ok? && !r.value.1 && r.value.0.state == Ready && Holds(r.value.0, o) &&
            r.value.0.counter == 2 && r.value.0.invoked == []
  {
    var s1 := Store(Promised<T>(), o).value;
    assert Holds(s1, o) && s1.counter == 1;
  }

  /** What the producer sets is what the consumer gets, the first time and every
      time after. */
  lemma SetThenGet<T>(o: Outcome<T>)
    ensures var r := SetStep(Promised<T>(), o);
            r.Ok? &&
            var (s, got) := Futures.GetStep(r.value.0);
            got == Ok(o) && s.state == DoneWaiting && Futures.GetStep(s) == (s, Ok(o))
  {
    SetOnPromised(o);
    var s := SetStep(Promised<T>(), o).value.0;
    Futures.FirstConsume(s, o);
    Futures.ConsumeAgain(s.(state := DoneWaiting), o);
  }

  /** A state among the three that stays there or moves to the next one. */
  predicate MovesForward(before: nat, after: nat) {
    before <= after <= DoneWaiting && after <= before + 1
  }

  /** The state only moves forward, one value at a time: Set moves INIT to READY, the
      first consume READY to DONE_WAITING, and every other step leaves it alone. */
  lemma StateMovesForward<T>(s: Slot<T>, o: Outcome<T>, f: Callback)
    requires s.state in {Init, Ready, DoneWaiting}
    ensures Store(s, o).Ok? ==> s.state == Init && Store(s, o).value.state == Ready
    ensures MovesForward(s.state, Futures.UnderLockStep(s).0.state)
    ensures MovesForward(s.state, Futures.TryGetStep(s).0.state)
    ensures s.state != Init ==> MovesForward(s.state, Futures.GetStep(s).0.state)
    ensures MakeFutureStep(s).0.state == s.state
    ensures HandleBegin(s).Ok? ==> HandleBegin(s).value.0.state == s.state
    ensures s.counter == 4 && Resume(s).Ok? ==> Resume(s).value.state == s.state
    ensures Attach(s, f).Ok? ==> Attach(s, f).value.0.state == s.state
    ensures Emplace(s, f).state == s.state && Signal(s).state == s.state
  {
  }

  // ---------------------------------------------------------------- the object

  /** A promise: the producing handle on a fresh slot. */
  class Promise<T(==)> {
    const shared: SharedState<T>

    constructor ()
      ensures fresh(shared) && shared.Snapshot() == Fresh()
    {
      shared := new SharedState();
    }

    /** Promise::MakeFuture. */
    method MakeFuture() returns (r: Result<Futures.Future<T>>)
      modifies shared
      ensures shared.Snapshot() == MakeFutureStep(old(shared.Snapshot())).0
      ensures r.Ok? <==> MakeFutureStep(old(shared.Snapshot())).1.Ok?
      ensures r.Ok? ==> fresh(r.value) && r.value.shared == shared
      ensures r.Err? ==> r.error == MakeFutureStep(old(shared.Snapshot())).1.error
    {
      var prev := shared.futuresCounter;
      shared.futuresCounter := prev + 1;
      if prev == 0 {
        var f := new Futures.Future(shared);
        return Ok(f);
      }
      r := Err("double call to Promise::MakeFuture");
    }

    /** HandleContinuation up to its spin: Ok(true) when Set must still wait for
        counter 4 and then call AwaitContinuation. */
    method HandleContinuation() returns (r: Result<bool>)
      modifies shared
      ensures var spec := HandleBegin(old(shared.Snapshot()));
              (r.Ok? <==> spec.Ok?) &&
              (spec.Ok? ==> shared.Snapshot() == spec.value.0 && r.value == spec.value.1) &&
              (spec.Err? ==> r.error == spec.error)
    {
      var prev := shared.futuresCounter;
      shared.futuresCounter := prev + 1;
      if prev == 2 {
        r := Ok(true);
      } else if prev == 3 {
        if shared.continuation.None? {
          return Err("bad optional access");
        }
        shared.invoked := shared.invoked + [shared.continuation.value];
        r := Ok(false);
      } else if prev == 1 {
        r := Ok(false);
      } else {
        r := Err("assertion failed: prev == 1");
      }
    }

    /** The spin's exit: once the counter is 4 the stored continuation runs. */
    method AwaitContinuation() returns (r: Result<()>)
      requires shared.futuresCounter == 4
      modifies shared
      ensures var spec := Resume(old(shared.Snapshot()));
              (r.Ok? <==> spec.Ok?) && (spec.Ok? ==> shared.Snapshot() == spec.value) &&
              (spec.Err? ==> r.error == spec.error)
    {
      if shared.continuation.None? {
        return Err("bad optional access");
      }
      shared.invoked := shared.invoked + [shared.continuation.value];
      r := Ok(());
    }

    /** Promise::Set: on Err from the locked part nothing changes. */
    method Set(o: Outcome<T>) returns (r: Result<bool>)
      modifies shared
      ensures var spec := SetStep(old(shared.Snapshot()), o);
              (r.Ok? <==> spec.Ok?) &&
              (spec.Ok? ==> shared.Snapshot() == spec.value.0 && r.value == spec.value.1) &&
              (spec.Err? ==> r.error == spec.error)
      ensures Store(old(shared.Snapshot()), o).Err? ==> shared.Snapshot() == old(shared.Snapshot())
    {
      if shared.state != Init {
        return Err("double call to Promise::set");
      }
      match o {
        case Value(v) => shared.result := Some(v);
        case Thrown(e) => shared.exception := Some(e);
      }
      shared.state := Ready;
      r := HandleContinuation();
    }

    /** Promise::SetValue. */
    method SetValue(v: T) returns (r: Result<bool>)
      modifies shared
      ensures var spec := SetStep(old(shared.Snapshot()), Value(v));
              (r.Ok? <==> spec.Ok?) &&
              (spec.Ok? ==> shared.Snapshot() == spec.value.0 && r.value == spec.value.1) &&
              (spec.Err? ==> r.error == spec.error)
      ensures old(shared.state) != Init ==> shared.Snapshot() == old(shared.Snapshot())
    {
      r := Set(Value(v));
    }

    /** Promise::SetException. */
    method SetException(e: Exception) returns (r: Result<bool>)
      modifies shared
      ensures var spec := SetStep(old(shared.Snapshot()), Thrown(e));
              (r.Ok? <==> spec.Ok?) &&
              (spec.Ok? ==> shared.Snapshot() == spec.value.0 && r.value == spec.value.1) &&
              (spec.Err? ==> r.error == spec.error)
      ensures old(shared.state) != Init ==> shared.Snapshot() == old(shared.Snapshot())
    {
      r := Set(Thrown(e));
    }

    /** Promise::SetExecutor writes the executor the future and continuations read. */
    method SetExecutor(e: Option<Executor>)
      modifies shared
      ensures shared.Snapshot() == old(shared.Snapshot()).(executor := e)
    {
      shared.executor := e;
    }
  }
}
