/** Continuation composition (Future_Promise/async/then.h).

    `And` makes a downstream promise and its future, copies the upstream executor onto
    that future, and registers on the upstream slot a callback that
    - passes an upstream exception on to the downstream promise, without calling cont;
    - otherwise, with an executor, submits one task that runs cont on the value and
      fulfils the downstream promise;
    - otherwise runs cont at once and fulfils the downstream promise.
    A throw from cont becomes the downstream exception. The transform `cont` is a
    function to an Outcome: Thrown(e) is cont throwing e. `Pipe` is `And`, and the
    operators `|` and `&` are `Pipe` and `And`. */
module Thens {
  import opened Wrappers
  import opened SharedStates
  import Promises
  import Futures

  /** What the callback decides on the upstream slot. */
  datatype Reaction<T, U> =
    | Forward(exception: Exception)          // SetException(state.exception)
    | Submit(executor: Executor, value: T)   // executor->Submit(task capturing value)
    | Inline(outcome: Outcome<U>)            // SetValue(cont(value)), or SetException on a throw

  /** The callback's case split: the exception is looked at first, then the executor. */
  function React<T(==), U>(s: Slot<T>, cont: T -> Outcome<U>): Result<Reaction<T, U>> {
    if s.exception.Some? then Ok(Forward(s.exception.value))
    else if s.result.None? then Err("assertion failed: state.result.has_value()")
    else if s.executor.Some? then Ok(Submit(s.executor.value, s.result.value))
    else Ok(Inline(cont(s.result.value)))
  }

  /** The callback run on the upstream slot `up`, fulfilling the downstream slot `down`
      unless it submitted a task. The flag is SetValue's: the downstream Set must still
      wait for its own continuation to be published. */
  function RunCallback<T(==), U(==)>(up: Slot<T>, down: Slot<U>, cont: T -> Outcome<U>): Result<(Slot<U>, bool)> {
    var reaction :- React(up, cont);
    match reaction
    case Forward(e) => Promises.SetStep(down, Thrown(e))
    case Submit(_, _) => Ok((down, false))
    case Inline(o) => Promises.SetStep(down, o)
  }

  /** The submitted task: cont on the captured value, fulfilling downstream. */
  function RunTask<T, U(==)>(down: Slot<U>, value: T, cont: T -> Outcome<U>): Result<(Slot<U>, bool)> {
    Promises.SetStep(down, cont(value))
  }

  /** The slot behind And's new future: a promise whose future has been made and whose
      executor is the upstream one at composition time. */
  function Downstream<T, U(==)>(up: Slot<T>): Slot<U> {
    Promises.Promised<U>().(executor := up.executor)
  }

  /** And on the upstream slot: the downstream slot is made, the callback `cb` is
      attached upstream, and when SetContinuation runs it on the spot (the upstream
      value was already set) it fires against the new downstream slot. */
  function AndStep<T(==), U(==)>(up: Slot<T>, cb: Callback, cont: T -> Outcome<U>): Result<(Slot<T>, Slot<U>)> {
    var down := Downstream<T, U>(up);
    var up' :- SetContinuation(up, cb);
    if |up'.invoked| > |up.invoked| then
      var (down', _) :- RunCallback(up', down, cont);
      Ok((up', down'))
    else Ok((up', down))
  }

  // ---------------------------------------------------------------- properties

  /** And's future carries the upstream executor as it was at composition time. */
  lemma DownstreamExecutor<T, U>(up: Slot<T>, cb: Callback, cont: T -> Outcome<U>)
    requires AndStep(up, cb, cont).Ok?
    ensures AndStep(up, cb, cont).value.1.executor == up.executor
  {
    var up' := SetContinuation(up, cb).value;
    if |up'.invoked| > |up.invoked| {
      var reaction := React(up', cont).value;
      assert Promises.Promised<U>().(executor := up.executor).state == Init;
    }
  }

  /** An upstream exception reaches the downstream promise unchanged, and cont plays
      no part: any two transforms give the same result. */
  lemma ExceptionPassesThrough<T, U>(up: Slot<T>, down: Slot<U>, cont1: T -> Outcome<U>, cont2: T -> Outcome<U>)
    requires up.exception.Some?
    ensures RunCallback(up, down, cont1) == Promises.SetStep(down, Thrown(up.exception.value))
    ensures RunCallback(up, down, cont1) == RunCallback(up, down, cont2)
  {
  }

  /** With a null executor cont runs at once on the value: the downstream promise is
      fulfilled with cont's outcome, a throw included. */
  lemma NullExecutorRunsInline<T, U>(up: Slot<T>, down: Slot<U>, cont: T -> Outcome<U>)
    requires up.exception == None && up.result.Some? && up.executor == None
    ensures RunCallback(up, down, cont) == Promises.SetStep(down, cont(up.result.value))
  {
  }

  /** With an executor, the callback leaves the downstream slot as it is and submits
      the value to that executor; the task, when it runs, fulfils downstream with cont's
      outcome. */
  lemma ExecutorDefersToTask<T, U>(up: Slot<T>, down: Slot<U>, cont: T -> Outcome<U>)
    requires up.exception == None && up.result.Some? && up.executor.Some?
    ensures React(up, cont) == Ok(Submit(up.executor.value, up.result.value))
    ensures RunCallback(up, down, cont) == Ok((down, false))
    ensures RunTask(down, up.result.value, cont) == Promises.SetStep(down, cont(up.result.value))
  {
  }

  /** p.MakeFuture() | Then(cont), then p.SetValue(v), with no executor: before the Set
      the composed TryGet is empty; the Set runs the callback, and the composed TryGet
      then yields cont(v). */
  lemma ThenOverPromise<T, U>(v: T, cb: Callback, cont: T -> Outcome<U>)
    ensures AndStep(Promises.Promised<T>(), cb, cont).Ok?
    ensures var (up1, down1) := AndStep(Promises.Promised<T>(), cb, cont).value;
            Futures.TryGetStep(down1).1 == Ok(None) &&
            Promises.SetStep(up1, Value(v)).Ok? &&
            var (up2, _) := Promises.SetStep(up1, Value(v)).value;
            up2.invoked == [cb] &&
            RunCallback(up2, down1, cont).Ok? &&
            Futures.TryGetStep(RunCallback(up2, down1, cont).value.0).1 == Ok(Some(cont(v)))
  {
    var up0 := Promises.Promised<T>();
    var up1 := up0.(counter := 3, continuation := Some(cb));
    SetContinuationCases(up0, cb);
    var down1 := Downstream<T, U>(up0);
    assert AndStep(up0, cb, cont) == Ok((up1, down1));
    var s1 := Promises.Store(up1, Value(v)).value;
    assert s1.counter == 3 && s1.continuation == Some(cb);
    var (up2, _) := Promises.SetStep(up1, Value(v)).value;
    assert up2.state == Ready && Holds(up2, Value(v)) && up2.executor == None;
    Promises.SetOnPromised(cont(v));
    Futures.FirstConsume(Promises.SetStep(down1, cont(v)).value.0, cont(v));
  }

  /** p.MakeFuture() | Then(cont1) | Then(cont2), then p.SetException(e), with no
      executor: Set runs the first callback, which passes e to the middle promise, whose
      Set runs the second callback, which passes e on; the final TryGet rethrows e and
      neither transform runs. */
  lemma FailureCrossesTwoStages<T, U, W>(e: Exception, cb1: Callback, cb2: Callback,
                                         cont1: T -> Outcome<U>, cont2: U -> Outcome<W>)
    ensures AndStep(Promises.Promised<T>(), cb1, cont1).Ok?
    ensures var (up1, mid0) := AndStep(Promises.Promised<T>(), cb1, cont1).value;
            AndStep(mid0, cb2, cont2).Ok? &&
            var (mid1, last0) := AndStep(mid0, cb2, cont2).value;
            Promises.SetStep(up1, Thrown(e)).Ok? &&
            var up2 := Promises.SetStep(up1, Thrown(e)).value.0;
            up2.invoked == [cb1] &&
            RunCallback(up2, mid1, cont1).Ok? &&
            var mid2 := RunCallback(up2, mid1, cont1).value.0;
            mid2.invoked == [cb2] &&
            RunCallback(mid2, last0, cont2).Ok? &&
            Futures.TryGetStep(RunCallback(mid2, last0, cont2).value.0).1 == Ok(Some(Thrown(e)))
  {
    var up0 := Promises.Promised<T>();
    SetContinuationCases(up0, cb1);
    var up1 := up0.(counter := 3, continuation := Some(cb1));
    var mid0 := Downstream<T, U>(up0);
    assert AndStep(up0, cb1, cont1) == Ok((up1, mid0));
    SetContinuationCases(mid0, cb2);
    var mid1 := mid0.(counter := 3, continuation := Some(cb2));
    var last0 := Downstream<U, W>(mid0);
    assert AndStep(mid0, cb2, cont2) == Ok((mid1, last0));
    var s1 := Promises.Store(up1, Thrown(e)).value;
    assert s1.counter == 3 && s1.continuation == Some(cb1) && Holds(s1, Thrown(e));
    var up2 := Promises.SetStep(up1, Thrown(e)).value.0;
    assert up2.exception == Some(e) && up2.invoked == [cb1];
    var m1 := Promises.Store(mid1, Thrown(e)).value;
    assert m1.counter == 3 && m1.continuation == Some(cb2) && Holds(m1, Thrown(e));
    var mid2 := Promises.SetStep(mid1, Thrown(e)).value.0;
    assert RunCallback(up2, mid1, cont1) == Promises.SetStep(mid1, Thrown(e));
    assert mid2.exception == Some(e) && mid2.invoked == [cb2];
    assert RunCallback(mid2, last0, cont2) == Promises.SetStep(last0, Thrown(e));
    Promises.SetOnPromised<W>(Thrown(e));
    Futures.FirstConsume(Promises.SetStep(last0, Thrown(e)).value.0, Thrown(e));
  }

  // ---------------------------------------------------------------- the objects

  /** The task the callback submits: the captured value, promise and transform. */
  class Task<T, U(==)> {
    const value: T
    const promise: Promises.Promise<U>
    const cont: T -> Outcome<U>

    constructor (value: T, promise: Promises.Promise<U>, cont: T -> Outcome<U>)
      ensures this.value == value && this.promise == promise && this.cont == cont
    {
      this.value, this.promise, this.cont := value, promise, cont;
    }

    /** try { SetValue(cont(value)) } catch { SetException(current) } */
    method Run() returns (r: Result<bool>)
      modifies promise.shared
      ensures var spec := RunTask(old(promise.shared.Snapshot()), value, cont);
              (r.Ok? <==> spec.Ok?) &&
              (spec.Ok? ==> promise.shared.Snapshot() == spec.value.0 && r.value == spec.value.1) &&
              (spec.Err? ==> r.error == spec.error)
    {
      r := promise.Set(cont(value));
    }
  }

  /** The closure And registers: the downstream promise and the transform it owns. */
  class Stage<T(==), U(==)> {
    const promise: Promises.Promise<U>
    const cont: T -> Outcome<U>

    constructor (promise: Promises.Promise<U>, cont: T -> Outcome<U>)
      ensures this.promise == promise && this.cont == cont
    {
      this.promise, this.cont := promise, cont;
    }

    /** The callback body, run on the upstream slot. */
    method Fire(up: SharedState<T>) returns (r: Result<bool>, task: Option<Task<T, U>>)
      modifies promise.shared
      ensures var spec := RunCallback(old(up.Snapshot()), old(promise.shared.Snapshot()), cont);
              (r.Ok? <==> spec.Ok?) &&
              (spec.Ok? ==> promise.shared.Snapshot() == spec.value.0 && r.value == spec.value.1) &&
              (spec.Err? ==> r.error == spec.error)
      ensures task.Some? <==> React(old(up.Snapshot()), cont).Ok? && React(old(up.Snapshot()), cont).value.Submit?
      ensures task.Some? ==> fresh(task.value) && task.value.promise == promise && task.value.cont == cont &&
                             task.value.value == old(up.result).value
    {
      task := None;
      var reaction := React(up.Snapshot(), cont);
      if reaction.Err? {
        return Err(reaction.error), None;
      }
      match reaction.value {
        case Forward(e) =>
          r := promise.SetException(e);
        case Submit(_, v) =>
          var t := new Task(v, promise, cont);
          task := Some(t);
          r := Ok(false);
        case Inline(o) =>
          r := promise.Set(o);
      }
    }
  }

  /** pipe::Then::And. Returns the composed future, the registered stage and, when the
      callback ran on the spot and submitted a task, that task. */
  method And<T(==), U(==)>(f: Futures.Future<T>, cb: Callback, cont: T -> Outcome<U>)
    returns (r: Result<Futures.Future<U>>, stage: Stage<T, U>, task: Option<Task<T, U>>)
    modifies f.shared
    ensures fresh(stage) && fresh(stage.promise.shared) && stage.cont == cont
    ensures var spec := AndStep(old(f.shared.Snapshot()), cb, cont);
            (r.Ok? <==> spec.Ok?) &&
            (spec.Ok? ==> f.shared.Snapshot() == spec.value.0 &&
                          r.value.shared == stage.promise.shared &&
                          stage.promise.shared.Snapshot() == spec.value.1)
  {
    var p := new Promises.Promise<U>();
    var made := p.MakeFuture();
    assert made.Ok?;
    var cFuture := made.value;
    var e := f.GetExecutor();
    cFuture.SetExecutor(e);
    stage := new Stage(p, cont);
    task := None;
    ghost var up := f.shared.Snapshot();
    assert p.shared.Snapshot() == Downstream<T, U>(up);
    var before := |f.shared.invoked|;
    var attached := f.Then(cb);
    if attached.Err? {
      return Err(attached.error), stage, None;
    }
    if |f.shared.invoked| > before {
      var fired, t := stage.Fire(f.shared);
      if fired.Err? {
        return Err(fired.error), stage, None;
      }
      task := t;
    }
    r := Ok(cFuture);
  }

  /** pipe::Then::Pipe: the same as And. */
  method Pipe<T(==), U(==)>(f: Futures.Future<T>, cb: Callback, cont: T -> Outcome<U>)
    returns (r: Result<Futures.Future<U>>, stage: Stage<T, U>, task: Option<Task<T, U>>)
    modifies f.shared
    ensures fresh(stage) && fresh(stage.promise.shared) && stage.cont == cont
    ensures var spec := AndStep(old(f.shared.Snapshot()), cb, cont);
            (r.Ok? <==> spec.Ok?) &&
            (spec.Ok? ==> f.shared.Snapshot() == spec.value.0 &&
                          r.value.shared == stage.promise.shared &&
                          stage.promise.shared.Snapshot() == spec.value.1)
  {
    r, stage, task := And(f, cb, cont);
  }
}
