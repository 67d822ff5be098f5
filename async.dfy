/** Launching work (Future_Promise/async/async.h).

    Async starts the pool when the policy is `async`; it then runs `func` inline, giving
    a ready future, when the policy is `sync` or the pool has no free worker, and
    otherwise submits one task that sets the executor to the worker's pool and then
    fulfils a promise with func's outcome. The pool itself is not part of this model:
    whether Start was called is an out-parameter, what HasFreeWorkers answers is an
    in-parameter, and the submitted task is returned to the caller, who stands for the
    pool's worker. `func` with its arguments bound is a function to an Outcome, where
    Thrown(e) is func throwing e. */
module Launches {
  import opened Wrappers
  import opened SharedStates
  import Promises
  import Futures
  import Thens
  import Handshake

  datatype Launch = AsyncLaunch | SyncLaunch

  /** The call runs func itself under the sync policy, or when no worker is free. */
  predicate RunsInline(policy: Launch, freeWorkers: bool) {
    policy == SyncLaunch || !freeWorkers
  }

  /** The slot behind the future Async returns: when func ran inline, the slot
      Future::MakeReady or MakeException builds for its outcome (READY at counter 1, as
      written), otherwise the slot of a promise whose future has been made. */
  function LaunchedSlot<T(==)>(policy: Launch, freeWorkers: bool, func: () -> Outcome<T>): Slot<T> {
    if RunsInline(policy, freeWorkers) then MadeSlot(func()) else Promises.Promised<T>()
  }

  /** The submitted task on the promise's slot: SetExecutor(current), then Set of
      func's outcome. */
  function TaskStep<T(==)>(s: Slot<T>, current: Option<Executor>, func: () -> Outcome<T>): Result<(Slot<T>, bool)> {
    Promises.SetStep(s.(executor := current), func())
  }

  // ---------------------------------------------------------------- properties

  /** Run inline, the future is ready at once with func's outcome, value or exception.
      A continuation attached to it is stored and not run, as SetContinuation does at
      counter 1, and no schedule ever runs it: no promise is left to call Set. */
  lemma InlineLaunchIsReady<T>(policy: Launch, freeWorkers: bool, func: () -> Outcome<T>, cb: Callback,
                               schedule: seq<Handshake.Thread>)
    requires RunsInline(policy, freeWorkers)
    ensures Futures.TryGetStep(LaunchedSlot(policy, freeWorkers, func)).1 == Ok(Some(func()))
    ensures Futures.GetStep(LaunchedSlot(policy, freeWorkers, func)).1 == Ok(func())
    ensures var r := SetContinuation(LaunchedSlot(policy, freeWorkers, func), cb);
            r.Ok? && r.value.invoked == [] && r.value.continuation == Some(cb)
    ensures var w := Handshake.Run(Handshake.ReadyWorld(LaunchedSlot(policy, freeWorkers, func), func(), cb), schedule);
            w.Ok? && w.value.slot.invoked == []
  {
    var slot := LaunchedSlot(policy, freeWorkers, func);
    Futures.ReadyAnswersAtOnce(func());
    SetContinuationCases(slot, cb);
    Handshake.RunStuck(Handshake.ReadyWorld(slot, func(), cb), schedule);
  }

  /** Corrected: on the ready slot with the counter at 2 a continuation attached to the
      inline future runs at once. */
  lemma CorrectedInlineLaunchRuns<T>(func: () -> Outcome<T>, cb: Callback)
    ensures var r := SetContinuation(ReadySlot(func()), cb);
            r.Ok? && r.value.invoked == [cb]
  {
    ThenOnReadySlotRuns(func(), cb);
  }

  /** Handed to a worker, the future is empty until the task runs; the task
      (with no continuation attached yet) makes it READY with func's outcome and the
      worker's pool as its executor, and nothing is left to wait for. */
  lemma PooledLaunchWaitsForTask<T>(func: () -> Outcome<T>, current: Option<Executor>)
    ensures Futures.TryGetStep(LaunchedSlot(AsyncLaunch, true, func)).1 == Ok(None)
    ensures var r := TaskStep(LaunchedSlot(AsyncLaunch, true, func), current, func);
            r.Ok? && !r.value.1 && r.value.0.executor == current &&
            Futures.TryGetStep(r.value.0).1 == Ok(Some(func()))
  {
    var s := Promises.Promised<T>().(executor := current);
    var s1 := Promises.Store(s, func()).value;
    assert Holds(s1, func()) && s1.counter == 1;
    var s2 := TaskStep(Promises.Promised<T>(), current, func).value.0;
    assert s2.state == Ready && Holds(s2, func());
    Futures.FirstConsume(s2, func());
  }

  /** Async(sync, func) | Then(cont), as written: Then stores its callback on the
      counter-1 slot and does not run it, so the composed future stays empty. */
  lemma ThenOverInlineLaunch<T, U>(func: () -> Outcome<T>, cb: Callback, cont: T -> Outcome<U>)
    ensures Thens.AndStep(LaunchedSlot(SyncLaunch, false, func), cb, cont).Ok?
    ensures var (up, down) := Thens.AndStep(LaunchedSlot(SyncLaunch, false, func), cb, cont).value;
            up.continuation == Some(cb) && up.invoked == [] &&
            down.state == Init && Futures.TryGetStep(down).1 == Ok(None)
  {
    var up := MadeSlot(func());
    SetContinuationCases(up, cb);
  }

  /** Corrected: with the inline future on the ready slot at counter 2, the continuation
      runs during Then, so the composed future already holds cont of func's value, or
      func's exception when it threw. */
  lemma ThenOverCorrectedInlineLaunch<T, U>(func: () -> Outcome<T>, cb: Callback, cont: T -> Outcome<U>)
    ensures Thens.AndStep(ReadySlot(func()), cb, cont).Ok?
    ensures var down := Thens.AndStep(ReadySlot(func()), cb, cont).value.1;
            Futures.TryGetStep(down).1 ==
              Ok(Some(match func() case Value(v) => cont(v) case Thrown(e) => Thrown(e)))
  {
    var up := ReadySlot(func());
    SetContinuationCases(up, cb);
    var up' := SetContinuation(up, cb).value;
    assert |up'.invoked| > |up.invoked|;
    var down := Thens.Downstream<T, U>(up);
    var o: Outcome<U> := match func() case Value(v) => cont(v) case Thrown(e) => Thrown(e);
    assert Thens.RunCallback(up', down, cont) == Promises.SetStep(down, o);
    Promises.SetOnPromised(o);
    Futures.FirstConsume(Promises.SetStep(down, o).value.0, o);
  }

  // ---------------------------------------------------------------- the objects

  /** The task Async submits: the promise and the bound function it captured. */
  class LaunchTask<T(==)> {
    const promise: Promises.Promise<T>
    const func: () -> Outcome<T>

    constructor (promise: Promises.Promise<T>, func: () -> Outcome<T>)
      ensures this.promise == promise && this.func == func
    {
      this.promise, this.func := promise, func;
    }

    /** The task body, run by a worker whose ThreadPool::Current() is `current`. */
    method Run(current: Option<Executor>) returns (r: Result<bool>)
      modifies promise.shared
      ensures var spec := TaskStep(old(promise.shared.Snapshot()), current, func);
              (r.Ok? <==> spec.Ok?) &&
              (spec.Ok? ==> promise.shared.Snapshot() == spec.value.0 && r.value == spec.value.1) &&
              (spec.Err? ==> r.error == spec.error)
    {
      promise.SetExecutor(current);
      r := promise.Set(func());
    }
  }

  /** Async(policy, func, args...). */
  method Async<T(==)>(policy: Launch, func: () -> Outcome<T>, freeWorkers: bool)
    returns (started: bool, f: Futures.Future<T>, task: Option<LaunchTask<T>>)
    ensures started <==> policy == AsyncLaunch
    ensures fresh(f) && fresh(f.shared) && f.shared.Snapshot() == LaunchedSlot(policy, freeWorkers, func)
    ensures task.Some? <==> !RunsInline(policy, freeWorkers)
    ensures task.Some? ==> fresh(task.value) && task.value.promise.shared == f.shared && task.value.func == func
  {
    started := policy == AsyncLaunch;
    if policy == SyncLaunch || !freeWorkers {
      match func() {
        case Value(v) => f := Futures.Future.MakeReady(v);
        case Thrown(e) => f := Futures.Future.MakeException(e);
      }
      return started, f, None;
    }
    var p := new Promises.Promise<T>();
    var made := p.MakeFuture();
    assert made.Ok?;
    f := made.value;
    var t := new LaunchTask(p, func);
    task := Some(t);
  }

  /** Async(func, args...): the async policy. */
  method AsyncDefault<T(==)>(func: () -> Outcome<T>, freeWorkers: bool)
    returns (started: bool, f: Futures.Future<T>, task: Option<LaunchTask<T>>)
    ensures started
    ensures fresh(f) && fresh(f.shared) && f.shared.Snapshot() == LaunchedSlot(AsyncLaunch, freeWorkers, func)
    ensures task.Some? <==> freeWorkers
    ensures task.Some? ==> fresh(task.value) && task.value.promise.shared == f.shared && task.value.func == func
  {
    started, f, task := Async(AsyncLaunch, func, freeWorkers);
  }
}
