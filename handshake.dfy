/** The futures_counter handshake (Future_Promise/async/shared_state.h:53-67 and
    Future_Promise/async/promise.h:85-100) over every interleaving.

    Two threads share one slot: the producer, whose Set stores the outcome and does
    HandleContinuation's fetch_add, possibly followed by the spin on counter 4; and the
    attacher, whose Then does SetContinuation's first fetch_add, the emplace and the
    second fetch_add. Each atomic action is one step; a scheduler picks which thread
    steps next. A thread picked while it spins (counter not yet 4) or after it has
    finished takes a step that changes nothing.

    The Set call is one step: its locked store touches `state`, `result` and
    `exception`, which the attacher never reads, so no interleaving of the attacher
    between the store and the fetch_add can be told apart from one before or after. */
module Handshake {
  import opened Wrappers
  import opened SharedStates
  import Promises

  /** Where the producer is. Its two final positions record which branch it took:
      SetQuiet (prev == 1, the attacher will run the continuation) or SetFired (it
      ran the continuation, at prev == 3 or after the spin). */
  datatype ProducerPc = BeforeSet | Spinning | SetQuiet | SetFired

  /** Where the attacher is. Final positions: Stored (the continuation was stored
      for the producer to run) or AttachFired (it ran the continuation at prev == 2). */
  datatype AttacherPc = BeforeAttach | Emplacing | Emplaced | Stored | AttachFired

  datatype Thread = Producer | Attacher

  datatype World<T> = World(slot: Slot<T>, producer: ProducerPc, attacher: AttacherPc,
                            payload: Outcome<T>, callback: Callback)

  /** A promise with its future made, a Set of `o` and a Then of `f` still to come. */
  function Start<T(==)>(o: Outcome<T>, f: Callback): World<T> {
    World(Promises.Promised(), BeforeSet, BeforeAttach, o, f)
  }

  /** One step of thread `t`. */
  function Step<T(==)>(w: World<T>, t: Thread): Result<World<T>> {
    match t
    case Producer =>
      (match w.producer
      case BeforeSet =>
        var (s, spin) :- Promises.SetStep(w.slot, w.payload);
        var pc := if spin then Spinning else if w.slot.counter == 3 then SetFired else SetQuiet;
        Ok(w.(slot := s, producer := pc))
      case Spinning =>
        if w.slot.counter != 4 then Ok(w)
        else
          var s :- Promises.Resume(w.slot);
          Ok(w.(slot := s, producer := SetFired))
      case _ => Ok(w))
    case Attacher =>
      (match w.attacher
      case BeforeAttach =>
        var (s, emplace) :- Attach(w.slot, w.callback);
        Ok(w.(slot := s, attacher := if emplace then Emplacing else AttachFired))
      case Emplacing => Ok(w.(slot := Emplace(w.slot, w.callback), attacher := Emplaced))
      case Emplaced => Ok(w.(slot := Signal(w.slot), attacher := Stored))
      case _ => Ok(w))
  }

  /** Runs the threads in the order the schedule names them; Err when a step fails an
      assertion or throws. */
  function Run<T(==)>(w: World<T>, schedule: seq<Thread>): Result<World<T>>
    decreases |schedule|
  {
    if schedule == [] then Ok(w)
    else
      var w1 :- Step(w, schedule[0]);
      Run(w1, schedule[1..])
  }

  /** Both threads have finished. */
  predicate Done<T>(w: World<T>) {
    (w.producer == SetQuiet || w.producer == SetFired) &&
    (w.attacher == Stored || w.attacher == AttachFired)
  }

  function ProducerIncrements(pc: ProducerPc): nat {
    if pc == BeforeSet then 0 else 1
  }

  function AttacherIncrements(pc: AttacherPc): nat {
    match pc
    case BeforeAttach => 0
    case Emplacing => 1
    case Emplaced => 1
    case Stored => 2
    case AttachFired => 1
  }

  /** What holds in every reachable world: the counter counts the increments made,
      the continuation is stored exactly while the attacher has emplaced it, the
      payload is in place once Set has run, the continuation has run exactly when one
      thread took its firing branch, and the positions are consistent with the
      counter values each branch saw. */
  predicate Inv<T(==)>(w: World<T>) {
    var s := w.slot;
    s.counter == 1 + ProducerIncrements(w.producer) + AttacherIncrements(w.attacher) &&
    s.continuation == (if w.attacher == Emplaced || w.attacher == Stored then Some(w.callback) else None) &&
    (w.producer == BeforeSet ==> s.state == Init && s.result == None && s.exception == None) &&
    (w.producer != BeforeSet ==> s.state == Ready && Holds(s, w.payload)) &&
    s.invoked == (if w.attacher == AttachFired || w.producer == SetFired then [w.callback] else []) &&
    (w.producer == SetQuiet ==> w.attacher == BeforeAttach || w.attacher == AttachFired) &&
    (w.attacher == AttachFired ==> w.producer == SetQuiet) &&
    (w.producer == Spinning ==> w.attacher == Emplacing || w.attacher == Emplaced || w.attacher == Stored) &&
    (w.producer == SetFired ==> w.attacher == Stored)
  }

  // ---------------------------------------------------------------- the invariant

  lemma StartInv<T>(o: Outcome<T>, f: Callback)
    ensures Inv(Start(o, f))
  {
  }

  lemma ProducerStepInv<T>(w: World<T>)
    requires Inv(w)
    ensures Step(w, Producer).Ok? && Inv(Step(w, Producer).value)
  {
    if w.producer == BeforeSet {
      var s1 := Promises.Store(w.slot, w.payload).value;
      assert s1.state == Ready && Holds(s1, w.payload) && s1.counter == w.slot.counter;
      assert s1.continuation == w.slot.continuation && s1.invoked == w.slot.invoked;
      var (s, spin) := Promises.HandleBegin(s1).value;
      assert spin == (w.slot.counter == 2);
    } else if w.producer == Spinning && w.slot.counter == 4 {
      assert w.attacher == Stored;
    }
  }

  lemma AttacherStepInv<T>(w: World<T>)
    requires Inv(w)
    ensures Step(w, Attacher).Ok? && Inv(Step(w, Attacher).value)
  {
    if w.attacher == BeforeAttach {
      var (s, emplace) := Attach(w.slot, w.callback).value;
      assert emplace == (w.producer == BeforeSet);
    }
  }

  /** No step of either thread fails, and every step keeps the invariant. */
  lemma StepInv<T>(w: World<T>, t: Thread)
    requires Inv(w)
    ensures Step(w, t).Ok? && Inv(Step(w, t).value)
    ensures Step(w, t).value.payload == w.payload && Step(w, t).value.callback == w.callback
  {
    if t == Producer { ProducerStepInv(w); } else { AttacherStepInv(w); }
  }

  /** Under every schedule no assertion fails and the invariant is kept. */
  lemma {:induction false} RunInv<T>(w: World<T>, schedule: seq<Thread>)
    requires Inv(w)
    ensures Run(w, schedule).Ok? && Inv(Run(w, schedule).value)
    ensures Run(w, schedule).value.payload == w.payload && Run(w, schedule).value.callback == w.callback
    decreases |schedule|
  {
    if schedule != [] {
      StepInv(w, schedule[0]);
      RunInv(Step(w, schedule[0]).value, schedule[1..]);
    }
  }

  /** In every reachable world the continuation has run at most once, and if it has
      run, it ran on a READY slot holding the payload. */
  lemma AtMostOnce<T>(w: World<T>)
    requires Inv(w)
    ensures |w.slot.invoked| <= 1
    ensures w.slot.invoked != [] ==>
              w.slot.invoked == [w.callback] && w.slot.state == Ready && Holds(w.slot, w.payload)
  {
  }

  /** Once both threads have finished, the continuation has run exactly once. */
  lemma OnceWhenDone<T>(w: World<T>)
    requires Inv(w) && Done(w)
    ensures w.slot.invoked == [w.callback]
  {
  }

  // ---------------------------------------------------------------- progress

  /** A schedule that finishes any reachable world: the attacher never waits, and
      once it has finished the producer needs at most two steps. */
  const Finisher: seq<Thread> := [Attacher, Attacher, Attacher, Producer, Producer]

  lemma AttacherFinishes<T>(w: World<T>)
    requires Inv(w)
    ensures var r := Run(w, [Attacher, Attacher, Attacher]);
            r.Ok? && Inv(r.value) && (r.value.attacher == Stored || r.value.attacher == AttachFired) &&
            r.value.producer == w.producer
  {
    RunInv(w, [Attacher, Attacher, Attacher]);
    var w1 := Step(w, Attacher).value;
    StepInv(w, Attacher);
    var w2 := Step(w1, Attacher).value;
    StepInv(w1, Attacher);
    StepInv(w2, Attacher);
    assert Run(w, [Attacher, Attacher, Attacher]) == Step(w2, Attacher) by {
      assert [Attacher, Attacher, Attacher][1..] == [Attacher, Attacher];
      assert [Attacher, Attacher][1..] == [Attacher];
    }
  }

  lemma ProducerFinishes<T>(w: World<T>)
    requires Inv(w) && (w.attacher == Stored || w.attacher == AttachFired)
    ensures var r := Run(w, [Producer, Producer]); r.Ok? && Done(r.value)
  {
    var w1 := Step(w, Producer).value;
    StepInv(w, Producer);
    StepInv(w1, Producer);
    assert Run(w, [Producer, Producer]) == Step(w1, Producer) by {
      assert [Producer, Producer][1..] == [Producer];
    }
  }

  lemma {:induction false} RunAppend<T>(w: World<T>, a: seq<Thread>, b: seq<Thread>)
    requires Run(w, a).Ok?
    ensures Run(w, a + b) == Run(Run(w, a).value, b)
    decreases |a|
  {
    if a != [] {
      var w1 := Step(w, a[0]);
      assert w1.Ok? && Run(w, a) == Run(w1.value, a[1..]);
      assert (a + b)[0] == a[0] && (a + b)[1..] == a[1..] + b;
      assert Run(w, a + b) == Run(w1.value, a[1..] + b);
      RunAppend(w1.value, a[1..], b);
    } else {
      assert a + b == b;
    }
  }

  /** From every reachable world the finishing schedule brings both threads to an end. */
  lemma Finishes<T>(w: World<T>)
    requires Inv(w)
    ensures Run(w, Finisher).Ok? && Done(Run(w, Finisher).value) && Inv(Run(w, Finisher).value)
  {
    AttacherFinishes(w);
    var w3 := Run(w, [Attacher, Attacher, Attacher]).value;
    ProducerFinishes(w3);
    RunAppend(w, [Attacher, Attacher, Attacher], [Producer, Producer]);
    assert [Attacher, Attacher, Attacher] + [Producer, Producer] == Finisher;
    RunInv(w, Finisher);
  }

  // ---------------------------------------------------------------- the handshake

  /** From a reachable world, under any schedule: no step fails and the continuation
      has run at most once, exactly once if both threads are done. */
  lemma AtMostOnceUnder<T>(w0: World<T>, schedule: seq<Thread>)
    requires Inv(w0)
    ensures var w := Run(w0, schedule);
            w.Ok? && |w.value.slot.invoked| <= 1 &&
            (Done(w.value) ==> w.value.slot.invoked == [w0.callback])
  {
    RunInv(w0, schedule);
    var w := Run(w0, schedule).value;
    AtMostOnce(w);
    if Done(w) { OnceWhenDone(w); }
  }

  /** From a reachable world, any schedule followed by Finisher ends with both threads
      done and the continuation run exactly once, on the READY slot holding the
      payload. */
  lemma OnceAfterFinishing<T>(w0: World<T>, schedule: seq<Thread>)
    requires Inv(w0)
    ensures var w := Run(w0, schedule + Finisher);
            w.Ok? && Done(w.value) && w.value.slot.invoked == [w0.callback] &&
            w.value.slot.state == Ready && Holds(w.value.slot, w0.payload)
  {
    RunInv(w0, schedule);
    var w := Run(w0, schedule).value;
    Finishes(w);
    RunAppend(w0, schedule, Finisher);
    var w' := Run(w, Finisher).value;
    RunInv(w, Finisher);
    OnceWhenDone(w');
    AtMostOnce(w');
  }

  /** Exactly once: after MakeFuture, whatever interleaving the scheduler chooses for
      Set and Then, no step fails, the continuation never runs twice, and completing
      the run runs it exactly once, on the READY slot holding the outcome that was set. */
  lemma ExactlyOnce<T>(o: Outcome<T>, f: Callback, schedule: seq<Thread>)
    ensures var w := Run(Start(o, f), schedule);
            w.Ok? && |w.value.slot.invoked| <= 1 && (Done(w.value) ==> w.value.slot.invoked == [f])
    ensures var w := Run(Start(o, f), schedule + Finisher);
            w.Ok? && Done(w.value) && w.value.slot.invoked == [f] &&
            w.value.slot.state == Ready && Holds(w.value.slot, o)
  {
    StartInv(o, f);
    AtMostOnceUnder(Start(o, f), schedule);
    OnceAfterFinishing(Start(o, f), schedule);
  }

  // ---------------------------------------------------------------- ready-made slots

  /** A future made ready (MakeReady / MakeException) with a Then of `f` to come and
      no promise: nothing will ever call Set. The producer is modelled as already
      finished on its quiet branch. */
  function ReadyWorld<T(==)>(slot: Slot<T>, o: Outcome<T>, f: Callback): World<T> {
    World(slot, SetQuiet, BeforeAttach, o, f)
  }

  /** The worlds reachable from a ready-made slot as SharedState::MakeResult builds it
      (counter 1): the attacher takes the "not ready yet" branch and stores the
      continuation, which nobody runs. */
  predicate StuckInv<T(==)>(w: World<T>) {
    w.producer == SetQuiet && w.slot.invoked == [] && w.attacher != AttachFired &&
    w.slot.counter == 1 + AttacherIncrements(w.attacher) &&
    w.slot.continuation == (if w.attacher == Emplaced || w.attacher == Stored then Some(w.callback) else None)
  }

  lemma {:induction false} RunStuck<T>(w: World<T>, schedule: seq<Thread>)
    requires StuckInv(w)
    ensures Run(w, schedule).Ok? && StuckInv(Run(w, schedule).value)
    decreases |schedule|
  {
    if schedule != [] {
      var w1 := Step(w, schedule[0]);
      if schedule[0] == Attacher && w.attacher == BeforeAttach {
        var (s, emplace) := Attach(w.slot, w.callback).value;
        assert emplace;
      }
      assert w1.Ok? && StuckInv(w1.value);
      RunStuck(w1.value, schedule[1..]);
    }
  }

  /** As written: a continuation attached to a future from MakeReady or MakeException
      never runs, under any schedule, although the attacher finishes. */
  lemma MadeResultNeverFires<T>(v: T, e: Exception, f: Callback, schedule: seq<Thread>)
    ensures var w := Run(ReadyWorld(MakeResult(v), Value(v), f), schedule);
            w.Ok? && w.value.slot.invoked == []
    ensures var w := Run(ReadyWorld(MakeException<T>(e), Thrown(e), f), schedule);
            w.Ok? && w.value.slot.invoked == []
    ensures var w := Run(ReadyWorld(MakeResult(v), Value(v), f), Finisher);
            w.Ok? && Done(w.value) && w.value.slot.invoked == []
  {
    RunStuck(ReadyWorld(MakeResult(v), Value(v), f), schedule);
    RunStuck(ReadyWorld(MakeException<T>(e), Thrown(e), f), schedule);
    var w := ReadyWorld(MakeResult(v), Value(v), f);
    RunStuck(w, Finisher);
    var (s, emplace) := Attach(w.slot, w.callback).value;
    assert Step(w, Attacher) == Ok(w.(slot := s, attacher := Emplacing));
  }

  /** Corrected: with the counter at 2 the ready-made world satisfies the handshake
      invariant, so under every schedule the continuation runs exactly once, on the
      stored outcome. */
  lemma ReadySlotFiresOnce<T>(o: Outcome<T>, f: Callback, schedule: seq<Thread>)
    ensures var w := Run(ReadyWorld(ReadySlot(o), o, f), schedule);
            w.Ok? && |w.value.slot.invoked| <= 1 &&
            (Done(w.value) ==> w.value.slot.invoked == [f])
    ensures var w := Run(ReadyWorld(ReadySlot(o), o, f), schedule + Finisher);
            w.Ok? && Done(w.value) && w.value.slot.invoked == [f] && Holds(w.value.slot, o)
  {
    var w0 := ReadyWorld(ReadySlot(o), o, f);
    assert Inv(w0);
    AtMostOnceUnder(w0, schedule);
    OnceAfterFinishing(w0, schedule);
  }
}
