/** The executor's task queue (Future_Promise/exec/queue.h).

    The deque is pushed at the front and popped at the back, so the buffer holds the
    newest element first; `Pending` is the same elements oldest first, and the
    contracts say the queue is first-in first-out in those terms. Take's wait on the
    condition variable becomes its precondition: it proceeds once the buffer is
    non-empty or the queue is closed. The mutex and the notifications are not part of
    this model. */
module Queues {
  import opened Wrappers

  /** The sequence in the opposite order. */
  function Reverse<T>(s: seq<T>): (r: seq<T>)
    ensures |r| == |s|
  {
    if |s| == 0 then [] else Reverse(s[1..]) + [s[0]]
  }

  /** Reverse puts every element at the mirrored index. */
  lemma {:induction false} ReverseIndex<T>(s: seq<T>, i: nat)
    requires i < |s|
    ensures Reverse(s)[i] == s[|s| - 1 - i]
  {
    if i < |s| - 1 {
      ReverseIndex(s[1..], i);
    }
  }

  /** Reversing twice gives the sequence back. */
  lemma ReverseInvolutive<T>(s: seq<T>)
    ensures Reverse(Reverse(s)) == s
  {
    forall i | 0 <= i < |s|
      ensures Reverse(Reverse(s))[i] == s[i]
    {
      ReverseIndex(Reverse(s), i);
      ReverseIndex(s, |s| - 1 - i);
    }
  }

  /** An element pushed at the front arrives last in arrival order. */
  lemma PushFrontArrivesLast<T>(e: T, s: seq<T>)
    ensures Reverse([e] + s) == Reverse(s) + [e]
  {
    assert ([e] + s)[1..] == s;
  }

  /** The back of the buffer is the oldest element, and popping it drops the head of
      the arrival order. */
  lemma PopBackTakesOldest<T>(s: seq<T>)
    requires |s| > 0
    ensures Reverse(s)[0] == s[|s| - 1]
    ensures Reverse(s[..|s| - 1]) == Reverse(s)[1..]
  {
    ReverseIndex(s, 0);
    var t := s[..|s| - 1];
    forall i | 0 <= i < |t|
      ensures Reverse(t)[i] == Reverse(s)[1..][i]
    {
      ReverseIndex(t, i);
      ReverseIndex(s, i + 1);
      var k := |t| - 1 - i;
      assert |t| == |s| - 1 && k == |s| - 1 - (i + 1);
      assert t[k] == s[k];
    }
    assert |Reverse(t)| == |Reverse(s)[1..]|;
  }

  /** UnboundedBlockingQueue. */
  class UnboundedBlockingQueue<T> {
    var buffer: seq<T>      // newest first: push front, pop back
    var closed: bool

    /** The queued elements in the order they were put. */
    function Pending(): seq<T>
      reads this
    {
      Reverse(buffer)
    }

    constructor ()
      ensures buffer == [] && !closed
    {
      buffer, closed := [], false;
    }

    /** Put: refused, and nothing changes, once the queue is closed; otherwise the
        element joins the end of the arrival order. */
    method Put(e: T) returns (accepted: bool)
      modifies this
      ensures accepted <==> !old(closed)
      ensures closed == old(closed)
      ensures accepted ==> buffer == [e] + old(buffer) && Pending() == old(Pending()) + [e]
      ensures !accepted ==> buffer == old(buffer)
    {
      if closed {
        return false;
      }
      PushFrontArrivesLast(e, buffer);
      buffer := [e] + buffer;
      accepted := true;
    }

    /** Take, once the wait saw an element or the closed flag. */
    method Take() returns (r: Option<T>)
      requires |buffer| > 0 || closed
      modifies this
      ensures closed == old(closed)
      ensures old(|buffer|) == 0 ==> r == None && buffer == old(buffer)
      ensures old(|buffer|) > 0 ==> r == Some(old(Pending())[0]) && Pending() == old(Pending())[1..]
      ensures old(|buffer|) > 0 ==> buffer == old(buffer)[..|old(buffer)| - 1]
    {
      r := TakeUnderLock();
    }

    /** Close: sets the flag, keeps the elements still queued; closing again changes
        nothing. */
    method Close()
      modifies this
      ensures closed && buffer == old(buffer)
    {
      closed := true;
    }

    /** TakeUnderLock: nothing when the buffer is empty, otherwise the oldest element. */
    method TakeUnderLock() returns (r: Option<T>)
      modifies this
      ensures closed == old(closed)
      ensures old(|buffer|) == 0 ==> r == None && buffer == old(buffer)
      ensures old(|buffer|) > 0 ==> r == Some(old(Pending())[0]) && Pending() == old(Pending())[1..]
      ensures old(|buffer|) > 0 ==> buffer == old(buffer)[..|old(buffer)| - 1]
    {
      if |buffer| == 0 {
        return None;
      }
      PopBackTakesOldest(buffer);
      r := Some(buffer[|buffer| - 1]);
      buffer := buffer[..|buffer| - 1];
    }
  }
}
