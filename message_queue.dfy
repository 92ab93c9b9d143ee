/**
 * mrpt::utils::CThreadSafeQueue: a FIFO of owned message pointers guarded by
 * a critical section. `get` hands the oldest message to the caller, or NULL
 * when the queue is empty; `get_lastest_purge_old` hands over the newest one
 * and frees all the others; `clear` (also run by the destructor) frees every
 * queued message.
 *
 * The messages are values of a type parameter; NULL is `None`. The queue's
 * own `std::queue` is the field `msgs`, front first. Which messages the queue
 * has freed is recorded, in order, in the ghost field `freed`.
 */
module MessageQueue {
  import opened Options

  class CThreadSafeQueue<T> {
    var msgs: seq<T>
    ghost var freed: seq<T>

    constructor ()
      ensures msgs == [] && freed == []
    {
      msgs := [];
      freed := [];
    }

    /** Frees the queued messages front to back and leaves the queue empty. */
    method Clear()
      modifies this
      ensures msgs == [] && freed == old(freed) + old(msgs)
    {
      while msgs != []
        invariant freed + msgs == old(freed) + old(msgs)
        decreases |msgs|
      {
        freed := freed + [msgs[0]];
        msgs := msgs[1..];
      }
    }

    /** Appends a message at the back. */
    method Push(msg: T)
      modifies this
      ensures msgs == old(msgs) + [msg] && freed == old(freed)
    {
      msgs := msgs + [msg];
    }

    /** Removes and returns the front message; NULL and no change when empty. */
    method Get() returns (r: Option<T>)
      modifies this
      ensures freed == old(freed)
      ensures old(msgs) == [] ==> r == None && msgs == []
      ensures old(msgs) != [] ==> r == Some(old(msgs)[0]) && msgs == old(msgs)[1..]
    {
      if msgs == [] {
        return None;
      }
      r := Some(msgs[0]);
      msgs := msgs[1..];
    }

    /**
     * Returns the most recently pushed message and frees every older one,
     * leaving the queue empty; NULL and no change when empty.
     */
    method GetLatestPurgeOld() returns (r: Option<T>)
      modifies this
      ensures old(msgs) == [] ==> r == None && msgs == [] && freed == old(freed)
      ensures old(msgs) != [] ==>
        r == Some(old(msgs)[|old(msgs)| - 1]) && msgs == [] && freed == old(freed) + old(msgs)[..|old(msgs)| - 1]
    {
      if msgs == [] {
        return None;
      }
      ghost var k := 0;
      while true
        invariant 0 <= k < |old(msgs)|
        invariant msgs == old(msgs)[k..] && freed == old(freed) + old(msgs)[..k]
        decreases |msgs|
      {
        var ret := msgs[0];
        msgs := msgs[1..];
        if msgs == [] {
          return Some(ret);
        }
        freed := freed + [ret];
        assert old(msgs)[..k + 1] == old(msgs)[..k] + [ret];
        k := k + 1;
      }
    }

    method Empty() returns (b: bool)
      ensures b <==> msgs == []
    {
      b := msgs == [];
    }

    method Size() returns (n: nat)
      ensures n == |msgs|
    {
      n := |msgs|;
    }
  }
}
