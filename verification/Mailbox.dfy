/** ChibiOS mailbox (os/oslib/src/chmboxes.c) as the conversion code uses it: a ring of message
    slots that refines a bounded first-in first-out queue. */
module Mailboxes {
  import opened Basics

  datatype Status = Ok | TimedOut | WasReset

  /** Posting to a queue of `capacity` slots: a full queue is left as it is. */
  function Posted<T>(queue: seq<T>, capacity: nat, message: T): seq<T> {
    if |queue| < capacity then queue + [message] else queue
  }

  class Mailbox<T(0)> {
    const buffer: array<T>
    var rdptr: nat
    var wrptr: nat
    var cnt: nat
    var reset: bool

    ghost predicate Valid()
      reads this
    {
      && 0 < buffer.Length
      && rdptr < buffer.Length && wrptr < buffer.Length && cnt <= buffer.Length
      && wrptr == if rdptr + cnt < buffer.Length then rdptr + cnt else rdptr + cnt - buffer.Length
    }

    /** The queued messages, oldest first; the ring may continue at its start. */
    ghost function Queue(): (q: seq<T>)
      requires Valid()
      reads this, buffer
      ensures |q| == cnt
    {
      var end := rdptr + cnt;
      if end <= buffer.Length then buffer[rdptr..end]
      else buffer[rdptr..] + buffer[..end - buffer.Length]
    }

    constructor (capacity: nat)
      requires 0 < capacity
      ensures Valid() && fresh(buffer) && buffer.Length == capacity
      ensures Queue() == [] && !reset
    {
      buffer := new T[capacity];
      rdptr, wrptr, cnt, reset := 0, 0, 0, false;
    }

    /** `chMBResetI`. */
    method ResetI()
      requires Valid()
      modifies this
      ensures Valid() && Queue() == [] && reset
    {
      wrptr := 0;
      rdptr := 0;
      cnt := 0;
      reset := true;
    }

    /** `chMBResumeX`. */
    method ResumeX()
      requires Valid()
      modifies this`reset
      ensures Valid() && Queue() == old(Queue()) && !reset
    {
      reset := false;
    }

    /** `chMBPostI`. */
    method PostI(message: T) returns (status: Status)
      requires Valid()
      modifies this, buffer
      ensures Valid() && reset == old(reset)
      ensures status == if reset then WasReset else if old(cnt) < buffer.Length then Ok else TimedOut
      ensures Queue() == if reset then old(Queue()) else Posted(old(Queue()), buffer.Length, message)
    {
      if reset {
        return WasReset;
      }
      if buffer.Length - cnt > 0 {
        ghost var before := Queue();
        buffer[wrptr] := message;
        wrptr := wrptr + 1;
        if wrptr >= buffer.Length {
          wrptr := 0;
        }
        cnt := cnt + 1;
        assert Queue() == before + [message];
        return Ok;
      }
      return TimedOut;
    }

    /** The part of `chMBFetchTimeoutS` that runs once the reader is scheduled and does not sleep:
        `None` when there is nothing to take. */
    method Fetch() returns (message: Option<T>)
      requires Valid()
      modifies this
      ensures Valid() && reset == old(reset)
      ensures if old(reset) || old(Queue()) == []
              then message == None && Queue() == old(Queue())
              else message == Some(old(Queue())[0]) && Queue() == old(Queue())[1..]
    {
      if reset || cnt == 0 {
        return None;
      }
      ghost var before := Queue();
      message := Some(buffer[rdptr]);
      assert buffer[rdptr] == before[0];
      rdptr := rdptr + 1;
      if rdptr >= buffer.Length {
        rdptr := 0;
      }
      cnt := cnt - 1;
      assert Queue() == before[1..];
    }
  }
}
