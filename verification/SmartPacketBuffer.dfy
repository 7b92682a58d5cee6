/**
  The pool of packet buffers shared by the socket reader and the processor: one queue of empty
  buffers and one of full ones, each under its own lock. Every method is one attempt at its
  locked section. Where the source waits on a condition that does not hold, the attempt changes
  nothing and answers that it would block; the waiting thread tries again later.
 */
module SmartPacketBuffers {

  /** A thread's own queue of buffers, which the pool fills and empties in place. */
  class Deque<T> {
    var items: seq<T>

    constructor ()
      ensures items == []
    {
      items := [];
    }
  }

  /** A pool queue and a thread's queue, after an exchange between them. */
  datatype Exchange<T> = Exchange(pool: seq<T>, que: seq<T>)

  /** How many more buffers bring the queue to the wanted length. */
  function Request<T>(que: seq<T>, len: nat): nat {
    if |que| >= len then 0 else len - |que|
  }

  /** `pop_empty_buffers`: the oldest empties, in front of what the reader still holds. */
  function TakeEmpty<T>(empty: seq<T>, que: seq<T>, len: nat): Exchange<T>
    requires Request(que, len) <= |empty|
  {
    var n := Request(que, len);
    Exchange(empty[n..], empty[..n] + que)
  }

  /** `pop_full_buffers`: the oldest full buffers, behind what the processor still holds. */
  function TakeFull<T>(full: seq<T>, que: seq<T>, len: nat): Exchange<T>
    requires Request(que, len) <= |full|
  {
    var n := Request(que, len);
    Exchange(full[n..], que + full[..n])
  }

  /** `push_full_buffers`: the first num buffers join the full queue at its end. */
  function PushFull<T>(full: seq<T>, que: seq<T>, num: nat): Exchange<T>
    requires num <= |que|
  {
    Exchange(full + que[..num], que[num..])
  }

  /** `recycle_buffers`: all of them become empty. */
  function Recycle<T>(empty: seq<T>, que: seq<T>): Exchange<T> {
    Exchange(empty + que, [])
  }

  /** The buffers on both sides of an exchange. */
  function Holding<T>(e: Exchange<T>): multiset<T> {
    multiset(e.pool) + multiset(e.que)
  }

  lemma SplitHolding<T>(s: seq<T>, n: nat)
    requires n <= |s|
    ensures multiset(s[..n]) + multiset(s[n..]) == multiset(s)
  {
    assert s == s[..n] + s[n..];
  }

  /** No exchange creates, loses or duplicates a buffer, and a take that succeeds reaches the length. */
  lemma ExchangesConserve<T>(pool: seq<T>, que: seq<T>, len: nat)
    ensures Request(que, len) <= |pool| ==>
              && Holding(TakeEmpty(pool, que, len)) == Holding(Exchange(pool, que))
              && Holding(TakeFull(pool, que, len)) == Holding(Exchange(pool, que))
              && |TakeEmpty(pool, que, len).que| == |TakeFull(pool, que, len).que|
              && |TakeFull(pool, que, len).que| == if |que| >= len then |que| else len
    ensures len <= |que| ==> Holding(PushFull(pool, que, len)) == Holding(Exchange(pool, que))
    ensures Holding(Recycle(pool, que)) == Holding(Exchange(pool, que))
  {
    var n := Request(que, len);
    if n <= |pool| {
      SplitHolding(pool, n);
    }
    if len <= |que| {
      SplitHolding(que, len);
    }
  }

  /** Full buffers leave in the order in which they came: a push followed by a take is first in, first out. */
  lemma PushThenTakeIsFifo<T>(full: seq<T>, que: seq<T>, num: nat, work: seq<T>, len: nat)
    requires num <= |que| && Request(work, len) <= |full| + num
    ensures var pushed := PushFull(full, que, num);
            var taken := TakeFull(pushed.pool, work, len);
            taken.que + taken.pool + pushed.que == work + full + que
  {
    var pool := full + que[..num];
    var n := Request(work, len);
    assert pool[..n] + pool[n..] == pool;
    assert que[..num] + que[num..] == que;
    calc {
      (work + pool[..n]) + pool[n..] + que[num..];
      work + (pool[..n] + pool[n..]) + que[num..];
      work + full + (que[..num] + que[num..]);
    }
  }

  class SmartPacketBuffer<T> {
    var shuttingDown: bool
    var empties: seq<T>
    var fulls: seq<T>

    constructor ()
      ensures !shuttingDown && empties == [] && fulls == []
    {
      shuttingDown, empties, fulls := false, [], [];
    }

    /** `initialize`, on buffers that have just been allocated. */
    method Initialize(buffers: seq<T>)
      modifies this
      ensures !shuttingDown && empties == buffers && fulls == old(fulls)
    {
      shuttingDown := false;
      empties := [];
      for i := 0 to |buffers|
        invariant !shuttingDown && empties == buffers[..i] && fulls == old(fulls)
      {
        empties := empties + [buffers[i]];
      }
    }

    method ShutDown()
      modifies this
      ensures shuttingDown && empties == [] && fulls == []
    {
      shuttingDown := true;
      fulls := [];
      empties := [];
    }

    /** `empties_available`, the condition the reader waits for. */
    predicate EmptiesAvailable(num: nat)
      reads this
    {
      |empties| >= num || shuttingDown
    }

    /** `full_available`, the condition the processor waits for. */
    predicate FullAvailable(num: nat)
      reads this
    {
      |fulls| >= num || shuttingDown
    }

    method PopEmptyBuffers(que: Deque<T>, len: nat) returns (blocks: bool)
      modifies this, que
      ensures shuttingDown == old(shuttingDown) && fulls == old(fulls)
      ensures blocks <==> !old(EmptiesAvailable(Request(que.items, len)))
      ensures blocks || shuttingDown ==> empties == old(empties) && que.items == old(que.items)
      ensures !blocks && !shuttingDown ==>
                Exchange(empties, que.items) == old(TakeEmpty(empties, que.items, len))
    {
      if shuttingDown || |que.items| >= len {
        return false;
      }
      var request := len - |que.items|;
      if !EmptiesAvailable(request) {
        return true;
      }
      que.items := empties[..request] + que.items;
      empties := empties[request..];
      return false;
    }

    /** Once the pool is shutting down, what a thread hands back is dropped. */
    method PushFullBuffers(que: Deque<T>, num: nat)
      requires num <= |que.items|
      modifies this, que
      ensures shuttingDown == old(shuttingDown) && empties == old(empties)
      ensures !shuttingDown ==> Exchange(fulls, que.items) == old(PushFull(fulls, que.items, num))
      ensures shuttingDown ==> fulls == old(fulls) && que.items == old(que.items)[num..]
    {
      if shuttingDown {
        que.items := que.items[num..];
        return;
      }
      fulls := fulls + que.items[..num];
      que.items := que.items[num..];
    }

    method PopFullBuffers(que: Deque<T>, len: nat) returns (blocks: bool)
      modifies this, que
      ensures shuttingDown == old(shuttingDown) && empties == old(empties)
      ensures blocks <==> !old(FullAvailable(Request(que.items, len)))
      ensures blocks || shuttingDown ==> fulls == old(fulls) && que.items == old(que.items)
      ensures !blocks && !shuttingDown ==>
                Exchange(fulls, que.items) == old(TakeFull(fulls, que.items, len))
    {
      if shuttingDown || |que.items| >= len {
        return false;
      }
      var request := len - |que.items|;
      if !FullAvailable(request) {
        return true;
      }
      que.items := que.items + fulls[..request];
      fulls := fulls[request..];
      return false;
    }

    method RecycleBuffers(que: Deque<T>)
      modifies this, que
      ensures shuttingDown == old(shuttingDown) && fulls == old(fulls) && que.items == []
      ensures !shuttingDown ==> Exchange(empties, que.items) == old(Recycle(empties, que.items))
      ensures shuttingDown ==> empties == old(empties)
    {
      if shuttingDown {
        que.items := [];
        return;
      }
      empties := empties + que.items;
      que.items := [];
    }
  }
}
