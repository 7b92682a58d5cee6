/**
  The socket reader's loop on its own queue and its array of raw pointers, updated in place. Each
  stretch of the loop is proved to be the protocol's step of that name, so what PoolProtocol.dfy
  proves of every run holds of what this code does.
 */
module SocketReaders {

  import opened SmartPacketBuffers
  import opened PoolProtocol

  class SocketReader {
    var pktsPerRead: nat
    var running: bool

    constructor ()
      ensures pktsPerRead == 1 && !running
    {
      pktsPerRead, running := 1, false;
    }

    method SetPktsPerRead(n: nat)
      modifies `pktsPerRead
      ensures pktsPerRead == if running then old(pktsPerRead) else n
    {
      if running {
        return;
      }
      pktsPerRead := n;
    }

    /** The protocol state with the reader at a point of its loop; `rest` gives what it cannot see. */
    ghost function View(rest: State, pool: SmartPacketBuffer<Buf>, bufQue: Deque<Buf>, iovecs: array<Buf>,
                        at: ReaderAt): State
      reads pool, bufQue, iovecs
    {
      rest.(empty := pool.empties, full := pool.fulls, bufQue := bufQue.items, iovecs := iovecs[..], reader := at)
    }

    /** Fill the queue before the loop. */
    method Prime(ghost cfg: Config, ghost rest: State,
                 pool: SmartPacketBuffer<Buf>, bufQue: Deque<Buf>, iovecs: array<Buf>)
      returns (blocks: bool)
      requires cfg.r == pktsPerRead && !pool.shuttingDown
      modifies pool, bufQue
      ensures !pool.shuttingDown
      ensures blocks <==> !Enabled(cfg, old(View(rest, pool, bufQue, iovecs, Priming)), Step.Prime)
      ensures View(rest, pool, bufQue, iovecs, if blocks then Priming else Pointing) ==
                if blocks then old(View(rest, pool, bufQue, iovecs, Priming))
                else Do(cfg, old(View(rest, pool, bufQue, iovecs, Priming)), Step.Prime)
    {
      blocks := pool.PopEmptyBuffers(bufQue, pktsPerRead);
    }

    /** Point every raw pointer at the buffer in the same place of the queue. */
    method PointAll(ghost cfg: Config, ghost rest: State,
                    pool: SmartPacketBuffer<Buf>, bufQue: Deque<Buf>, iovecs: array<Buf>)
      requires cfg.r == pktsPerRead == iovecs.Length <= |bufQue.items|
      modifies iovecs
      ensures View(rest, pool, bufQue, iovecs, Ready)
              == Do(cfg, old(View(rest, pool, bufQue, iovecs, Pointing)), Step.Point)
    {
      for i := 0 to pktsPerRead
        invariant iovecs[..i] == bufQue.items[..i]
      {
        iovecs[i] := bufQue.items[i];
      }
      assert iovecs[..] == iovecs[..pktsPerRead];
    }

    /** Point the first n raw pointers at the new buffers; the others stay as they are. */
    method Repoint(bufQue: Deque<Buf>, iovecs: array<Buf>, n: nat)
      requires n <= iovecs.Length && n <= |bufQue.items|
      modifies iovecs
      ensures iovecs[..] == bufQue.items[..n] + old(iovecs[..])[n..]
    {
      for i := 0 to n
        invariant forall k :: 0 <= k < i ==> iovecs[k] == bufQue.items[k]
        invariant forall k :: i <= k < iovecs.Length ==> iovecs[k] == old(iovecs[k])
      {
        iovecs[i] := bufQue.items[i];
      }
    }

    /**
      The happy path after a read of n packets: push the buffers they are in, refill the queue,
      repoint. While too few empty buffers are there, the reader is left waiting to refill.
     */
    method AfterRead(ghost cfg: Config, ghost rest: State, pool: SmartPacketBuffer<Buf>, bufQue: Deque<Buf>,
                     iovecs: array<Buf>, n: nat)
      returns (blocks: bool)
      requires cfg.r == pktsPerRead == iovecs.Length == |bufQue.items| && n <= pktsPerRead && !pool.shuttingDown
      modifies pool, bufQue, iovecs
      ensures !pool.shuttingDown
      ensures var read := old(View(rest, pool, bufQue, iovecs, Received(n)));
              && Enabled(cfg, read, Push)
              && var pushed := Do(cfg, read, Push);
                 && (blocks <==> !Enabled(cfg, pushed, Refill))
                 && (blocks ==> View(rest, pool, bufQue, iovecs, Refilling(n)) == pushed)
                 && (!blocks ==>
                       var refilled := Do(cfg, pushed, Refill);
                       && Enabled(cfg, refilled, Step.Repoint)
                       && View(rest, pool, bufQue, iovecs, Ready) == Do(cfg, refilled, Step.Repoint))
    {
      pool.PushFullBuffers(bufQue, n);
      blocks := RefillAndRepoint(cfg, rest, pool, bufQue, iovecs, n);
    }

    /** What the reader does when it is woken while waiting to refill. */
    method RefillAndRepoint(ghost cfg: Config, ghost rest: State, pool: SmartPacketBuffer<Buf>, bufQue: Deque<Buf>,
                            iovecs: array<Buf>, n: nat)
      returns (blocks: bool)
      requires cfg.r == pktsPerRead == iovecs.Length == |bufQue.items| + n && !pool.shuttingDown
      modifies pool, bufQue, iovecs
      ensures !pool.shuttingDown
      ensures var waiting := old(View(rest, pool, bufQue, iovecs, Refilling(n)));
              && (blocks <==> !Enabled(cfg, waiting, Refill))
              && (blocks ==> View(rest, pool, bufQue, iovecs, Refilling(n)) == waiting)
              && (!blocks ==>
                    var refilled := Do(cfg, waiting, Refill);
                    && Enabled(cfg, refilled, Step.Repoint)
                    && View(rest, pool, bufQue, iovecs, Ready) == Do(cfg, refilled, Step.Repoint))
    {
      blocks := pool.PopEmptyBuffers(bufQue, pktsPerRead);
      if !blocks {
        Repoint(bufQue, iovecs, n);
      }
    }
  }

  /**
    Repointing only the first n pointers is enough: a read of n packets and the refill leave every
    pointer at the buffer in its place. It is enough because the refill puts new buffers in front:
    were they put behind what is left, as `pop_full_buffers` does, the pointers would be right
    only if nothing was left or nothing was read.
   */
  lemma RepointingTheFirstIsEnough(empty: seq<Buf>, full: seq<Buf>, que: seq<Buf>, n: nat)
    requires n <= |que| && n <= |empty|
    requires forall i, j :: 0 <= i < j < |empty + que| ==> (empty + que)[i] != (empty + que)[j]
    ensures var kept := PushFull(full, que, n).que;
            var front := TakeEmpty(empty, kept, |que|).que;
            var back := TakeFull(empty, kept, |que|).que;
            && front[..n] + que[n..] == front
            && (back[..n] + que[n..] == back <==> n == 0 || n == |que|)
  {
    var kept := que[n..];
    var back := kept + empty[..n];
    if 0 < n < |que| {
      var last := |que| - 1;
      assert back[last] == empty[n - 1];
      assert (back[..n] + que[n..])[last] == que[last];
      assert (empty + que)[n - 1] == empty[n - 1] && (empty + que)[|empty| + last] == que[last];
    }
  }
}
