/** Whole runs of calls on one CShmMQ, against a FIFO of messages that knows nothing of bytes
    except how many a frame takes. */
module ShmSession {
  import opened Bytes
  import opened Seqs
  import opened ShmFrames
  import opened ShmMQ

  datatype Call = Put(msg: Msg) | Take
  datatype Reply = Queued(count: nat) | Refused | Delivered(msg: Msg) | NothingThere

  /** One call on a FIFO whose frames must leave a spare byte in `size`. */
  function Fifo(size: nat, q: seq<Msg>, c: Call): (seq<Msg>, Reply)
  {
    match c
    case Put(m) =>
      if |Image(q)| + |Frame(m)| < size then (q + [m], Queued(|q| + 1)) else (q, Refused)
    case Take =>
      if q == [] then (q, NothingThere) else (q[1..], Delivered(q[0]))
  }

  function FifoReplies(size: nat, q: seq<Msg>, calls: seq<Call>): (r: seq<Reply>)
    ensures |r| == |calls|
    decreases |calls|
  {
    if calls == [] then [] else
      var (q', reply) := Fifo(size, q, calls[0]);
      [reply] + FifoReplies(size, q', calls[1..])
  }

  function FifoLeft(size: nat, q: seq<Msg>, calls: seq<Call>): seq<Msg>
    decreases |calls|
  {
    if calls == [] then q else FifoLeft(size, Fifo(size, q, calls[0]).0, calls[1..])
  }

  function Gave(reply: Reply): seq<Msg>
  {
    if reply.Delivered? then [reply.msg] else []
  }

  function Took(c: Call, reply: Reply): seq<Msg>
  {
    if c.Put? && reply.Queued? then [c.msg] else []
  }

  /** The messages handed out, in order. */
  function Out(replies: seq<Reply>): seq<Msg>
  {
    if replies == [] then [] else Gave(replies[0]) + Out(replies[1..])
  }

  /** The messages taken in, in order. */
  function In(calls: seq<Call>, replies: seq<Reply>): seq<Msg>
    requires |calls| == |replies|
  {
    if calls == [] then [] else Took(calls[0], replies[0]) + In(calls[1..], replies[1..])
  }

  lemma FifoStepConserves(size: nat, q: seq<Msg>, c: Call)
    ensures var (q', reply) := Fifo(size, q, c);
            q + Took(c, reply) == Gave(reply) + q'
  {
  }

  /** Nothing is lost, doubled or reordered: what was in the queue plus what was accepted is what
      came out plus what is left. */
  lemma {:induction false} FifoConserves(size: nat, q: seq<Msg>, calls: seq<Call>)
    ensures var replies := FifoReplies(size, q, calls);
            q + In(calls, replies) == Out(replies) + FifoLeft(size, q, calls)
    decreases |calls|
  {
    if calls != [] {
      var c, rest := calls[0], calls[1..];
      var (q', reply) := Fifo(size, q, c);
      var later := FifoReplies(size, q', rest);
      assert FifoReplies(size, q, calls)[1..] == later;
      FifoStepConserves(size, q, c);
      FifoConserves(size, q', rest);
      Regroup(q, Took(c, reply), In(rest, later), Gave(reply), q', Out(later), FifoLeft(size, q', rest));
    }
  }

  /** One call on the byte ring does what it does on the FIFO, when the read buffer is sized like the
      segment; so none of the error branches is taken. */
  method ServeOne(mq: CShmMQ, buf: array<Byte>, c: Call) returns (reply: Reply)
    requires mq.Valid() && buf != mq.block && mq.blocksize <= buf.Length < 0x8000_0000
    modifies mq, mq.block, buf
    ensures mq.Valid()
    ensures (mq.queue, reply) == Fifo(mq.blocksize, old(mq.queue), c)
  {
    match c {
      case Put(m) =>
        var ret := mq.Enqueue(m.data, m.flow, false);
        reply := if ret > 0 then Queued(ret) else Refused;
      case Take =>
        FrontFits(mq);
        var ret, n, flow := mq.Dequeue(buf, false);
        reply := if ret == 0 then Delivered(Msg(flow, buf[..n])) else NothingThere;
    }
  }

  /** Any run of calls on the byte ring gives the FIFO's replies and leaves the FIFO's messages. */
  method Serve(mq: CShmMQ, buf: array<Byte>, calls: seq<Call>) returns (replies: seq<Reply>)
    requires mq.Valid() && buf != mq.block && mq.blocksize <= buf.Length < 0x8000_0000
    modifies mq, mq.block, buf
    ensures mq.Valid()
    ensures replies == FifoReplies(mq.blocksize, old(mq.queue), calls)
    ensures mq.queue == FifoLeft(mq.blocksize, old(mq.queue), calls)
  {
    hide Holds, Fifo, FifoReplies, FifoLeft, Image;
    replies := [];
    assert calls[0..] == calls;
    for i := 0 to |calls|
      invariant mq.Valid()
      invariant replies + FifoReplies(mq.blocksize, mq.queue, calls[i..])
             == FifoReplies(mq.blocksize, old(mq.queue), calls)
      invariant FifoLeft(mq.blocksize, mq.queue, calls[i..]) == FifoLeft(mq.blocksize, old(mq.queue), calls)
    {
      FifoFirst(mq.blocksize, mq.queue, calls, i);
      ghost var before := replies;
      var reply := ServeOne(mq, buf, calls[i]);
      replies := replies + [reply];
      assert before + ([reply] + FifoReplies(mq.blocksize, mq.queue, calls[i + 1..]))
          == replies + FifoReplies(mq.blocksize, mq.queue, calls[i + 1..]);
    }
    FifoNone(mq.blocksize, mq.queue);
    assert calls[|calls|..] == [];
  }

  lemma FifoFirst(size: nat, q: seq<Msg>, calls: seq<Call>, i: nat)
    requires i < |calls|
    ensures var (q', reply) := Fifo(size, q, calls[i]);
            && FifoReplies(size, q, calls[i..]) == [reply] + FifoReplies(size, q', calls[i + 1..])
            && FifoLeft(size, q, calls[i..]) == FifoLeft(size, q', calls[i + 1..])
  {
    assert calls[i..][0] == calls[i] && calls[i..][1..] == calls[i + 1..];
  }

  lemma FifoNone(size: nat, q: seq<Msg>)
    ensures FifoReplies(size, q, []) == [] && FifoLeft(size, q, []) == q
  {
  }

  lemma FrontFits(mq: CShmMQ)
    requires mq.Valid()
    ensures mq.queue != [] ==> |mq.queue[0].data| + OVERHEAD < mq.blocksize
  {
    if mq.queue != [] {
      FrontFrame(mq.block[..], mq.head, mq.tail, mq.queue);
    }
  }
}
