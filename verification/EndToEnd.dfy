/** A request's way from the proxy's receive buffer through a worker group's queue to the worker: the proxy cuts the
    received bytes into packets and appends the connection's information, the worker strips it again. */
module EndToEnd {

  import opened Bytes
  import opened Seqs
  import opened ShmFrames
  import opened ShmMQ
  import opened ShmSession

  /** sizeof(TConnExtInfo) on a 64-bit machine. */
  const EXT_LEN: nat := 40

  datatype Request = Request(flow: U32, payload: seq<Byte>, ext: seq<Byte>)

  /** What is put in the queue for a request. */
  function Wire(r: Request): (m: Msg)
    requires |r.payload| + |r.ext| + OVERHEAD < U32_SIZE
  {
    Msg(r.flow, r.payload + r.ext)
  }

  /** What a worker makes of a message: the last bytes are the connection's information. */
  function Strip(m: Msg): Request
    requires |m.data| >= EXT_LEN
  {
    var n := |m.data| - EXT_LEN;
    Request(m.flow, m.data[..n], m.data[n..])
  }

  predicate Sendable(r: Request)
  {
    |r.ext| == EXT_LEN && |r.payload| > 0 && |r.payload| + |r.ext| + OVERHEAD < U32_SIZE
  }

  lemma StripOfWire(r: Request)
    requires Sendable(r)
    ensures Strip(Wire(r)) == r
  {
  }

  /** The queue holds exactly these requests. */
  ghost predicate Carries(queue: seq<Msg>, rs: seq<Request>)
  {
    |queue| == |rs| && forall i :: 0 <= i < |rs| ==> Sendable(rs[i]) && queue[i] == Wire(rs[i])
  }

  // ---- the proxy ----

  datatype Fate = Enqueued | Elsewhere | Unrouted | Failed | Lost

  datatype Packet = Packet(start: nat, len: nat, fate: Fate)

  /** Where the packets end. */
  function End(packets: seq<Packet>): nat
  {
    if packets == [] then 0 else packets[|packets| - 1].start + packets[|packets| - 1].len
  }

  /** The packets are consecutive non-empty slices from the start of n bytes, and all but the last were dealt with. */
  ghost predicate Slices(packets: seq<Packet>, n: nat)
  {
    && End(packets) <= n
    && (forall i :: 0 <= i < |packets| ==> packets[i].len > 0 && packets[i].start == End(packets[..i]))
    && (forall i :: 0 <= i < |packets| - 1 ==> packets[i].fate != Failed && packets[i].fate != Lost)
  }

  /** The requests of the packets that were queued for this group. */
  function Sent(flow: U32, data: seq<Byte>, ext: seq<Byte>, packets: seq<Packet>): (rs: seq<Request>)
    requires InBounds(packets, |data|)
  {
    if packets == [] then []
    else
      var p := packets[|packets| - 1];
      Sent(flow, data, ext, packets[..|packets| - 1]) +
      if p.fate.Enqueued? then [Request(flow, data[p.start..p.start + p.len], ext)] else []
  }

  /** What the plugin and the other groups say on one turn: the length of the next packet (0: not whole yet, negative:
      close), whether there is memory for it, the group it is for, whether such another group exists and what sending to
      it returns, and what is to be done about a failure. */
  datatype Plug = Plug(len: int, memory: bool, route: nat, known: bool, ret: int, verdict: int)

  /** What is to become of a packet, given whether the queue of this group has room. */
  function FateOf(plug: Plug, group: nat, room: bool): Fate
  {
    if !plug.memory then Lost
    else if plug.route % 0x8000 == group then (if room then Enqueued else Failed)
    else if plug.known then (if plug.ret == 0 then Elsewhere else Failed)
    else Unrouted
  }

  /** The bytes the requests take up in a queue. */
  function Load(rs: seq<Request>): nat
  {
    if rs == [] then 0
    else
      var r := rs[|rs| - 1];
      Load(rs[..|rs| - 1]) + |r.payload| + |r.ext| + OVERHEAD
  }

  /** Each packet has the length the plugin measured and the fate its route and the room left by the packets before it
      give it. */
  ghost predicate Judged(flow: U32, data: seq<Byte>, ext: seq<Byte>, plugs: seq<Plug>, group: nat, room: int,
      packets: seq<Packet>)
    requires InBounds(packets, |data|)
  {
    packets == [] ||
    var n := |packets| - 1;
    && n < |plugs| && Judged(flow, data, ext, plugs, group, room, packets[..n])
    && JudgedBy(packets[n], plugs[n], group, |ext|, room - Load(Sent(flow, data, ext, packets[..n])))
  }

  predicate JudgedBy(p: Packet, plug: Plug, group: nat, extra: nat, room: int)
  {
    p.len == plug.len && p.fate == FateOf(plug, group, p.len + extra < room)
  }

  /** Why the proxy stopped cutting. */
  datatype Stop = Waiting | Rejected | Oversize | NoMemory | SendFailed | Excepted

  predicate Undone(packets: seq<Packet>)
  {
    packets != [] && (packets[|packets| - 1].fate.Failed? || packets[|packets| - 1].fate.Lost?)
  }

  /** Where and with what answer the proxy stops, n bytes having arrived: at a packet that was not dealt with, at the
      end, or at what the plugin does not call a whole packet. */
  ghost predicate Stops(n: nat, plugs: seq<Plug>, packets: seq<Packet>, r: int, stop: Stop)
  {
    var k, at := |packets|, End(packets);
    if Undone(packets) then
      && k <= |plugs|
      && if packets[k - 1].fate.Lost? then stop.NoMemory? && r == packets[k - 1].len
         else if plugs[k - 1].verdict < 0 then stop.Excepted? && r == plugs[k - 1].verdict
         else stop.SendFailed? && r == at
    else if n == 0 then stop.Rejected? && r == -1
    else if at == n || k >= |plugs| || plugs[k].len == 0 then stop.Waiting? && r == at
    else if plugs[k].len < 0 then stop.Rejected? && r == plugs[k].len
    else plugs[k].len > n - at && stop.Oversize? && r == n
  }

  /** What the proxy does with received bytes, the queue having this much room. */
  ghost predicate Consumed(flow: U32, data: seq<Byte>, ext: seq<Byte>, plugs: seq<Plug>, group: nat, room: int,
      packets: seq<Packet>, r: int, stop: Stop)
  {
    && Slices(packets, |data|) && InBounds(packets, |data|)
    && Judged(flow, data, ext, plugs, group, room, packets)
    && Stops(|data|, plugs, packets, r, stop)
  }

  class CDefaultProxy {

    const group: nat
    const mq: CShmMQ

    constructor (g: nat, q: CShmMQ)
      ensures group == g && mq == q
    {
      group, mq := g, q;
    }

    /** CTShmCommu::sendto on this group's queue. */
    method SendTo(flow: U32, data: seq<Byte>) returns (ret: int)
      requires mq.Valid() && |data| + OVERHEAD < U32_SIZE
      modifies mq, mq.block
      ensures mq.Valid() && ret <= 0
      ensures ret == 0 <==> |data| < old(mq.Room())
      ensures ret == 0 ==>
              mq.queue == old(mq.queue) + [Msg(flow, data)] && mq.Room() == old(mq.Room()) - |data| - OVERHEAD
      ensures ret < 0 ==> mq.queue == old(mq.queue)
    {
      hide Holds, Image;
      ImageMore(mq.queue, Msg(flow, data));
      ret := mq.Enqueue(data, flow, false);
      if ret >= 0 {
        ret := 0;
      }
    }

    /** One packet: the connection's information is appended and the whole is routed. */
    method Forward(flow: U32, payload: seq<Byte>, ext: seq<Byte>, plug: Plug) returns (fate: Fate)
      requires mq.Valid() && Sendable(Request(flow, payload, ext)) && plug.memory
      modifies mq, mq.block
      ensures mq.Valid() && fate == FateOf(plug, group, |payload| + |ext| < old(mq.Room()))
      ensures fate.Enqueued? ==>
                && mq.queue == old(mq.queue) + [Wire(Request(flow, payload, ext))]
                && mq.Room() == old(mq.Room()) - |payload| - |ext| - OVERHEAD
      ensures !fate.Enqueued? ==> mq.queue == old(mq.queue)
    {
      hide Holds, Image;
      if plug.route % 0x8000 == group {
        var ret := SendTo(flow, payload + ext);
        fate := if ret == 0 then Enqueued else Failed;
      } else if plug.known {
        fate := if plug.ret == 0 then Elsewhere else Failed;
      } else {
        fate := Unrouted;
      }
    }

    /** The next packet, which is whole: it is cut off and forwarded if there is memory. */
    method CutOne(flow: U32, data: seq<Byte>, ext: seq<Byte>, plugs: seq<Plug>, packets: seq<Packet>,
        ghost room: int, ghost start: seq<Msg>) returns (fate: Fate)
      requires mq.Valid() && |ext| == EXT_LEN && |data| + EXT_LEN + OVERHEAD < U32_SIZE
      requires Cutting(flow, data, ext, plugs, group, room, packets, start, mq.queue, mq.Room()) && !Undone(packets)
      requires |packets| < |plugs| && 0 < plugs[|packets|].len <= |data| - End(packets)
      modifies mq, mq.block
      ensures mq.Valid()
      ensures var more := packets + [Packet(End(packets), plugs[|packets|].len, fate)];
              && Cutting(flow, data, ext, plugs, group, room, more, start, mq.queue, mq.Room())
              && End(more) == End(packets) + plugs[|packets|].len
      ensures fate.Lost? <==> !plugs[|packets|].memory
    {
      hide Holds, Appended, Sent, Image, Judged, FateOf, Load, Cutting, End;
      ghost var before, left := mq.queue, mq.Room();
      var plug, at := plugs[|packets|], End(packets);
      LostWithout(plug, group, plug.len + |ext| < left);
      fate := Lost;
      if plug.memory {
        fate := Forward(flow, data[at..at + plug.len], ext, plug);
      }
      CutMore(flow, data, ext, plugs, group, room, packets, Packet(at, plug.len, fate), start, before, left, mq.queue,
        mq.Room());
    }

    /** One turn of the loop: the proxy stops, or another packet is dealt with. */
    method NextPacket(flow: U32, data: seq<Byte>, ext: seq<Byte>, plugs: seq<Plug>, packets: seq<Packet>,
        ghost room: int, ghost start: seq<Msg>) returns (more: seq<Packet>, r: int, stop: Option<Stop>)
      requires mq.Valid() && |ext| == EXT_LEN && |data| + EXT_LEN + OVERHEAD < U32_SIZE
      requires Cutting(flow, data, ext, plugs, group, room, packets, start, mq.queue, mq.Room()) && !Undone(packets)
      requires |packets| <= |plugs| && End(packets) < |data|
      modifies mq, mq.block
      ensures mq.Valid() && Cutting(flow, data, ext, plugs, group, room, more, start, mq.queue, mq.Room())
      ensures stop.Some? ==> Stops(|data|, plugs, more, r, stop.value)
      ensures stop.None? ==> !Undone(more) && more != [] && |more| <= |plugs| && End(packets) < End(more) <= |data|
    {
      hide Holds, Appended, Sent, Image, Judged, FateOf, Load, Cutting, End;
      more, r, stop := packets, End(packets), Some(Waiting);
      if |packets| == |plugs| {
        return;
      }
      var plug := plugs[|packets|];
      if plug.len < 0 {
        return packets, plug.len, Some(Rejected);
      }
      if plug.len == 0 {
        return;
      }
      if plug.len > |data| - End(packets) {
        return packets, |data|, Some(Oversize);
      }
      var fate := CutOne(flow, data, ext, plugs, packets, room, start);
      more := packets + [Packet(End(packets), plug.len, fate)];
      if !plug.memory {
        return more, plug.len, Some(NoMemory);
      }
      if fate.Failed? {
        if plug.verdict < 0 {
          return more, plug.verdict, Some(Excepted);
        }
        return more, End(more), Some(SendFailed);
      }
      stop := None;
    }

    /** ator_recvdata_v2: the number of bytes consumed, or a negative number to close the connection. */
    method RecvData(flow: U32, data: seq<Byte>, ext: seq<Byte>, plugs: seq<Plug>)
      returns (r: int, stop: Stop, packets: seq<Packet>)
      requires mq.Valid() && |ext| == EXT_LEN && |data| + EXT_LEN + OVERHEAD < U32_SIZE
      modifies mq, mq.block
      ensures mq.Valid() && Consumed(flow, data, ext, plugs, group, old(mq.Room()), packets, r, stop)
      ensures Appended(old(mq.queue), mq.queue, Sent(flow, data, ext, packets))
    {
      hide Holds, Slices, InBounds, Appended, Sent, Image, Judged, FateOf, Load, Cutting;
      packets, r, stop := [], -1, Rejected;
      ghost var room := mq.Room();
      NothingSent(flow, data, ext, plugs, group, room, mq.queue);
      while End(packets) < |data|
        invariant mq.Valid() && |packets| <= |plugs| && !Undone(packets)
        invariant Cutting(flow, data, ext, plugs, group, room, packets, old(mq.queue), mq.queue, mq.Room())
        invariant End(packets) <= |data|
        invariant if packets == [] then r == -1 && stop == Rejected else r == End(packets) && stop == Waiting
      {
        var more, ret, done := NextPacket(flow, data, ext, plugs, packets, room, old(mq.queue));
        packets := more;
        if done.Some? {
          CutSoFar(flow, data, ext, plugs, group, room, packets, old(mq.queue), mq.queue, mq.Room());
          return ret, done.value, packets;
        }
        r, stop := End(packets), Waiting;
      }
      CutSoFar(flow, data, ext, plugs, group, room, packets, old(mq.queue), mq.queue, mq.Room());
    }
  }

  // ---- the worker ----

  class CDefaultWorker {

    const mq: CShmMQ
    const buf: array<Byte>

    /** The read buffer is as large as the shared memory segment. */
    ghost predicate Valid()
      reads mq, mq.block
    {
      mq.Valid() && buf != mq.block && mq.blocksize <= buf.Length < 0x8000_0000
    }

    constructor (q: CShmMQ, b: array<Byte>)
      requires q.Valid() && b != q.block && q.blocksize <= b.Length < 0x8000_0000
      ensures mq == q && buf == b && Valid()
    {
      mq, buf := q, b;
    }

    /** poll and ator_recvdata_v2: the oldest request, stripped; it is not processed when it waited too long. */
    method Poll(late: bool, ghost rs: seq<Request>) returns (got: seq<Request>, processed: bool)
      requires Valid() && Carries(mq.queue, rs)
      modifies mq, buf
      ensures Valid()
      ensures |got| == (if rs == [] then 0 else 1) && got == rs[..|got|]
      ensures Carries(mq.queue, rs[|got|..])
      ensures processed <==> rs != [] && !late
    {
      hide Holds, Carries, Strip, Wire, Sendable;
      CarriesFront(mq.queue, rs);
      FrontFits(mq);
      got, processed := [], false;
      var ret, n, flow := mq.Dequeue(buf, false);
      if ret != 0 {
        assert rs[0..] == rs;
        return;
      }
      if n > 0 {
        var len := n - EXT_LEN;
        got := [Request(flow, buf[..len], buf[len..n])];
        processed := !late;
        assert buf[..len] == buf[..n][..len] && buf[len..n] == buf[..n][len..];
        assert rs[..1] == [rs[0]];
      }
    }
  }

  ghost predicate InBounds(packets: seq<Packet>, n: nat)
  {
    forall i :: 0 <= i < |packets| ==> packets[i].start + packets[i].len <= n
  }

  /** The queue has grown by these requests, in this order. */
  ghost predicate Appended(before: seq<Msg>, after: seq<Msg>, rs: seq<Request>)
  {
    |after| == |before| + |rs| && before <= after && Carries(after[|before|..], rs)
  }

  lemma NothingSent(flow: U32, data: seq<Byte>, ext: seq<Byte>, plugs: seq<Plug>, group: nat, room: int,
      queue: seq<Msg>)
    ensures Cutting(flow, data, ext, plugs, group, room, [], queue, queue, room) && End([]) == 0
  {
    assert queue[|queue|..] == [];
  }

  lemma Sliced(packets: seq<Packet>, n: nat, len: nat, fate: Fate)
    requires Slices(packets, n) && InBounds(packets, n) && 0 < len <= n - End(packets)
    requires !Undone(packets)
    ensures Slices(packets + [Packet(End(packets), len, fate)], n)
            && InBounds(packets + [Packet(End(packets), len, fate)], n)
    ensures End(packets + [Packet(End(packets), len, fate)]) == End(packets) + len
  {
    var more := packets + [Packet(End(packets), len, fate)];
    forall i | 0 <= i < |more|
      ensures more[i].len > 0 && more[i].start == End(more[..i])
    {
      assert more[..i] == packets[..i];
      assert packets[..|packets|] == packets;
    }
  }

  lemma SentMore(flow: U32, data: seq<Byte>, ext: seq<Byte>, packets: seq<Packet>, p: Packet,
                 start: seq<Msg>, before: seq<Msg>, after: seq<Msg>)
    requires InBounds(packets, |data|) && p.start + p.len <= |data| && p.len > 0
    requires |ext| == EXT_LEN && |data| + EXT_LEN + OVERHEAD < U32_SIZE
    requires Appended(start, before, Sent(flow, data, ext, packets))
    requires after == before + if p.fate.Enqueued?
                               then [Wire(Request(flow, data[p.start..p.start + p.len], ext))]
                               else []
    ensures InBounds(packets + [p], |data|) && Appended(start, after, Sent(flow, data, ext, packets + [p]))
  {
    assert (packets + [p])[..|packets|] == packets;
    if p.fate.Enqueued? {
      var r := Request(flow, data[p.start..p.start + p.len], ext);
      assert after[|start|..] == before[|start|..] + [Wire(r)];
    } else {
      assert after == before;
      assert Sent(flow, data, ext, packets) + [] == Sent(flow, data, ext, packets);
    }
  }

  lemma JudgedMore(flow: U32, data: seq<Byte>, ext: seq<Byte>, plugs: seq<Plug>, group: nat, room: int,
      packets: seq<Packet>, p: Packet)
    requires InBounds(packets, |data|) && Judged(flow, data, ext, plugs, group, room, packets)
    requires p.start + p.len <= |data| && |packets| < |plugs|
    requires JudgedBy(p, plugs[|packets|], group, |ext|, room - Load(Sent(flow, data, ext, packets)))
    ensures InBounds(packets + [p], |data|) && Judged(flow, data, ext, plugs, group, room, packets + [p])
  {
    hide JudgedBy, Load, Sent;
    assert (packets + [p])[..|packets|] == packets;
  }

  lemma LoadMore(flow: U32, data: seq<Byte>, ext: seq<Byte>, packets: seq<Packet>, p: Packet)
    requires InBounds(packets, |data|) && p.start + p.len <= |data| && InBounds(packets + [p], |data|)
    ensures Load(Sent(flow, data, ext, packets + [p])) ==
              Load(Sent(flow, data, ext, packets)) + if p.fate.Enqueued? then p.len + |ext| + OVERHEAD else 0
  {
    var sent := Sent(flow, data, ext, packets);
    assert (packets + [p])[..|packets|] == packets;
    if p.fate.Enqueued? {
      var r := Request(flow, data[p.start..p.start + p.len], ext);
      assert (sent + [r])[..|sent|] == sent;
    } else {
      assert sent + [] == sent;
    }
  }

  /** What has been cut, and the queue and its room after that. */
  ghost predicate Cutting(flow: U32, data: seq<Byte>, ext: seq<Byte>, plugs: seq<Plug>, group: nat, room: int,
      packets: seq<Packet>, start: seq<Msg>, queue: seq<Msg>, left: int)
  {
    && Slices(packets, |data|) && InBounds(packets, |data|)
    && Judged(flow, data, ext, plugs, group, room, packets)
    && Appended(start, queue, Sent(flow, data, ext, packets))
    && left == room - Load(Sent(flow, data, ext, packets))
  }

  lemma CutSoFar(flow: U32, data: seq<Byte>, ext: seq<Byte>, plugs: seq<Plug>, group: nat, room: int,
      packets: seq<Packet>, start: seq<Msg>, queue: seq<Msg>, left: int)
    requires Cutting(flow, data, ext, plugs, group, room, packets, start, queue, left)
    ensures Slices(packets, |data|) && InBounds(packets, |data|) && Judged(flow, data, ext, plugs, group, room, packets)
    ensures Appended(start, queue, Sent(flow, data, ext, packets)) && |packets| <= |plugs|
  {
  }

  lemma CutMore(flow: U32, data: seq<Byte>, ext: seq<Byte>, plugs: seq<Plug>, group: nat, room: int,
      packets: seq<Packet>, p: Packet, start: seq<Msg>, before: seq<Msg>, left: int, after: seq<Msg>, left': int)
    requires Cutting(flow, data, ext, plugs, group, room, packets, start, before, left) && !Undone(packets)
    requires |ext| == EXT_LEN && |data| + EXT_LEN + OVERHEAD < U32_SIZE && |packets| < |plugs|
    requires p.start == End(packets) && 0 < p.len <= |data| - p.start
    requires JudgedBy(p, plugs[|packets|], group, |ext|, left)
    requires if p.fate.Enqueued? then
               && after == before + [Wire(Request(flow, data[p.start..p.start + p.len], ext))]
               && left' == left - p.len - |ext| - OVERHEAD
             else
               after == before && left' == left
    ensures Cutting(flow, data, ext, plugs, group, room, packets + [p], start, after, left')
    ensures End(packets + [p]) == p.start + p.len
  {
    hide JudgedBy, Slices, InBounds, Judged, Sent, Load, Appended;
    Sliced(packets, |data|, p.len, p.fate);
    assert before + [] == before;
    SentMore(flow, data, ext, packets, p, start, before, after);
    JudgedMore(flow, data, ext, plugs, group, room, packets, p);
    LoadMore(flow, data, ext, packets, p);
  }

  lemma LostWithout(plug: Plug, group: nat, room: bool)
    ensures FateOf(plug, group, room) == Lost <==> !plug.memory
  {
  }

  lemma ImageMore(queue: seq<Msg>, m: Msg)
    ensures |Image(queue + [m])| == |Image(queue)| + |m.data| + OVERHEAD
  {
    ConcatAppend(Frame, queue, [m]);
    ConcatSingle(Frame, m);
  }

  /** The requests in a queue take up its bytes. */
  lemma {:induction false} LoadIsImage(queue: seq<Msg>, rs: seq<Request>)
    requires Carries(queue, rs)
    ensures |Image(queue)| == Load(rs)
    decreases |rs|
  {
    if rs != [] {
      var n := |rs| - 1;
      LoadIsImage(queue[..n], rs[..n]);
      ImageMore(queue[..n], queue[n]);
      assert queue[..n] + [queue[n]] == queue;
    }
  }

  lemma CarriesFront(queue: seq<Msg>, rs: seq<Request>)
    requires Carries(queue, rs)
    ensures queue == [] <==> rs == []
    ensures rs != [] ==>
              && EXT_LEN < |queue[0].data| && Strip(queue[0]) == rs[0] && Carries(queue[1..], rs[1..])
              && queue[0].data[..|queue[0].data| - EXT_LEN] == rs[0].payload
              && queue[0].data[|queue[0].data| - EXT_LEN..] == rs[0].ext && queue[0].flow == rs[0].flow
  {
    if rs != [] {
      StripOfWire(rs[0]);
    }
  }

  lemma CarriesMore(queue: seq<Msg>, rs: seq<Request>, queue': seq<Msg>, more: seq<Request>)
    requires Carries(queue, rs) && Appended(queue, queue', more)
    ensures Carries(queue', rs + more)
  {
    assert forall i :: |queue| <= i < |queue'| ==> queue'[i] == queue'[|queue|..][i - |queue|];
  }

  datatype Event = Arrived(flow: U32, data: seq<Byte>, ext: seq<Byte>, plugs: seq<Plug>) | Polled(late: bool)

  /** What comes of an event: the packets cut with the proxy's answer, or what a worker took. */
  datatype Answer = Parted(packets: seq<Packet>, r: int, stop: Stop) | Took(got: seq<Request>, processed: bool)

  /** The requests an event puts in the queue. */
  ghost function HandedBy(e: Event, a: Answer): seq<Request>
  {
    if e.Arrived? && a.Parted? && InBounds(a.packets, |e.data|) then Sent(e.flow, e.data, e.ext, a.packets) else []
  }

  function GotBy(a: Answer): seq<Request>
  {
    if a.Took? then a.got else []
  }

  /** The answer is right where these requests are in a queue of `size` bytes for this group: received bytes are cut as
      the plugin measures them, each packet for this group is queued exactly if there is room, and a worker takes the
      oldest request whenever there is one. */
  ghost predicate Right(size: int, group: nat, rs: seq<Request>, e: Event, a: Answer)
  {
    match e
    case Arrived(flow, data, ext, plugs) =>
      a.Parted? && Consumed(flow, data, ext, plugs, group, size - Load(rs) - OVERHEAD, a.packets, a.r, a.stop)
    case Polled(late) =>
      a.Took? && a.got == (if rs == [] then [] else [rs[0]]) && (a.processed <==> rs != [] && !late)
  }

  /** The requests in the queue after an event. */
  ghost function Next(rs: seq<Request>, e: Event, a: Answer): seq<Request>
  {
    match e
    case Arrived(_, _, _, _) => rs + HandedBy(e, a)
    case Polled(_) => if rs == [] then [] else rs[1..]
  }

  /** The requests in the queue after a run. */
  ghost function Left(rs: seq<Request>, events: seq<Event>, answers: seq<Answer>): seq<Request>
    requires |events| == |answers|
  {
    if events == [] then rs
    else
      var n := |events| - 1;
      Next(Left(rs, events[..n], answers[..n]), events[n], answers[n])
  }

  /** Every answer of a run is right. */
  ghost predicate AllRight(size: int, group: nat, rs: seq<Request>, events: seq<Event>, answers: seq<Answer>)
  {
    |events| == |answers| &&
    (events == [] ||
     var n := |events| - 1;
     && AllRight(size, group, rs, events[..n], answers[..n])
     && Right(size, group, Left(rs, events[..n], answers[..n]), events[n], answers[n]))
  }

  /** Everything the proxy put in the queue over a run, in order. */
  ghost function Handed(events: seq<Event>, answers: seq<Answer>): seq<Request>
    requires |events| == |answers|
  {
    if events == [] then []
    else
      var n := |events| - 1;
      Handed(events[..n], answers[..n]) + HandedBy(events[n], answers[n])
  }

  /** Everything the workers took over a run, in order. */
  function Got(answers: seq<Answer>): seq<Request>
  {
    if answers == [] then [] else Got(answers[..|answers| - 1]) + GotBy(answers[|answers| - 1])
  }

  /** Over any run, what the workers received is, in order and unchanged in flow, payload and connection information,
      what was in the queue and what the proxy put there of the bytes it received, less what is still there. */
  lemma {:induction false} NothingLost(size: int, group: nat, rs: seq<Request>, events: seq<Event>,
      answers: seq<Answer>)
    requires AllRight(size, group, rs, events, answers)
    ensures rs + Handed(events, answers) == Got(answers) + Left(rs, events, answers)
    decreases |events|
  {
    hide Right, HandedBy, GotBy, Next;
    if events == [] {
      assert rs + [] == rs == [] + rs;
    } else {
      var n := |events| - 1;
      NothingLost(size, group, rs, events[..n], answers[..n]);
      var left := Left(rs, events[..n], answers[..n]);
      var e, a := events[n], answers[n];
      StepLosesNothing(size, group, left, e, a);
      Regroup(rs, Handed(events[..n], answers[..n]), HandedBy(e, a), Got(answers[..n]), left, GotBy(a),
        Next(left, e, a));
    }
  }

  lemma StepLosesNothing(size: int, group: nat, rs: seq<Request>, e: Event, a: Answer)
    requires Right(size, group, rs, e, a)
    ensures rs + HandedBy(e, a) == GotBy(a) + Next(rs, e, a)
  {
  }

  lemma RunMore(size: int, group: nat, rs: seq<Request>, events: seq<Event>, answers: seq<Answer>, n: nat, a: Answer)
    requires n < |events| && AllRight(size, group, rs, events[..n], answers)
    requires Right(size, group, Left(rs, events[..n], answers), events[n], a)
    ensures AllRight(size, group, rs, events[..n + 1], answers + [a])
    ensures Left(rs, events[..n + 1], answers + [a]) == Next(Left(rs, events[..n], answers), events[n], a)
  {
    hide Right, Next;
    assert events[..n + 1][..n] == events[..n] && (answers + [a])[..n] == answers;
  }

  /** One event, with these requests in the queue. */
  method Handle(proxy: CDefaultProxy, worker: CDefaultWorker, e: Event, ghost rs: seq<Request>) returns (a: Answer)
    requires proxy.mq == worker.mq && worker.Valid() && Carries(worker.mq.queue, rs)
    requires e.Arrived? ==> |e.ext| == EXT_LEN && |e.data| + EXT_LEN + OVERHEAD < U32_SIZE
    modifies worker.mq, worker.mq.block, worker.buf
    ensures worker.Valid() && Right(proxy.mq.blocksize, proxy.group, rs, e, a)
    ensures Carries(worker.mq.queue, Next(rs, e, a))
  {
    hide Holds, Carries, Appended, Sent, Slices, Judged, Stops, Image, Load;
    match e
    case Arrived(flow, data, ext, plugs) =>
      ghost var before := worker.mq.queue;
      LoadIsImage(before, rs);
      var r, stop, packets := proxy.RecvData(flow, data, ext, plugs);
      CarriesMore(before, rs, worker.mq.queue, Sent(flow, data, ext, packets));
      a := Parted(packets, r, stop);
    case Polled(late) =>
      var got, processed := worker.Poll(late, rs);
      a := Took(got, processed);
      assert rs == [] ==> rs[0..] == [];
  }

  /** Any run of a proxy and the workers of one group: every answer is right, and the queue holds what `NothingLost`
      says. */
  method Serve(proxy: CDefaultProxy, worker: CDefaultWorker, events: seq<Event>, ghost rs: seq<Request>)
    returns (answers: seq<Answer>)
    requires proxy.mq == worker.mq && worker.Valid() && Carries(worker.mq.queue, rs)
    requires forall k :: 0 <= k < |events| && events[k].Arrived? ==>
               |events[k].ext| == EXT_LEN && |events[k].data| + EXT_LEN + OVERHEAD < U32_SIZE
    modifies worker.mq, worker.mq.block, worker.buf
    ensures worker.Valid() && AllRight(proxy.mq.blocksize, proxy.group, rs, events, answers)
    ensures Carries(worker.mq.queue, Left(rs, events, answers))
    ensures rs + Handed(events, answers) == Got(answers) + Left(rs, events, answers)
  {
    hide Holds, Carries, Left, Next, Right;
    answers := [];
    LeftNone(rs);
    for k := 0 to |events|
      invariant worker.Valid() && AllRight(proxy.mq.blocksize, proxy.group, rs, events[..k], answers)
      invariant Carries(worker.mq.queue, Left(rs, events[..k], answers))
    {
      var a := Handle(proxy, worker, events[k], Left(rs, events[..k], answers));
      RunMore(proxy.mq.blocksize, proxy.group, rs, events, answers, k, a);
      answers := answers + [a];
    }
    assert events[..|events|] == events;
    NothingLost(proxy.mq.blocksize, proxy.group, rs, events, answers);
  }

  lemma LeftNone(rs: seq<Request>)
    ensures Left(rs, [], []) == rs
  {
  }
}
