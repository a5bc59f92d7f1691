/** CShmMQ, the byte ring in shared memory, one call at a time. */
module ShmMQ {
  import opened Bytes
  import opened ShmFrames
  import opened ShmRing

  const COMMU_ERR_MQFULL := -121
  const COMMU_ERR_MQEMPTY := -122
  const COMMU_ERR_OTFBUFF := -123
  const COMMU_ERR_CHKFAIL := -126

  /** Not a code of the source: stands for the four-byte comparison outside the caller's buffer that
      a length field of 12..15 would cause. */
  const WILD_READ := 1

  /** The magic number as it lies in memory: "SPPX". */
  const SPPX: seq<Byte> := [0x53, 0x50, 0x50, 0x58]

  const HEAD_LEN := C_SAFE_AREA_LEN + C_HEAD_SIZE

  /** The bytes from head to tail are the frames of `q`, and there is room to tell full from empty. */
  ghost predicate Holds(block: seq<Byte>, head: nat, tail: nat, q: seq<Msg>)
  {
    var n, len := |block|, |Image(q)|;
    && head <= n && tail <= n
    && (len < n || q == [])
    && tail == Advance(n, head, len)
    && Span(block, head, len) == Image(q)
  }

  lemma EmptyHoldsNothing(block: seq<Byte>, pos: nat)
    requires pos <= |block|
    ensures Holds(block, pos, pos, [])
  {
  }

  /** What enqueue's arithmetic decides: free space, and the ring after storing one more frame. */
  lemma StoreAppends(block: seq<Byte>, head: nat, tail: nat, q: seq<Msg>, m: Msg)
    requires Holds(block, head, tail, q)
    requires |Image(q)| + |Frame(m)| < |block|
    ensures Holds(Store(block, tail, Frame(m)), head, Advance(|block|, tail, |Frame(m)|), q + [m])
  {
    var n, a, b := |block|, |Image(q)|, |Frame(m)|;
    var after := Store(block, tail, Frame(m));
    ConcatAppend(Frame, q, [m]);
    ConcatSingle(Frame, m);
    AdvanceTwice(n, head, a, b);
    SpanSplit(after, head, a, b);
    SpanBesideStore(block, head, a, Frame(m));
    SpanOfStore(block, tail, Frame(m));
  }

  lemma FreeIsExact(block: seq<Byte>, head: nat, tail: nat, q: seq<Msg>)
    requires Holds(block, head, tail, q)
    ensures head <= |block| && tail <= |block|
    ensures FreeLen(|block|, head, tail) == |block| - |Image(q)|
    ensures head == tail <==> q == []
  {
    if q == [] {
    } else {
      assert |Image(q)| >= |Frame(q[0])|;
      IndicesTellLength(|block|, head, |Image(q)|);
    }
  }

  /** What dequeue finds at head: the first frame, inside the used bytes, and the rest behind it. */
  lemma FrontFrame(block: seq<Byte>, head: nat, tail: nat, q: seq<Msg>)
    requires Holds(block, head, tail, q) && q != []
    ensures var f := Frame(q[0]);
            && |f| <= UsedLen(|block|, head, tail) < |block|
            && Span(block, head, |f|) == f
            && Holds(block, Advance(|block|, head, |f|), tail, q[1..])
  {
    hide Span, Advance, Frame;
    var n, f, rest := |block|, Frame(q[0]), Image(q[1..]);
    assert Image(q) == f + rest;
    IndicesTellLength(n, head, |Image(q)|);
    SpanSplit(block, head, |f|, |rest|);
    AdvanceTwice(n, head, |f|, |rest|);
    assert (f + rest)[..|f|] == f && (f + rest)[|f|..] == rest;
  }

  datatype Reading =
    | Got(data: seq<Byte>, next: nat)
    | Fault(code: int)
    | Wild

  function FlowAt(block: seq<Byte>, head: nat): U32
    requires head <= |block| && HEAD_LEN <= |block|
  {
    Word(Span(block, head, HEAD_LEN)[8..12])
  }

  /** What dequeue makes of the bytes behind head, whatever they are: a payload and the next head, or
      the check that fails first. */
  function Read(block: seq<Byte>, head: nat, tail: nat, capacity: nat): Reading
    requires head <= |block| && tail <= |block| && HEAD_LEN <= |block|
  {
    var h := Span(block, head, HEAD_LEN);
    var total := Word(h[4..8]);
    if Word(h[0..4]) != C_SAFE_AREA_VAL then Fault(COMMU_ERR_CHKFAIL)
    else if total > UsedLen(|block|, head, tail) then Fault(COMMU_ERR_MQEMPTY)
    else if total < HEAD_LEN || total - HEAD_LEN > capacity then Fault(COMMU_ERR_OTFBUFF)
    else ReadBody(block, Advance(|block|, head, HEAD_LEN), total - HEAD_LEN)
  }

  function ReadBody(block: seq<Byte>, pos: nat, len: nat): (r: Reading)
    requires pos <= |block| && len <= |block|
    ensures r.Got? ==> |r.data| + C_SAFE_AREA_LEN == len
  {
    if len < C_SAFE_AREA_LEN then Wild
    else
      var body, n := Span(block, pos, len), len - C_SAFE_AREA_LEN;
      if Word(body[n..n + 4]) != C_SAFE_AREA_VAL then Fault(COMMU_ERR_CHKFAIL)
      else Got(body[..n], Advance(|block|, pos, len))
  }

  class CShmMQ {
    const blocksize: nat
    const block: array<Byte>
    var head: U32
    var tail: U32
    var pid: int
    var msgCount: int
    var processCount: int
    var curflow: U32

    /** The messages in the ring, oldest first. */
    ghost var queue: seq<Msg>

    ghost predicate Sane()
      reads this
    {
      block.Length == blocksize < 0x8000_0000
    }

    ghost predicate Valid()
      reads this, block
    {
      && Sane()
      && Holds(block[..], head, tail, queue)
      && msgCount == |queue|
    }

    constructor (size: nat)
      requires size < 0x8000_0000
      ensures Valid() && queue == [] && blocksize == size && fresh(block)
    {
      blocksize := size;
      block := new Byte[size](_ => 0);
      head, tail, pid, msgCount, processCount, curflow := 0, 0, 0, 0, 0, 0;
      queue := [];
    }

    /** Bytes a payload must stay below to be accepted. */
    ghost function Room(): int
      reads this
    {
      blocksize - |Image(queue)| - OVERHEAD
    }

    method Clear(self: int)
      requires Sane()
      modifies this
      ensures Valid() && queue == []
      ensures head == 0 && tail == 0 && pid == 0
      ensures processCount == old(processCount) && curflow == old(curflow)
    {
      pid := self;
      head := 0;
      tail := 0;
      pid := 0;
      msgCount := 0;
      queue := [];
      EmptyHoldsNothing(block[..], 0);
    }

    /** Indices outside the block are repaired unless another live process is already doing so. */
    method DoCheck(h: U32, t: U32, clearerAlive: bool) returns (ok: bool)
      requires Sane()
      modifies this
      ensures ok <==> h <= blocksize && t <= blocksize
      ensures ok ==> unchanged(this)
      ensures !ok && (old(pid) == 0 || !clearerAlive) ==> Valid() && queue == []
      ensures !ok && old(pid) != 0 && clearerAlive ==> unchanged(this)
    {
      if h <= blocksize && t <= blocksize {
        return true;
      }
      if pid == 0 || !clearerAlive {
        Clear(1);
      }
      return false;
    }

    /** The four wrap cases of enqueue are one store going round the ring. */
    method WriteFrame(data: seq<Byte>, sHead: seq<Byte>)
      requires Sane() && tail <= blocksize && |sHead| == HEAD_LEN && |data| + OVERHEAD < blocksize
      modifies this`tail, block
      ensures block[..] == Store(old(block[..]), old(tail), sHead + data + SPPX)
      ensures tail == Advance(blocksize, old(tail), |data| + OVERHEAD)
    {
      var tailLen := blocksize - tail;
      if tailLen >= |data| + OVERHEAD {
        Copy(block, tail, sHead);
        Copy(block, tail + HEAD_LEN, data);
        Copy(block, tail + HEAD_LEN + |data|, SPPX);
        StoreWhole(old(block[..]), tail, sHead, data, SPPX);
        tail := tail + |data| + C_HEAD_SIZE + C_SAFE_AREA_LEN * 2;
      } else if tailLen >= HEAD_LEN {
        WriteSplit(data, sHead, tailLen);
        tail := tail + (|data| + OVERHEAD) - blocksize;
      } else {
        var secondLen := HEAD_LEN - tailLen;
        Copy(block, tail, sHead[..tailLen]);
        Copy(block, 0, sHead[tailLen..]);
        Copy(block, secondLen, data);
        Copy(block, secondLen + |data|, SPPX);
        StoreCutFirst(old(block[..]), tail, sHead[..tailLen], sHead[tailLen..], data, SPPX);
        assert sHead == sHead[..tailLen] + sHead[tailLen..];
        tail := secondLen + |data| + C_SAFE_AREA_LEN;
      }
    }

    /** The end of the block falls inside the payload or inside the trailer. */
    method WriteSplit(data: seq<Byte>, sHead: seq<Byte>, tailLen: nat)
      requires Sane() && tail <= blocksize && |sHead| == HEAD_LEN && |data| + OVERHEAD < blocksize
      requires tailLen == blocksize - tail && HEAD_LEN <= tailLen < |data| + OVERHEAD
      modifies block
      ensures block[..] == Store(old(block[..]), tail, sHead + data + SPPX)
    {
      hide Store;
      var firstLen := tailLen - HEAD_LEN;
      var secondLen := |data| + C_SAFE_AREA_LEN - firstLen;
      Copy(block, tail, sHead);
      if secondLen >= C_SAFE_AREA_LEN {
        WriteSplitData(data, firstLen, secondLen);
        StoreCutSecond(old(block[..]), tail, sHead, data[..firstLen], data[firstLen..], SPPX);
        assert data == data[..firstLen] + data[firstLen..];
      } else {
        Copy(block, tail + HEAD_LEN, data);
        SplitTrailer(secondLen);
        ghost var cut := C_SAFE_AREA_LEN - secondLen;
        StoreCutLast(old(block[..]), tail, sHead, data, SPPX[..cut], SPPX[cut..]);
        assert SPPX == SPPX[..cut] + SPPX[cut..];
      }
    }

    /** The payload straddling the end of the block, and the trailer behind it. */
    method WriteSplitData(data: seq<Byte>, firstLen: nat, secondLen: nat)
      requires Sane() && tail + HEAD_LEN + firstLen == blocksize && firstLen <= |data|
      requires secondLen == |data| + C_SAFE_AREA_LEN - firstLen <= blocksize
      modifies block
      ensures block[..] == Blit(Blit(Blit(old(block[..]), tail + HEAD_LEN, data[..firstLen]), 0, data[firstLen..]),
                                secondLen - C_SAFE_AREA_LEN, SPPX)
    {
      Copy(block, tail + HEAD_LEN, data[..firstLen]);
      Copy(block, 0, data[firstLen..]);
      Copy(block, secondLen - C_SAFE_AREA_LEN, SPPX);
    }

    /** The magic straddling the end of the block, stored byte by byte. */
    method SplitTrailer(secondLen: nat)
      requires Sane() && 1 <= secondLen <= 3 && blocksize >= C_SAFE_AREA_LEN
      modifies block
      ensures var cut := C_SAFE_AREA_LEN - secondLen;
              block[..] == Blit(Blit(old(block[..]), blocksize - cut, SPPX[..cut]), 0, SPPX[cut..])
    {
      if secondLen == 3 {
        block[blocksize - 1] := 0x53;
        block[0] := 0x50;
        block[1] := 0x50;
        block[2] := 0x58;
      } else if secondLen == 2 {
        block[blocksize - 2] := 0x53;
        block[blocksize - 1] := 0x50;
        block[0] := 0x50;
        block[1] := 0x58;
      } else {
        block[blocksize - 3] := 0x53;
        block[blocksize - 2] := 0x50;
        block[blocksize - 1] := 0x50;
        block[0] := 0x58;
      }
    }

    method Enqueue(data: seq<Byte>, flow: U32, clearerAlive: bool) returns (ret: int)
      requires Sane() && |data| + OVERHEAD < U32_SIZE
      modifies this, block
      ensures old(Valid()) ==> Valid()
      ensures old(Valid()) && |data| < old(Room()) ==> queue == old(queue) + [Msg(flow, data)] && ret == |queue|
      ensures old(Valid()) && |data| >= old(Room()) ==> ret == COMMU_ERR_MQFULL && unchanged(this) && unchanged(block)
      ensures old(head > blocksize || tail > blocksize) ==>
                ret == COMMU_ERR_CHKFAIL && (old(pid) == 0 || !clearerAlive ==> Valid() && queue == [])
      ensures Sane()
    {
      hide Holds, Image, Frame, Store, Advance, Le32;
      var h, t := head, tail;
      if old(Valid()) {
        FreeIsExact(block[..], h, t, queue);
      }
      var ok := DoCheck(h, t, clearerAlive);
      if !ok {
        return COMMU_ERR_CHKFAIL;
      }
      var freeLen := if h > t then h - t else h + blocksize - t;
      var total := |data| + C_HEAD_SIZE + 2 * C_SAFE_AREA_LEN;
      if freeLen <= total {
        return COMMU_ERR_MQFULL;
      }
      ghost var m: Msg := Msg(flow, data);
      ghost var before := block[..];
      var sHead := Le32(C_SAFE_AREA_VAL) + Le32(total) + Le32(flow);
      WriteFrame(data, sHead);
      FrameIsThreePieces(m, sHead);
      if old(Valid()) {
        StoreAppends(before, h, t, queue, m);
      }
      queue := queue + [m];
      msgCount := msgCount + 1;
      return msgCount;
    }

    /** The twelve header bytes at head, split over the end of the block or not. */
    method ReadHeader() returns (sHead: seq<Byte>, pos: nat)
      requires Sane() && head <= blocksize && HEAD_LEN <= blocksize
      ensures sHead == Span(block[..], head, HEAD_LEN)
      ensures pos == Advance(blocksize, head, HEAD_LEN)
    {
      if head + C_SAFE_AREA_LEN + C_HEAD_SIZE > blocksize {
        var firstSize := blocksize - head;
        var secondSize := C_SAFE_AREA_LEN + C_HEAD_SIZE - firstSize;
        sHead := block[head..head + firstSize] + block[..secondSize];
        pos := secondSize;
      } else {
        sHead := block[head..head + HEAD_LEN];
        pos := head + HEAD_LEN;
      }
      assert block[..][head..] == block[head..];
    }

    /** Payload and trailer to the caller's buffer; head moves past them. */
    method CopyOut(buf: array<Byte>, pos: nat, len: nat)
      requires Sane() && buf != block && pos <= blocksize && len <= blocksize && len <= buf.Length
      modifies this`head, buf
      ensures buf[..len] == Span(block[..], pos, len)
      ensures head == Advance(blocksize, pos, len)
    {
      if pos + len > blocksize {
        var firstSize := blocksize - pos;
        var secondSize := len - firstSize;
        Copy(buf, 0, block[pos..pos + firstSize]);
        ghost var half := buf[..];
        Copy(buf, firstSize, block[..secondSize]);
        assert buf[..firstSize] == half[..firstSize];
        head := secondSize;
      } else {
        Copy(buf, 0, block[pos..pos + len]);
        head := pos + len;
      }
      assert block[..][pos..] == block[pos..];
    }

    /** Payload and trailer to the caller, the trailer checked, the statistics updated. */
    method TakeBody(buf: array<Byte>, pos: nat, len: nat, flow: U32) returns (ret: int, dataLen: U32)
      requires Sane() && buf != block && pos <= blocksize && len <= blocksize && len <= buf.Length < 0x8000_0000
      modifies this, buf
      ensures var r := ReadBody(old(block[..]), pos, len);
              && (r.Fault? ==> ret == r.code && dataLen == 0 && Valid() && queue == [])
              && (r.Wild? ==> ret == WILD_READ)
              && (r.Got? ==>
                    && ret == 0 && dataLen == |r.data| && buf[..dataLen] == r.data
                    && head == r.next && tail == old(tail) && queue == old(queue)
                    && msgCount == old(msgCount) && curflow == flow && processCount == old(processCount) + 1)
    {
      CopyOut(buf, pos, len);
      if len < C_SAFE_AREA_LEN {
        return WILD_READ, len;
      }
      dataLen := len - C_SAFE_AREA_LEN;
      assert buf[dataLen..dataLen + 4] == buf[..len][dataLen..dataLen + 4];
      if Word(buf[dataLen..dataLen + 4]) != C_SAFE_AREA_VAL {
        Clear(1);
        return COMMU_ERR_CHKFAIL, 0;
      }
      assert buf[..dataLen] == buf[..len][..dataLen];
      curflow := flow;
      processCount := processCount + 1;
      return 0, dataLen;
    }

    method Dequeue(buf: array<Byte>, clearerAlive: bool) returns (ret: int, dataLen: U32, flow: U32)
      requires Sane() && buf != block && buf.Length < 0x8000_0000
      requires Valid() || HEAD_LEN <= blocksize
      modifies this, buf
      ensures Sane()
      ensures old(Valid()) ==> Valid()
      ensures old(Valid()) && old(queue) == [] ==>
                ret == COMMU_ERR_MQEMPTY && dataLen == 0 && unchanged(this) && unchanged(buf)
      ensures old(Valid()) && old(queue) != [] && |old(queue)[0].data| + C_SAFE_AREA_LEN <= buf.Length ==>
                && ret == 0 && queue == old(queue)[1..]
                && flow == old(queue)[0].flow == curflow
                && dataLen == |old(queue)[0].data| && buf[..dataLen] == old(queue)[0].data
                && processCount == old(processCount) + 1
      ensures old(Valid()) && old(queue) != [] && |old(queue)[0].data| + C_SAFE_AREA_LEN > buf.Length ==>
                ret == COMMU_ERR_OTFBUFF && dataLen == 0 && queue == []
      ensures ret == COMMU_ERR_OTFBUFF || (ret == COMMU_ERR_CHKFAIL && (old(pid) == 0 || !clearerAlive)) ==>
                Valid() && queue == []
    {
      hide Holds, Image, Read, FlowAt;
      ghost var valid := Valid();
      var h, t := head, tail;
      flow := 0;
      if valid {
        FreeIsExact(block[..], h, t, queue);
      }
      var ok := DoCheck(h, t, clearerAlive);
      if !ok {
        return COMMU_ERR_CHKFAIL, 0, flow;
      }
      if h == t {
        return COMMU_ERR_MQEMPTY, 0, flow;
      }
      if valid {
        ReadFront(block[..], h, t, queue, buf.Length);
      }
      assert block[..] == old(block[..]);
      ret, dataLen, flow := TakeFrame(buf, t);
      assert block[..] == old(block[..]);
      if valid && ret == 0 {
        queue := queue[1..];
      }
    }

    /** The part of dequeue that runs once head and tail are known to differ. */
    method TakeFrame(buf: array<Byte>, t: U32) returns (ret: int, dataLen: U32, flow: U32)
      requires Sane() && buf != block && buf.Length < 0x8000_0000 && HEAD_LEN <= blocksize
      requires head <= blocksize && t <= blocksize && t != head
      modifies this, buf
      ensures var r := Read(old(block[..]), old(head), t, buf.Length);
              && flow == FlowAt(old(block[..]), old(head))
              && (r.Fault? ==> ret == r.code && dataLen == 0 && Valid() && queue == [])
              && (r.Wild? ==> ret == WILD_READ)
              && (r.Got? ==>
                    && ret == 0 && dataLen == |r.data| && dataLen <= buf.Length && buf[..dataLen] == r.data
                    && head == r.next && tail == old(tail) && queue == old(queue)
                    && msgCount == old(msgCount) - 1 && curflow == flow && processCount == old(processCount) + 1)
    {
      hide Holds, Span, Advance, ReadBody, Word;
      msgCount := msgCount - 1;
      var usedLen := if t > head then t - head else t + blocksize - head;
      var sHead, pos := ReadHeader();
      var total := Word(sHead[4..8]);
      flow := Word(sHead[8..12]);
      if Word(sHead[0..4]) != C_SAFE_AREA_VAL {
        Clear(1);
        return COMMU_ERR_CHKFAIL, 0, flow;
      }
      if total > usedLen {
        Clear(1);
        return COMMU_ERR_MQEMPTY, 0, flow;
      }
      var len := if total < HEAD_LEN then total - HEAD_LEN + U32_SIZE else total - HEAD_LEN;
      if len > buf.Length {
        Clear(1);
        return COMMU_ERR_OTFBUFF, 0, flow;
      }
      assert block[..] == old(block[..]);
      ret, dataLen := TakeBody(buf, pos, len, flow);
    }
  }

  lemma FrameIsThreePieces(m: Msg, sHead: seq<Byte>)
    requires sHead == Header(|m.data| + OVERHEAD, m.flow)
    ensures Frame(m) == sHead + m.data + SPPX
  {
  }

  /** What the twelve bytes at head say when the queue is not empty. */
  lemma HeaderIsFront(block: seq<Byte>, head: nat, tail: nat, q: seq<Msg>)
    requires Holds(block, head, tail, q) && q != []
    ensures var total := |q[0].data| + OVERHEAD;
            && total < |block|
            && var h := Span(block, head, HEAD_LEN);
            && Word(h[0..4]) == C_SAFE_AREA_VAL && Word(h[4..8]) == total && Word(h[8..12]) == q[0].flow
            && total <= UsedLen(|block|, head, tail)
  {
    hide Span, Advance, Frame, Image, Word;
    var f := Frame(q[0]);
    FrontFrame(block, head, tail, q);
    SpanParts(block, head, f, HEAD_LEN);
    SliceOfSlice(f, 0, HEAD_LEN, 0, 4);
    SliceOfSlice(f, 0, HEAD_LEN, 4, 8);
    SliceOfSlice(f, 0, HEAD_LEN, 8, 12);
    FrameFields(q[0]);
  }

  /** What lies behind the header, and what is left of the queue once head has moved past it. */
  lemma BodyIsFront(block: seq<Byte>, head: nat, tail: nat, q: seq<Msg>)
    requires Holds(block, head, tail, q) && q != []
    ensures var n := |q[0].data|;
            && n + OVERHEAD < |block|
            && var pos := Advance(|block|, head, HEAD_LEN);
            && var body := Span(block, pos, n + C_SAFE_AREA_LEN);
            && body[..n] == q[0].data && Word(body[n..n + 4]) == C_SAFE_AREA_VAL
            && Holds(block, Advance(|block|, pos, n + C_SAFE_AREA_LEN), tail, q[1..])
  {
    hide Span, Advance, Frame, Image, Word;
    var f, n := Frame(q[0]), |q[0].data|;
    assert |f| == HEAD_LEN + n + C_SAFE_AREA_LEN;
    FrontFrame(block, head, tail, q);
    SpanParts(block, head, f, HEAD_LEN);
    SliceOfSlice(f, HEAD_LEN, |f|, 0, n);
    SliceOfSlice(f, HEAD_LEN, |f|, n, n + 4);
    AdvanceTwice(|block|, head, HEAD_LEN, n + C_SAFE_AREA_LEN);
    FrameFields(q[0]);
    var body := Span(block, Advance(|block|, head, HEAD_LEN), n + C_SAFE_AREA_LEN);
    assert body == f[HEAD_LEN..|f|];
    assert body[0..n] == q[0].data;
  }

  /** On a ring that holds a queue the reading is the oldest message, or a buffer too small for it. */
  lemma ReadFront(block: seq<Byte>, head: nat, tail: nat, q: seq<Msg>, capacity: nat)
    requires Holds(block, head, tail, q) && q != []
    ensures HEAD_LEN <= |block| && FlowAt(block, head) == q[0].flow
    ensures |q[0].data| + C_SAFE_AREA_LEN > capacity ==>
              Read(block, head, tail, capacity) == Fault(COMMU_ERR_OTFBUFF)
    ensures |q[0].data| + C_SAFE_AREA_LEN <= capacity ==>
              && var r := Read(block, head, tail, capacity);
              && r.Got? && r.data == q[0].data && Holds(block, r.next, tail, q[1..])
  {
    hide Holds, Span, Advance, Image, Word;
    HeaderIsFront(block, head, tail, q);
    BodyIsFront(block, head, tail, q);
  }
}
