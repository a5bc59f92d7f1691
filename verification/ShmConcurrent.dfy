/** One producer and one consumer (each side serialised by its own lock) working on the ring at the
    same time, interleaved load by load and byte by byte. */
module ShmConcurrent {
  import opened Bytes
  import opened ShmFrames
  import opened ShmRing
  import opened ShmMQ

  /** Where the producer stands inside produce/enqueue. */
  datatype Producer =
    | PIdle
    | PSawHead(msg: Msg, h: nat)
    | PStoring(msg: Msg, t: nat, done: nat)   // `done` bytes of the frame are in the block
    | PPublished                              // tail moved, message not yet counted
    | PCounted(ret: int)                      // atomic_add_return gave `ret`, no byte sent to notify yet
    | PBroken

  /** Where the consumer stands inside comsume/dequeue. */
  datatype Consumer =
    | CIdle
    | CSawHead(h: nat)
    | CSawBoth(h: nat, t: nat)
    | CLoading(h: nat, t: nat, got: seq<Byte>)  // counted out; `got` are the bytes loaded so far
    | CMoved(got: seq<Byte>)                    // head moved, trailer not yet checked
    | CBroken                                   // a safe-area, length, buffer or index check failed

  /** `accepted`, `delivered` and `queue` record history and appear in no test;
      `notified`: a notify byte was written since msgCount was last at most 0. */
  datatype State = State(
    block: seq<Byte>, head: nat, tail: nat, msgCount: int, notified: bool,
    producer: Producer, consumer: Consumer,
    queue: seq<Msg>, accepted: seq<Msg>, delivered: seq<Msg>)

  /** The scheduler lets one side take its next step; an idle producer is given a message, an idle
      consumer may or may not look at msgCount first. */
  datatype Turn = Produce(msg: Msg) | Consume(asksEmpty: bool)

  function Init(block: seq<Byte>): State
  {
    State(block, 0, 0, 0, false, PIdle, CIdle, [], [], [])
  }

  function Counted(s: State, d: int): State
  {
    s.(msgCount := s.msgCount + d, notified := s.notified && s.msgCount + d > 0)
  }

  function ProducerStep(s: State, msg: Msg): (r: State)
    ensures |r.block| == |s.block|
  {
    var n := |s.block|;
    match s.producer
    case PIdle => s.(producer := PSawHead(msg, s.head))
    case PSawHead(m, h) =>
      if h > n || s.tail > n then s.(producer := PBroken)
      else if FreeLen(n, h, s.tail) <= |Frame(m)| then s.(producer := PIdle)
      else s.(producer := PStoring(m, s.tail, 0))
    case PStoring(m, t, done) =>
      if t > n || |Frame(m)| > n then s.(producer := PBroken)
      else if done < |Frame(m)| then
        s.(block := s.block[Wrap(n, t + done) := Frame(m)[done]], producer := PStoring(m, t, done + 1))
      else
        s.(tail := Advance(n, t, |Frame(m)|), producer := PPublished,
           queue := s.queue + [m], accepted := s.accepted + [m])
    case PPublished => Counted(s, 1).(producer := PCounted(s.msgCount + 1))
    case PCounted(ret) =>
      s.(producer := PIdle, notified := s.notified || (ret == 1 && s.msgCount > 0))
    case PBroken => s
  }

  /** Bytes a dequeue wants: the header, and once that is in and passes the checks, the whole frame. */
  function Wanted(n: nat, capacity: nat, h: nat, t: nat, got: seq<Byte>): (w: int)
  {
    if |got| < HEAD_LEN then HEAD_LEN
    else
      var total := Word(got[4..8]);
      if Word(got[0..4]) != C_SAFE_AREA_VAL || total > UsedLen(n, h, t)
         || total < OVERHEAD || total - HEAD_LEN > capacity then -1
      else total
  }

  function Rest(q: seq<Msg>): seq<Msg>
  {
    if q == [] then [] else q[1..]
  }

  function ConsumerStep(s: State, capacity: nat, asksEmpty: bool): (r: State)
    ensures r.block == s.block
  {
    var n := |s.block|;
    match s.consumer
    case CIdle =>
      if asksEmpty && s.msgCount == 0 then s else s.(consumer := CSawHead(s.head))
    case CSawHead(h) =>
      if h > n || s.tail > n then s.(consumer := CBroken) else s.(consumer := CSawBoth(h, s.tail))
    case CSawBoth(h, t) =>
      if h == t then s.(consumer := CIdle) else Counted(s, -1).(consumer := CLoading(h, t, []))
    case CLoading(h, t, got) => LoadStep(s, capacity, h, t, got)
    case CMoved(got) => HandOutStep(s, CutFrame(got))
    case CBroken => s
  }

  /** One more byte off the ring, or head moved past the frame once all are in. */
  function LoadStep(s: State, capacity: nat, h: nat, t: nat, got: seq<Byte>): State
  {
    var n, want := |s.block|, Wanted(|s.block|, capacity, h, t, got);
    if want < 0 || want > n || h > n then s.(consumer := CBroken)
    else if |got| < want then s.(consumer := CLoading(h, t, got + [s.block[Wrap(n, h + |got|)]]))
    else s.(head := Advance(n, h, want), queue := Rest(s.queue), consumer := CMoved(got))
  }

  /** The trailer check and the return to the caller. */
  function HandOutStep(s: State, cut: Cut): State
  {
    match cut
    case Malformed => s.(consumer := CBroken)
    case Cut(m, _) => s.(consumer := CIdle, delivered := s.delivered + [m])
  }

  function Step(s: State, capacity: nat, turn: Turn): (r: State)
    ensures |r.block| == |s.block|
  {
    match turn
    case Produce(m) => ProducerStep(s, m)
    case Consume(asks) => ConsumerStep(s, capacity, asks)
  }

  function Run(s: State, capacity: nat, turns: seq<Turn>): (r: State)
    ensures |r.block| == |s.block|
  {
    if turns == [] then s else Step(Run(s, capacity, turns[..|turns| - 1]), capacity, turns[|turns| - 1])
  }

  // ---- the invariant ----

  ghost predicate ProducerInv(s: State)
  {
    var n := |s.block|;
    match s.producer
    case PSawHead(m, h) => h <= n && FreeLen(n, h, s.tail) <= n - |Image(s.queue)|
    case PStoring(m, t, done) =>
      && t == s.tail <= n && done <= |Frame(m)| && |Image(s.queue)| + |Frame(m)| < n
      && Span(s.block, t, done) == Frame(m)[..done]
    case PCounted(ret) => ret >= 0
    case PBroken => false
    case _ => true
  }

  ghost predicate Ready(s: State, h: nat, t: nat)
  {
    h == s.head && t <= |s.block| && s.queue != [] && |Frame(s.queue[0])| <= UsedLen(|s.block|, h, t)
  }

  ghost predicate ConsumerInv(s: State)
  {
    match s.consumer
    case CSawHead(h) => h == s.head
    case CSawBoth(h, t) => h == s.head && (h == t || Ready(s, h, t))
    case CLoading(h, t, got) =>
      Ready(s, h, t) && |got| <= |Frame(s.queue[0])| && got == Frame(s.queue[0])[..|got|]
    case CMoved(got) => exists m :: got == Frame(m)
    case CBroken => false
    case _ => true
  }

  function Caught(cut: Cut): seq<Msg>
  {
    match cut
    case Cut(m, _) => [m]
    case Malformed => []
  }

  /** The message the consumer has taken off the ring but not yet handed out. */
  function InHand(s: State): seq<Msg>
  {
    match s.consumer
    case CMoved(got) => Caught(CutFrame(got))
    case _ => []
  }

  ghost predicate Books(s: State)
  {
    && s.accepted == s.delivered + InHand(s) + s.queue
    && s.msgCount == |s.queue| - (if s.producer.PPublished? then 1 else 0) - (if s.consumer.CLoading? then 1 else 0)
    && (s.producer != PCounted(1) && s.msgCount > 0 ==> s.notified)
  }

  ghost predicate Inv(s: State)
  {
    && Holds(s.block, s.head, s.tail, s.queue)
    && ProducerInv(s) && ConsumerInv(s) && Books(s)
  }

  // ---- every step keeps it ----

  lemma StoringKeeps(s: State)
    requires Inv(s) && s.producer.PStoring? && s.producer.done < |Frame(s.producer.msg)|
    ensures Inv(ProducerStep(s, s.producer.msg))
  {
    var n, m, t, done := |s.block|, s.producer.msg, s.producer.t, s.producer.done;
    var f := Frame(m);
    SpanBesideByte(s.block, s.head, |Image(s.queue)|, done, f[done]);
    SpanOneMore(s.block, t, done, f);
  }

  lemma PublishKeeps(s: State)
    requires Inv(s) && s.producer.PStoring? && s.producer.done == |Frame(s.producer.msg)|
    ensures Inv(ProducerStep(s, s.producer.msg))
  {
    var n, m, t := |s.block|, s.producer.msg, s.producer.t;
    var f := Frame(m);
    assert f[..|f|] == f;
    AppendFrame(s.block, s.head, t, s.queue, m);
    assert s.delivered + InHand(s) + s.queue + [m] == s.delivered + InHand(s) + (s.queue + [m]);
  }

  /** Bytes already lying behind tail become part of the queue when tail moves past them. */
  lemma AppendFrame(block: seq<Byte>, head: nat, tail: nat, q: seq<Msg>, m: Msg)
    requires Holds(block, head, tail, q) && |Image(q)| + |Frame(m)| < |block|
    requires Span(block, tail, |Frame(m)|) == Frame(m)
    ensures Holds(block, head, Advance(|block|, tail, |Frame(m)|), q + [m])
  {
    ConcatAppend(Frame, q, [m]);
    ConcatSingle(Frame, m);
    AdvanceTwice(|block|, head, |Image(q)|, |Frame(m)|);
    SpanSplit(block, head, |Image(q)|, |Frame(m)|);
  }

  lemma IdleKeeps(s: State, m: Msg)
    requires Inv(s) && s.producer == PIdle
    ensures Inv(s.(producer := PSawHead(m, s.head)))
  {
    FreeIsExact(s.block, s.head, s.tail, s.queue);
  }

  lemma SawRoomKeeps(s: State, m: Msg, h: nat)
    requires Inv(s) && s.producer == PSawHead(m, h) && FreeLen(|s.block|, h, s.tail) > |Frame(m)|
    ensures Inv(s.(producer := PStoring(m, s.tail, 0)))
  {
  }

  lemma ProducerKeeps(s: State, msg: Msg)
    requires Inv(s)
    ensures Inv(ProducerStep(s, msg))
  {
    hide Frame, Image, Span, Advance;
    match s.producer
    case PIdle => IdleKeeps(s, msg);
    case PSawHead(m, h) =>
      if FreeLen(|s.block|, h, s.tail) > |Frame(m)| { SawRoomKeeps(s, m, h); }
    case PStoring(m, t, done) =>
      if done < |Frame(m)| { StoringKeeps(s); } else { PublishKeeps(s); }
    case _ =>
  }

  lemma LoadByteKeeps(s: State, h: nat, t: nat, got: seq<Byte>)
    requires Inv(s) && s.consumer == CLoading(h, t, got) && |got| < |Frame(s.queue[0])|
    ensures h + |got| < 2 * |s.block|
    ensures Inv(s.(consumer := CLoading(h, t, got + [s.block[Wrap(|s.block|, h + |got|)]])))
  {
    hide Frame, Image, Span, Advance;
    FrontFrame(s.block, s.head, s.tail, s.queue);
    PrefixGrows(s.block, h, Frame(s.queue[0]), |got|);
  }

  lemma ImageShrinks(q: seq<Msg>)
    requires q != []
    ensures |Image(q)| == |Frame(q[0])| + |Image(q[1..])|
  {
  }

  lemma LoadedKeeps(s: State, h: nat, t: nat, got: seq<Byte>)
    requires Inv(s) && s.consumer == CLoading(h, t, got) && |got| == |Frame(s.queue[0])| <= |s.block|
    ensures Inv(s.(head := Advance(|s.block|, h, |got|), queue := Rest(s.queue), consumer := CMoved(got)))
  {
    hide Frame, Span, Advance, Image, CutFrame;
    FrontFrame(s.block, s.head, s.tail, s.queue);
    ImageShrinks(s.queue);
    assert got == Frame(s.queue[0]);
    CaughtWhole(s.queue[0]);
    assert s.delivered + [] + s.queue == s.delivered + [s.queue[0]] + s.queue[1..];
  }

  lemma LoadKeeps(s: State, capacity: nat, h: nat, t: nat, got: seq<Byte>)
    requires Inv(s) && s.consumer == CLoading(h, t, got) && |s.block| <= capacity + HEAD_LEN
    ensures Inv(LoadStep(s, capacity, h, t, got))
  {
    hide Frame, Image, Span, Advance;
    var n := |s.block|;
    assert |Frame(s.queue[0])| < n by { FrontFrame(s.block, s.head, s.tail, s.queue); }
    WantedIsFrame(n, capacity, h, t, s.queue[0], got);
    if |got| < Wanted(n, capacity, h, t, got) {
      LoadByteKeeps(s, h, t, got);
    } else {
      LoadedKeeps(s, h, t, got);
    }
  }

  lemma HandOutKeeps(s: State, got: seq<Byte>)
    requires Inv(s) && s.consumer == CMoved(got)
    ensures Inv(HandOutStep(s, CutFrame(got)))
  {
    var m :| got == Frame(m);
    CaughtWhole(m);
    assert s.delivered + [m] + [] == s.delivered + [m];
  }

  lemma SawHeadKeeps(s: State, h: nat)
    requires Inv(s) && s.consumer == CSawHead(h)
    ensures Inv(s.(consumer := CSawBoth(h, s.tail)))
  {
    FreeIsExact(s.block, s.head, s.tail, s.queue);
    if s.queue != [] {
      FrontFrame(s.block, s.head, s.tail, s.queue);
    }
  }

  lemma PrefixGrows(block: seq<Byte>, pos: nat, f: seq<Byte>, k: nat)
    requires pos <= |block| && |f| < |block| && k < |f| && Span(block, pos, |f|) == f
    ensures f[..k] + [block[Wrap(|block|, pos + k)]] == f[..k + 1]
  {
    assert f[k] == block[Wrap(|block|, pos + k)];
  }

  lemma CaughtWhole(m: Msg)
    ensures CutFrame(Frame(m)) == Cut(m, [])
  {
    CutOfFrame(m, []);
    assert Frame(m) + [] == Frame(m);
  }

  /** From any prefix of a frame the consumer works out the right amount to load, and no check fails. */
  lemma WantedIsFrame(n: nat, capacity: nat, h: nat, t: nat, m: Msg, got: seq<Byte>)
    requires |got| <= |Frame(m)| && got == Frame(m)[..|got|]
    requires |Frame(m)| <= UsedLen(n, h, t) && |Frame(m)| < n <= capacity + HEAD_LEN
    ensures Wanted(n, capacity, h, t, got) == if |got| < HEAD_LEN then HEAD_LEN else |Frame(m)|
  {
    if |got| >= HEAD_LEN {
      var f := Frame(m);
      FrameFields(m);
      SliceOfSlice(f, 0, |got|, 0, 4);
      SliceOfSlice(f, 0, |got|, 4, 8);
    }
  }

  lemma ConsumerKeeps(s: State, capacity: nat, asks: bool)
    requires Inv(s) && |s.block| <= capacity + HEAD_LEN
    ensures Inv(ConsumerStep(s, capacity, asks))
  {
    hide Frame, Image, Span, Advance;
    match s.consumer
    case CSawHead(h) => SawHeadKeeps(s, h);
    case CLoading(h, t, got) => LoadKeeps(s, capacity, h, t, got);
    case CMoved(got) => HandOutKeeps(s, got);
    case _ =>
  }

  lemma StepKeeps(s: State, capacity: nat, turn: Turn)
    requires Inv(s) && |s.block| <= capacity + HEAD_LEN
    ensures Inv(Step(s, capacity, turn))
  {
    match turn
    case Produce(m) => ProducerKeeps(s, m);
    case Consume(asks) => ConsumerKeeps(s, capacity, asks);
  }

  lemma {:induction false} RunKeeps(block: seq<Byte>, capacity: nat, turns: seq<Turn>)
    requires |block| <= capacity + HEAD_LEN
    ensures Inv(Run(Init(block), capacity, turns))
  {
    if turns == [] {
      EmptyHoldsNothing(block, 0);
    } else {
      var s := Run(Init(block), capacity, turns[..|turns| - 1]);
      RunKeeps(block, capacity, turns[..|turns| - 1]);
      StepKeeps(s, capacity, turns[|turns| - 1]);
    }
  }

  // ---- what follows for every interleaving ----

  function Used(s: State): int
  {
    if s.head == s.tail then 0 else UsedLen(|s.block|, s.head, s.tail)
  }

  /** The bytes from head to tail are whole frames, what was handed out is a prefix of what was
      accepted, and no check on either side has failed. */
  ghost predicate Safe(s: State)
  {
    && s.head <= |s.block| && 0 <= Used(s) <= |s.block|
    && Parse(Span(s.block, s.head, Used(s))) == Whole(s.queue)
    && s.delivered <= s.accepted == s.delivered + InHand(s) + s.queue
    && !s.producer.PBroken? && !s.consumer.CBroken?
  }

  /** The byte a storing producer is about to write lies beyond all those in use. */
  ghost predicate WritesFreeByte(s: State)
  {
    s.producer.PStoring? && s.producer.done < |Frame(s.producer.msg)| ==>
      && s.producer.t <= |s.block| && s.producer.done < |s.block| && s.head <= |s.block|
      && Offset(|s.block|, s.head, Wrap(|s.block|, s.producer.t + s.producer.done)) >= Used(s)
  }

  lemma UsedIsImage(s: State)
    requires Inv(s)
    ensures Used(s) == |Image(s.queue)| && (s.queue == [] || Used(s) < |s.block|)
  {
    FreeIsExact(s.block, s.head, s.tail, s.queue);
    if s.queue != [] {
      IndicesTellLength(|s.block|, s.head, |Image(s.queue)|);
    }
  }

  lemma InvIsSafe(s: State)
    requires Inv(s)
    ensures Safe(s)
  {
    UsedIsImage(s);
    SpanParses(s.block, s.head, Used(s), s.queue);
    PrefixOfSum(s.accepted, s.delivered, InHand(s), s.queue);
  }

  lemma SpanParses(block: seq<Byte>, pos: nat, len: nat, q: seq<Msg>)
    requires pos <= |block| && len <= |block| && Span(block, pos, len) == Image(q)
    ensures Parse(Span(block, pos, len)) == Whole(q)
  {
    ParseImage(q);
  }

  lemma PrefixOfSum<T>(all: seq<T>, a: seq<T>, b: seq<T>, c: seq<T>)
    requires all == a + b + c
    ensures a <= all
  {
  }

  lemma InvWritesFreeByte(s: State)
    requires Inv(s)
    ensures WritesFreeByte(s)
  {
    UsedIsImage(s);
    if s.producer.PStoring? && s.producer.done < |Frame(s.producer.msg)| {
      OffsetBeyond(|s.block|, s.head, Used(s), s.producer.done);
    }
  }

  lemma OffsetBeyond(n: nat, pos: nat, used: nat, done: nat)
    requires pos <= n && used + done < n
    ensures Offset(n, pos, Wrap(n, Advance(n, pos, used) + done)) == used + done
  {
  }

  lemma RunIsSafe(block: seq<Byte>, capacity: nat, turns: seq<Turn>)
    requires |block| <= capacity + HEAD_LEN
    ensures Safe(Run(Init(block), capacity, turns))
  {
    RunKeeps(block, capacity, turns);
    InvIsSafe(Run(Init(block), capacity, turns));
  }

  lemma RunNeverOverwrites(block: seq<Byte>, capacity: nat, turns: seq<Turn>)
    requires |block| <= capacity + HEAD_LEN
    ensures WritesFreeByte(Run(Init(block), capacity, turns))
  {
    RunKeeps(block, capacity, turns);
    InvWritesFreeByte(Run(Init(block), capacity, turns));
  }

  /** msgCount is the number of frames in the ring less one the producer has not counted yet, less one
      the consumer is taking; so it never falls below -1 and no enqueue reports a negative count. */
  lemma RunCounts(block: seq<Byte>, capacity: nat, turns: seq<Turn>)
    requires |block| <= capacity + HEAD_LEN
    ensures var s := Run(Init(block), capacity, turns);
            && s.msgCount ==
               |s.queue| - (if s.producer.PPublished? then 1 else 0) - (if s.consumer.CLoading? then 1 else 0)
            && s.msgCount >= -1
            && (s.producer.PCounted? ==> s.producer.ret >= 0)
  {
    RunKeeps(block, capacity, turns);
  }

  /** No lost wakeup: with the producer idle, a frame nobody is taking makes msgCount positive, so a
      consumer that asks does not turn away, and a notify byte was written since it last was not. */
  lemma RunWakes(block: seq<Byte>, capacity: nat, turns: seq<Turn>)
    requires |block| <= capacity + HEAD_LEN
    requires var s := Run(Init(block), capacity, turns);
             s.producer == PIdle && |s.queue| > if s.consumer.CLoading? then 1 else 0
    ensures var s := Run(Init(block), capacity, turns);
            && s.msgCount >= 1 && s.notified
            && (s.consumer == CIdle ==>
                  forall asks :: ConsumerStep(s, capacity, asks).consumer == CSawHead(s.head))
  {
    RunKeeps(block, capacity, turns);
  }

  // ---- what each side gets done in its turns, whatever the other does in between ----

  /** The turns of one side. */
  function Turns(turns: seq<Turn>, producer: bool): nat
  {
    if turns == [] then 0
    else Turns(turns[..|turns| - 1], producer) + if turns[|turns| - 1].Produce? == producer then 1 else 0
  }

  lemma RunMore(s: State, capacity: nat, turns: seq<Turn>, turn: Turn)
    ensures Run(s, capacity, turns + [turn]) == Step(Run(s, capacity, turns), capacity, turn)
    ensures Turns(turns + [turn], turn.Produce?) == Turns(turns, turn.Produce?) + 1
    ensures Turns(turns + [turn], !turn.Produce?) == Turns(turns, !turn.Produce?)
  {
    assert (turns + [turn])[..|turns|] == turns;
  }

  /** There is room for the frame of `m`, with a byte to spare. */
  predicate Fits(s: State, m: Msg)
  {
    |Image(s.queue)| + |Frame(m)| < |s.block|
  }

  /** The producer's turns from reading head to being idle again. */
  function EnqueueTurns(s0: State, m: Msg): nat
  {
    if Fits(s0, m) then |Frame(m)| + 4 else 1
  }

  /** An enqueue of `m` that began in `s0`, after `p` more turns of the producer. */
  ghost predicate Enqueuing(s0: State, s: State, m: Msg, p: nat)
  {
    && |s.block| == |s0.block|
    && (p < |Frame(m)| + 2 || !Fits(s0, m) ==> s.tail == s0.tail && s.accepted == s0.accepted)
    && (p >= |Frame(m)| + 2 && Fits(s0, m) ==> s.accepted == s0.accepted + [m])
    && if p == 0 then s.producer == PSawHead(m, s0.head)
       else if !Fits(s0, m) then s.producer == PIdle
       else if p < |Frame(m)| + 2 then s.producer == PStoring(m, s0.tail, p - 1)
       else if p == |Frame(m)| + 2 then s.producer == PPublished
       else if p == |Frame(m)| + 3 then s.producer.PCounted?
       else s.producer == PIdle
  }

  lemma EnqueueStep(s0: State, s: State, m: Msg, p: nat, msg: Msg)
    requires Inv(s0) && Enqueuing(s0, s, m, p) && p < EnqueueTurns(s0, m)
    ensures Enqueuing(s0, ProducerStep(s, msg), m, p + 1)
  {
    hide Frame, Image, Span, Advance;
    FreeIsExact(s0.block, s0.head, s0.tail, s0.queue);
  }

  lemma ConsumerLeaves(s: State, capacity: nat, asks: bool)
    ensures var r := ConsumerStep(s, capacity, asks);
            r.producer == s.producer && r.tail == s.tail && r.accepted == s.accepted && |r.block| == |s.block|
  {
    hide CutFrame, Wanted, Advance;
  }

  lemma {:induction false} RunEnqueues(block: seq<Byte>, capacity: nat, before: seq<Turn>, m: Msg, after: seq<Turn>)
    requires |block| <= capacity + HEAD_LEN && Run(Init(block), capacity, before).producer == PIdle
    requires Turns(after, true) <= EnqueueTurns(Run(Init(block), capacity, before), m)
    ensures Enqueuing(Run(Init(block), capacity, before), Run(Init(block), capacity, before + [Produce(m)] + after), m,
              Turns(after, true))
    decreases |after|
  {
    hide Enqueuing, EnqueueTurns, Inv, ProducerStep, ConsumerStep;
    var s0 := Run(Init(block), capacity, before);
    var begun := before + [Produce(m)];
    RunKeeps(block, capacity, before);
    if after == [] {
      assert begun + after == begun;
      RunMore(Init(block), capacity, before, Produce(m));
      EnqueueBegins(s0, m);
    } else {
      var init, turn := after[..|after| - 1], after[|after| - 1];
      assert init + [turn] == after && begun + after == begun + init + [turn];
      RunMore(Init(block), capacity, init, turn);
      RunMore(Init(block), capacity, begun + init, turn);
      RunEnqueues(block, capacity, before, m, init);
      EnqueueTurn(s0, Run(Init(block), capacity, begun + init), capacity, m, Turns(init, true), turn);
    }
  }

  lemma EnqueueBegins(s0: State, m: Msg)
    requires s0.producer == PIdle
    ensures Enqueuing(s0, ProducerStep(s0, m), m, 0)
  {
  }

  lemma EnqueueTurn(s0: State, s: State, capacity: nat, m: Msg, p: nat, turn: Turn)
    requires Inv(s0) && Enqueuing(s0, s, m, p) && (turn.Produce? ==> p < EnqueueTurns(s0, m))
    ensures Enqueuing(s0, Step(s, capacity, turn), m, if turn.Produce? then p + 1 else p)
  {
    hide Inv, ProducerStep, ConsumerStep, Frame, Image;
    match turn
    case Produce(msg) => EnqueueStep(s0, s, m, p, msg);
    case Consume(asks) => ConsumerLeaves(s, capacity, asks);
  }

  lemma StepGrows(s: State, capacity: nat, turn: Turn)
    ensures s.accepted <= Step(s, capacity, turn).accepted && s.delivered <= Step(s, capacity, turn).delivered
  {
    hide CutFrame, Wanted, Advance, Frame;
  }

  /** Nothing accepted or delivered is taken back. */
  lemma {:induction false} RunGrows(s: State, capacity: nat, turns: seq<Turn>, more: seq<Turn>)
    ensures Run(s, capacity, turns).accepted <= Run(s, capacity, turns + more).accepted
    ensures Run(s, capacity, turns).delivered <= Run(s, capacity, turns + more).delivered
    decreases |more|
  {
    hide Step;
    if more == [] {
      assert turns + more == turns;
    } else {
      var init, turn := more[..|more| - 1], more[|more| - 1];
      assert turns + more == turns + init + [turn];
      RunMore(s, capacity, turns + init, turn);
      RunGrows(s, capacity, turns, init);
      StepGrows(Run(s, capacity, turns + init), capacity, turn);
    }
  }

  lemma {:induction false} SplitTurns(turns: seq<Turn>, producer: bool, n: nat) returns (k: nat)
    requires n <= Turns(turns, producer)
    ensures k <= |turns| && Turns(turns[..k], producer) == n
  {
    if n == Turns(turns, producer) {
      k := |turns|;
      assert turns[..k] == turns;
    } else {
      var init := turns[..|turns| - 1];
      k := SplitTurns(init, producer, n);
      assert init[..k] == turns[..k];
    }
  }

  /** A message offered to an idle producer, whatever the consumer does meanwhile: its next turn sends it back to idle
      if and only if the queue it began with leaves no room; otherwise the message, and nothing before it, is accepted
      by the time the producer has had as many more turns as the frame has bytes, and four. */
  lemma RunAccepts(block: seq<Byte>, capacity: nat, before: seq<Turn>, m: Msg, after: seq<Turn>)
    requires |block| <= capacity + HEAD_LEN && Run(Init(block), capacity, before).producer == PIdle
    ensures var s0 := Run(Init(block), capacity, before);
            var s := Run(Init(block), capacity, before + [Produce(m)] + after);
            var fits := |Image(s0.queue)| + |Frame(m)| < |block|;
            && (Turns(after, true) == 1 ==> (s.producer == PIdle <==> !fits))
            && (fits && Turns(after, true) < |Frame(m)| + 2 ==> s.accepted == s0.accepted)
            && (fits && Turns(after, true) >= |Frame(m)| + 2 ==> s0.accepted + [m] <= s.accepted)
            && (fits && Turns(after, true) == |Frame(m)| + 4 ==> s.producer == PIdle)
            && (!fits && Turns(after, true) <= 1 ==> s.accepted == s0.accepted)
  {
    hide Inv, ProducerStep, ConsumerStep, Frame, Image, Run, Turns;
    var s0 := Run(Init(block), capacity, before);
    var begun := before + [Produce(m)];
    if Turns(after, true) <= EnqueueTurns(s0, m) {
      RunEnqueues(block, capacity, before, m, after);
    } else if Fits(s0, m) {
      var k := SplitTurns(after, true, EnqueueTurns(s0, m));
      RunEnqueues(block, capacity, before, m, after[..k]);
      assert begun + after == begun + after[..k] + after[k..];
      RunGrows(Init(block), capacity, begun + after[..k], after[k..]);
    }
  }

  /** A dequeue that read tail in `s0` and found a frame, after `c` more turns of the consumer. */
  ghost predicate Dequeuing(s0: State, s: State, c: nat)
    requires s0.queue != [] && s0.consumer.CSawHead?
  {
    var m, h := s0.queue[0], s0.consumer.h;
    && (c < |Frame(m)| + 3 ==> s.delivered == s0.delivered)
    && (c < |Frame(m)| + 2 ==> s.queue != [] && s.queue[0] == m && s.head == s0.head)
    && if c == 0 then s.consumer == CSawBoth(h, s0.tail)
       else if c < |Frame(m)| + 2 then
         s.consumer.CLoading? && s.consumer.h == h && s.consumer.t == s0.tail && |s.consumer.got| == c - 1
       else if c == |Frame(m)| + 2 then s.consumer == CMoved(Frame(m))
       else s.consumer == CIdle && s.delivered == s0.delivered + [m]
  }

  lemma DequeueStep(s0: State, s: State, capacity: nat, c: nat, asks: bool)
    requires s0.queue != [] && s0.consumer.CSawHead? && Inv(s0) && Inv(s) && |s.block| <= capacity + HEAD_LEN
    requires Dequeuing(s0, s, c) && c < |Frame(s0.queue[0])| + 3
    ensures Dequeuing(s0, ConsumerStep(s, capacity, asks), c + 1)
  {
    hide Image, Span, Advance, CutFrame, Frame, Wanted;
    var m := s0.queue[0];
    FreeIsExact(s0.block, s0.head, s0.tail, s0.queue);
    if 1 <= c < |Frame(m)| + 2 {
      var h, t, got := s.consumer.h, s.consumer.t, s.consumer.got;
      FrontFrame(s.block, s.head, s.tail, s.queue);
      WantedIsFrame(|s.block|, capacity, h, t, m, got);
      assert |got| == |Frame(m)| ==> got == Frame(m);
    } else if c == |Frame(m)| + 2 {
      CaughtWhole(m);
    }
  }

  lemma ProducerLeaves(s: State, msg: Msg)
    ensures var r := ProducerStep(s, msg);
            r.consumer == s.consumer && r.head == s.head && r.delivered == s.delivered && s.queue <= r.queue
  {
    hide Frame, Advance;
  }

  lemma DequeueTurn(s0: State, s: State, capacity: nat, c: nat, turn: Turn)
    requires s0.queue != [] && s0.consumer.CSawHead? && Inv(s0) && Inv(s) && |s.block| <= capacity + HEAD_LEN
    requires Dequeuing(s0, s, c) && (turn.Consume? ==> c < |Frame(s0.queue[0])| + 3)
    ensures Dequeuing(s0, Step(s, capacity, turn), if turn.Consume? then c + 1 else c)
  {
    hide Inv, ProducerStep, ConsumerStep, Frame;
    match turn
    case Produce(msg) => ProducerLeaves(s, msg);
    case Consume(asks) => DequeueStep(s0, s, capacity, c, asks);
  }

  lemma {:induction false} RunDequeues(block: seq<Byte>, capacity: nat, before: seq<Turn>, asks: bool,
                                       after: seq<Turn>)
    requires |block| <= capacity + HEAD_LEN && Run(Init(block), capacity, before).consumer.CSawHead?
    requires Run(Init(block), capacity, before).queue != []
    requires Turns(after, false) <= |Frame(Run(Init(block), capacity, before).queue[0])| + 3
    ensures Dequeuing(Run(Init(block), capacity, before),
              Run(Init(block), capacity, before + [Consume(asks)] + after), Turns(after, false))
    decreases |after|
  {
    hide Dequeuing, Inv, ProducerStep, ConsumerStep, Frame;
    var s0 := Run(Init(block), capacity, before);
    var begun := before + [Consume(asks)];
    RunKeeps(block, capacity, before);
    if after == [] {
      assert begun + after == begun;
      RunMore(Init(block), capacity, before, Consume(asks));
      DequeueBegins(s0, capacity, asks);
    } else {
      var init, turn := after[..|after| - 1], after[|after| - 1];
      assert init + [turn] == after && begun + after == begun + init + [turn];
      RunMore(Init(block), capacity, init, turn);
      RunMore(Init(block), capacity, begun + init, turn);
      RunDequeues(block, capacity, before, asks, init);
      RunKeeps(block, capacity, begun + init);
      DequeueTurn(s0, Run(Init(block), capacity, begun + init), capacity, Turns(init, false), turn);
    }
  }

  lemma DequeueBegins(s0: State, capacity: nat, asks: bool)
    requires Inv(s0) && s0.consumer.CSawHead? && s0.queue != []
    ensures Dequeuing(s0, ConsumerStep(s0, capacity, asks), 0)
  {
    hide Frame, Image, Span, Advance;
  }

  /** A consumer that finds nothing goes back to idle in its next turn. */
  lemma {:induction false} RunFindsNothing(block: seq<Byte>, capacity: nat, before: seq<Turn>, asks: bool,
                                           after: seq<Turn>)
    requires |block| <= capacity + HEAD_LEN && Run(Init(block), capacity, before).consumer.CSawHead?
    requires Run(Init(block), capacity, before).queue == [] && Turns(after, false) <= 1
    ensures var s0 := Run(Init(block), capacity, before);
            var s := Run(Init(block), capacity, before + [Consume(asks)] + after);
            && s.delivered == s0.delivered
            && s.consumer == if Turns(after, false) == 0 then CSawBoth(s0.tail, s0.tail) else CIdle
    decreases |after|
  {
    hide Inv, ProducerStep;
    var s0 := Run(Init(block), capacity, before);
    var begun := before + [Consume(asks)];
    RunKeeps(block, capacity, before);
    if after == [] {
      assert begun + after == begun;
      RunMore(Init(block), capacity, before, Consume(asks));
      NothingThere(s0);
    } else {
      var init, turn := after[..|after| - 1], after[|after| - 1];
      assert init + [turn] == after && begun + after == begun + init + [turn];
      RunMore(Init(block), capacity, init, turn);
      RunMore(Init(block), capacity, begun + init, turn);
      RunFindsNothing(block, capacity, before, asks, init);
      if turn.Produce? {
        ProducerLeaves(Run(Init(block), capacity, begun + init), turn.msg);
      }
    }
  }

  lemma NothingThere(s: State)
    requires Inv(s) && s.consumer.CSawHead? && s.queue == []
    ensures s.consumer.h == s.head == s.tail <= |s.block|
  {
    FreeIsExact(s.block, s.head, s.tail, s.queue);
  }

  /** A consumer that has read head and now reads tail, whatever the producer does meanwhile: its next turn sends it
      back to idle if and only if the queue was empty then; otherwise the oldest message is delivered next, by the
      time the consumer has had as many more turns as the frame has bytes, and three. */
  lemma RunDelivers(block: seq<Byte>, capacity: nat, before: seq<Turn>, asks: bool, after: seq<Turn>)
    requires |block| <= capacity + HEAD_LEN && Run(Init(block), capacity, before).consumer.CSawHead?
    ensures var s0 := Run(Init(block), capacity, before);
            var s := Run(Init(block), capacity, before + [Consume(asks)] + after);
            && (Turns(after, false) == 1 ==> (s.consumer == CIdle <==> s0.queue == []))
            && (s0.queue != [] && Turns(after, false) < |Frame(s0.queue[0])| + 3 ==> s.delivered == s0.delivered)
            && (s0.queue != [] && Turns(after, false) >= |Frame(s0.queue[0])| + 3 ==>
                  s0.delivered + [s0.queue[0]] <= s.delivered)
            && (s0.queue == [] && Turns(after, false) <= 1 ==> s.delivered == s0.delivered)
  {
    hide Inv, ProducerStep, ConsumerStep, Frame, Image, Run, Turns;
    var s0 := Run(Init(block), capacity, before);
    var begun := before + [Consume(asks)];
    if s0.queue == [] {
      if Turns(after, false) <= 1 {
        RunFindsNothing(block, capacity, before, asks, after);
      }
    } else if Turns(after, false) <= |Frame(s0.queue[0])| + 3 {
      RunDequeues(block, capacity, before, asks, after);
    } else {
      var k := SplitTurns(after, false, |Frame(s0.queue[0])| + 3);
      RunDequeues(block, capacity, before, asks, after[..k]);
      assert begun + after == begun + after[..k] + after[k..];
      RunGrows(Init(block), capacity, begun + after[..k], after[k..]);
    }
  }
}
