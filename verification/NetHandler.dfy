/** CNetHandler: one request at a time on a connection, the others waiting behind it. Socket calls and
    plugin callbacks are nondeterministic; a callback does not call back into the handler. */
module NetHandler {

  import opened Connections

  datatype ConnType = ShortConn | LongConn | LongWithPending
  datatype ProcState = Idle | Sending | Recving | IdleRecycle
  datatype Timer = NoTimer | IdleTimer | DoingTimer

  /** A request: its timeout, the length of its packet and whether a response is expected. */
  datatype Action = Action(timeout: int, len: nat, sendOnly: bool)

  /** SActionNode: an action waiting its turn since `since`. */
  datatype Waiting = Waiting(ai: nat, since: int)

  /** What recv and the plugin make of a socket that can be read: nothing yet, an error, or so many bytes in all, of
      which a response takes `pkgLen`; `full` if the buffer is. */
  datatype Input = NothingYet | Broken | Data(pkgLen: int, haveRecv: nat, full: bool)

  /** The clock during an event, and what the sockets come to in it: attempts to connect, and sends, in order. */
  datatype World = World(now: int, opens: seq<OpenOutcome>, sends: seq<IoOutcome>)

  /** What the poller and the timers may report, and a new request. */
  datatype Event =
    | Readable(w: World, got: Input)
    | Writable(w: World, failed: bool)
    | Hangup(w: World)
    | TimerFires(w: World)

  datatype Call = Request(a: Action, w: World) | Reported(e: Event)

  datatype Current = Nobody | Somebody(ai: nat)

  /** Action `id` is being worked on or waiting. */
  ghost predicate Outstanding(action: Current, pending: seq<Waiting>, id: nat)
  {
    action == Somebody(id) || exists i :: 0 <= i < |pending| && pending[i].ai == id
  }

  ghost predicate InOrder(n: nat, action: Current, pending: seq<Waiting>)
  {
    && (action.Somebody? ==> action.ai < n)
    && (forall i :: 0 <= i < |pending| ==> pending[i].ai < n && (action.Somebody? ==> action.ai < pending[i].ai))
    && (forall i, j :: 0 <= i < j < |pending| ==> pending[i].ai < pending[j].ai)
  }

  /** Of `n` accepted actions each has had one callback, or none while it is outstanding or its callback is
      `owed` by a call further up the stack. */
  ghost predicate Accounted(n: nat, action: Current, pending: seq<Waiting>, calls: seq<nat>, owed: set<nat>)
  {
    && |calls| == n && InOrder(n, action, pending)
    && (forall id :: id in owed ==> id < n && !Outstanding(action, pending, id))
    && (forall id :: 0 <= id < n ==> calls[id] == if Outstanding(action, pending, id) || id in owed then 0 else 1)
  }

  /** The current action is over; its callback is now owed. */
  lemma AccountDone(n: nat, ai: nat, pending: seq<Waiting>, calls: seq<nat>, owed: set<nat>)
    requires Accounted(n, Somebody(ai), pending, calls, owed)
    ensures Accounted(n, Nobody, pending, calls, owed + {ai}) && ai !in owed
  {
    assert Outstanding(Somebody(ai), pending, ai);
  }

  /** An owed callback is made. */
  lemma AccountPaid(n: nat, action: Current, pending: seq<Waiting>, calls: seq<nat>, owed: set<nat>, ai: nat)
    requires Accounted(n, action, pending, calls, owed + {ai}) && ai !in owed
    ensures ai < |calls| && calls[ai] == 0 && Accounted(n, action, pending, Called(calls, ai), owed)
  {
    assert ai in owed + {ai};
  }

  lemma AccountNext(n: nat, pending: seq<Waiting>, calls: seq<nat>, owed: set<nat>)
    requires Accounted(n, Nobody, pending, calls, owed) && pending != []
    ensures Accounted(n, Somebody(pending[0].ai), pending[1..], calls, owed)
  {
    var rest := pending[1..];
    assert forall i :: 0 <= i < |rest| ==> rest[i] == pending[i + 1];
    forall id | 0 <= id < n
      ensures Outstanding(Somebody(pending[0].ai), rest, id) == Outstanding(Nobody, pending, id)
    {
      if i :| 0 <= i < |pending| && pending[i].ai == id {
        assert i > 0 ==> rest[i - 1].ai == id;
      }
    }
  }

  /** The first waiting action is told it is too late. */
  lemma AccountExpired(n: nat, pending: seq<Waiting>, calls: seq<nat>, owed: set<nat>)
    requires Accounted(n, Nobody, pending, calls, owed) && pending != []
    ensures pending[0].ai < |calls| && Accounted(n, Nobody, pending[1..], Called(calls, pending[0].ai), owed)
  {
    AccountNext(n, pending, calls, owed);
    AccountDone(n, pending[0].ai, pending[1..], calls, owed);
    AccountPaid(n, Nobody, pending[1..], calls, owed, pending[0].ai);
  }

  lemma AccountQueued(n: nat, action: Current, pending: seq<Waiting>, calls: seq<nat>, since: int)
    requires Accounted(n, action, pending, calls, {})
    ensures action.Somebody? ==> Accounted(n + 1, action, pending + [Waiting(n, since)], calls + [0], {})
    ensures action.Nobody? && pending == [] ==> Accounted(n + 1, Somebody(n), pending, calls + [0], {})
  {
    var p := pending + [Waiting(n, since)];
    assert p[|pending|].ai == n;
    forall id | 0 <= id < n
      ensures Outstanding(action, p, id) == Outstanding(action, pending, id)
    {
      if i :| 0 <= i < |pending| && pending[i].ai == id {
        assert p[i].ai == id;
      }
    }
  }

  /** How the handler's fields go together between events. */
  ghost predicate Settled(connType: ConnType, action: Current, pending: seq<Waiting>,
                          connState: ConnState, procState: ProcState, timer: Timer)
  {
    && (action.Somebody? <==> procState in {Sending, Recving})
    && (action.Nobody? ==> pending == [] && connState != Connecting)
    && (connType != LongWithPending ==> pending == [])
    && (procState == Recving ==> connState == Connected)
    && (procState == Sending ==> connState != Unconnected)
    && (procState == IdleRecycle ==> timer == NoTimer)
    && (procState == Idle ==> timer == IdleTimer)
    && (action.Somebody? ==> timer == DoingTimer)
  }

  // ---- the queue ----

  /** The action has waited its whole timeout. */
  predicate TooLate(accepted: seq<Action>, now: int, w: Waiting)
  {
    w.ai < |accepted| && w.since + accepted[w.ai].timeout <= now
  }

  /** Of some that waited, those that are too late or not, in order. */
  function Sorted(accepted: seq<Action>, now: int, queue: seq<Waiting>, late: bool): seq<nat>
  {
    if queue == [] then []
    else
      var w := queue[|queue| - 1];
      Sorted(accepted, now, queue[..|queue| - 1], late) + if TooLate(accepted, now, w) == late then [w.ai] else []
  }

  lemma SortedMore(accepted: seq<Action>, now: int, queue: seq<Waiting>, w: Waiting, late: bool)
    ensures Sorted(accepted, now, queue + [w], late) ==
            Sorted(accepted, now, queue, late) + if TooLate(accepted, now, w) == late then [w.ai] else []
  {
    assert (queue + [w])[..|queue|] == queue;
  }

  lemma {:induction false} SortedBoth(accepted: seq<Action>, now: int, a: seq<Waiting>, b: seq<Waiting>, late: bool)
    ensures Sorted(accepted, now, a + b, late) == Sorted(accepted, now, a, late) + Sorted(accepted, now, b, late)
    decreases |b|
  {
    if b == [] {
      assert a + b == a;
    } else {
      hide Sorted, TooLate;
      var init, w := b[..|b| - 1], b[|b| - 1];
      SortedBoth(accepted, now, a, init, late);
      SortedMore(accepted, now, a + init, w, late);
      SortedMore(accepted, now, init, w, late);
      assert a + b == a + init + [w] && b == init + [w];
    }
  }

  /** The queue has gone on: of those that left it, exactly those too late were told so, and the others were started,
      in order. */
  ghost predicate Serves(accepted: seq<Action>, now: int, queue: seq<Waiting>, late: seq<nat>, begun: seq<nat>,
                         queue': seq<Waiting>, late': seq<nat>, begun': seq<nat>)
  {
    && |queue'| <= |queue| && queue' == queue[|queue| - |queue'|..]
    && late' == late + Sorted(accepted, now, queue[..|queue| - |queue'|], true)
    && begun' == begun + Sorted(accepted, now, queue[..|queue| - |queue'|], false)
  }

  lemma ServesNobody(accepted: seq<Action>, now: int, queue: seq<Waiting>, late: seq<nat>, begun: seq<nat>)
    ensures Serves(accepted, now, queue, late, begun, queue, late, begun)
  {
    assert queue[..0] == [] && late + [] == late && begun + [] == begun;
  }

  /** The first one leaves. */
  lemma ServesOne(accepted: seq<Action>, now: int, queue: seq<Waiting>, late: seq<nat>, begun: seq<nat>)
    requires queue != []
    ensures var w := queue[0];
            if TooLate(accepted, now, w)
              then Serves(accepted, now, queue, late, begun, queue[1..], late + [w.ai], begun)
            else Serves(accepted, now, queue, late, begun, queue[1..], late, begun + [w.ai])
  {
    assert queue[..1][..0] == [] && queue[..1][0] == queue[0];
    assert late + [] == late && begun + [] == begun;
  }

  lemma ServesTwice(accepted: seq<Action>, now: int, q: seq<Waiting>, l: seq<nat>, b: seq<nat>,
                    q1: seq<Waiting>, l1: seq<nat>, b1: seq<nat>, q2: seq<Waiting>, l2: seq<nat>, b2: seq<nat>)
    requires Serves(accepted, now, q, l, b, q1, l1, b1) && Serves(accepted, now, q1, l1, b1, q2, l2, b2)
    ensures Serves(accepted, now, q, l, b, q2, l2, b2)
  {
    hide Sorted;
    var j, k := |q| - |q1|, |q1| - |q2|;
    assert q[..j + k] == q[..j] + q1[..k];
    SortedBoth(accepted, now, q[..j], q1[..k], true);
    SortedBoth(accepted, now, q[..j], q1[..k], false);
  }

  // ---- results ----

  /** No callback is taken back, and only one not yet made can be a good one. */
  ghost predicate Results(calls: seq<nat>, done: set<nat>, calls': seq<nat>, done': set<nat>)
  {
    && More(calls, calls') && done <= done'
    && forall id :: id in done' && id !in done ==> id >= |calls| || calls[id] == 0
  }

  /** Only an action that has had its callback has ended well. */
  ghost predicate DoneTold(calls: seq<nat>, done: set<nat>)
  {
    forall id :: id in done ==> id < |calls| && calls[id] == 1
  }

  lemma DonePaid(calls: seq<nat>, done: set<nat>, ai: nat, ok: bool)
    requires DoneTold(calls, done) && ai < |calls| && calls[ai] == 0
    ensures var done' := if ok then done + {ai} else done;
            DoneTold(Called(calls, ai), done') && (ai in done' <==> ok) && Called(calls, ai)[ai] == 1
  {
  }

  lemma DoneMore(calls: seq<nat>, done: set<nat>)
    requires DoneTold(calls, done)
    ensures DoneTold(calls + [0], done)
  {
  }

  lemma ResultsAtOnce(calls: seq<nat>, done: set<nat>)
    ensures Results(calls, done, calls, done)
  {
  }

  lemma ResultsTwice(a: seq<nat>, d: set<nat>, b: seq<nat>, e: set<nat>, c: seq<nat>, f: set<nat>)
    requires Results(a, d, b, e) && Results(b, e, c, f)
    ensures Results(a, d, c, f)
  {
  }

  lemma ResultsCalled(calls: seq<nat>, done: set<nat>, id: nat, ok: bool)
    requires id < |calls| && calls[id] == 0
    ensures Results(calls, done, Called(calls, id), if ok then done + {id} else done)
  {
  }

  // ---- what becomes of the current action ----

  /** A handler at one moment. */
  datatype View = View(accepted: seq<Action>, action: Current, pending: seq<Waiting>, conn: ConnState, proc: ProcState,
                       sent: nat, calls: seq<nat>, done: set<nat>, late: seq<nat>, begun: seq<nat>)

  /** The action has had its callback, a good one or an error. */
  ghost predicate Ended(v: View, ai: nat, ok: bool)
  {
    ai < |v.calls| && v.calls[ai] == 1 && (ai in v.done <==> ok)
  }

  /** The action is still the current one, and the queue as it was. */
  ghost predicate Continues(v: View, was: Current, queue: seq<Waiting>)
  {
    v.action == was && v.pending == queue && v.conn != Unconnected
  }

  /** The socket's answer to the next send; when there is no more it takes nothing. */
  function FirstSend(sends: seq<IoOutcome>): IoOutcome
  {
    if sends == [] then WouldBlock else sends[0]
  }

  /** What a send with this answer does to the current action, of which so much had been sent. */
  ghost predicate SendEnds(v: View, ai: nat, queue: seq<Waiting>, sent: nat, r: IoOutcome)
  {
    && ai < |v.accepted| && sent <= v.accepted[ai].len
    && match r
       case WouldBlock => Continues(v, Somebody(ai), queue) && v.proc == Sending && v.sent == sent
       case Fails => Ended(v, ai, false)
       case Took(n) =>
         if sent + Clip(n, v.accepted[ai].len - sent) < v.accepted[ai].len then
           && Continues(v, Somebody(ai), queue) && v.proc == Sending
           && v.sent == sent + Clip(n, v.accepted[ai].len - sent)
         else if v.accepted[ai].sendOnly then Ended(v, ai, true)
         else Continues(v, Somebody(ai), queue) && v.proc == Recving
  }

  /** What input does to the current action: a whole response ends it well, an incomplete one leaves it waiting unless a
      datagram buffer is full, and anything else is an error. */
  ghost predicate RecvEnds(v: View, isTcp: bool, ai: nat, queue: seq<Waiting>, got: Input)
  {
    match got
    case NothingYet => Continues(v, Somebody(ai), queue) && v.proc == Recving
    case Broken => Ended(v, ai, false)
    case Data(pkgLen, haveRecv, full) =>
      if 0 < pkgLen <= haveRecv then Ended(v, ai, true)
      else if pkgLen == 0 && !(full && !isTcp) then Continues(v, Somebody(ai), queue) && v.proc == Recving
      else Ended(v, ai, false)
  }

  /** What an event does. */
  ghost predicate Reacts(v: View, e: Event, isTcp: bool, v': View)
  {
    && v'.accepted == v.accepted && Results(v.calls, v.done, v'.calls, v'.done)
    && Serves(v.accepted, e.w.now, v.pending, v.late, v.begun, v'.pending, v'.late, v'.begun)
    && (v.action.Nobody? && v.pending == [] ==> v'.action.Nobody? && v'.pending == [])
    && match e
       case Readable(_, got) =>
         v.action.Somebody? ==>
           if v.proc != Recving then Ended(v', v.action.ai, false) else RecvEnds(v', isTcp, v.action.ai, v.pending, got)
       case Writable(w, failed) =>
         v.action.Somebody? ==>
           if v.conn == Unconnected || (v.conn == Connecting && failed) || v.proc != Sending
           then Ended(v', v.action.ai, false)
           else SendEnds(v', v.action.ai, v.pending, v.sent, FirstSend(w.sends))
       case Hangup(_) => v.action.Somebody? ==> Ended(v', v.action.ai, false)
       case TimerFires(_) =>
         if v.action.Somebody? then Ended(v', v.action.ai, false) else v.pending == [] ==> v'.proc == IdleRecycle
  }

  /** What a request does. */
  ghost predicate Submits(v: View, a: Action, w: World, isTcp: bool, connType: ConnType, v': View)
  {
    if v.action.Somebody? && connType != LongWithPending then v' == v
    else
      var n := |v.accepted|;
      && v'.accepted == v.accepted + [a] && Results(v.calls, v.done, v'.calls, v'.done) && v'.late == v.late
      && if v.action.Somebody? then
           && v'.action == v.action && v'.pending == v.pending + [Waiting(n, w.now)] && v'.begun == v.begun
           && v'.conn == v.conn && v'.proc == v.proc && v'.sent == v.sent
         else
           && v'.pending == [] && v'.begun == v.begun + [n]
           && if v.conn == Unconnected then
                if Opens(First(w.opens), isTcp) then Continues(v', Somebody(n), []) && v'.proc == Sending
                else Ended(v', n, false)
              else SendEnds(v', n, [], 0, FirstSend(w.sends))
  }

  lemma TurnedAway(v: View, a: Action, w: World, isTcp: bool, connType: ConnType)
    requires v.action.Somebody? && connType != LongWithPending
    ensures Submits(v, a, w, isTcp, connType, v)
  {
  }

  lemma ResultsMore(calls: seq<nat>, done: set<nat>)
    ensures Results(calls, done, calls + [0], done)
  {
  }

  lemma ServesEmpty(accepted: seq<Action>, now: int, late: seq<nat>, begun: seq<nat>, queue': seq<Waiting>,
                    late': seq<nat>, begun': seq<nat>)
    requires Serves(accepted, now, [], late, begun, queue', late', begun')
    ensures queue' == [] && late' == late && begun' == begun
  {
  }

  lemma FirstKnown(n: nat, action: Current, pending: seq<Waiting>, calls: seq<nat>, owed: set<nat>)
    requires Accounted(n, action, pending, calls, owed)
    ensures pending != [] ==> pending[0].ai < n
  {
  }

  /** The first waiting action has had no callback. */
  lemma FirstOwed(n: nat, pending: seq<Waiting>, calls: seq<nat>, owed: set<nat>)
    requires Accounted(n, Nobody, pending, calls, owed) && pending != []
    ensures pending[0].ai < |calls| && calls[pending[0].ai] == 0
  {
    assert Outstanding(Nobody, pending, pending[0].ai);
  }

  class CNetHandler {
    /** Destination address, port and protocol. */
    const key: string
    const connType: ConnType
    const isTcp: bool
    var action: Current
    var pending: seq<Waiting>
    var connState: ConnState
    var procState: ProcState
    var timer: Timer
    var haveSent: nat

    /** The clock, and what the sockets will come to in this event. */
    var now: int
    var opens: seq<OpenOutcome>
    var sends: seq<IoOutcome>

    /** The actions handed in so far; an action is known by its place here. */
    var accepted: seq<Action>
    /** How often HandleProcess, HandleError or HandleSendFinished has been called for each. */
    ghost var calls: seq<nat>
    /** Those that ended well, those told that they waited too long, and those that were started, in order. */
    ghost var done: set<nat>
    ghost var late: seq<nat>
    ghost var begun: seq<nat>
    /** Not yet given a request. */
    var isNew: bool

    ghost predicate Books(owed: set<nat>)
      reads this
    {
      && Accounted(|accepted|, action, pending, calls, owed)
      && (connType != LongWithPending ==> pending == [])
      && (action.Somebody? && procState == Sending ==> haveSent <= accepted[action.ai].len)
      && (action.Somebody? ==> begun != [] && begun[|begun| - 1] == action.ai)
      && DoneTold(calls, done)
    }

    ghost predicate Good(owed: set<nat>)
      reads this
    {
      && Books(owed)
      && (if isNew
          then action == Nobody && pending == [] && connState == Unconnected && procState == Idle && timer == NoTimer
          else Settled(connType, action, pending, connState, procState, timer))
    }

    ghost predicate Valid()
      reads this
    {
      Good({})
    }

    /** Nothing is being worked on and nothing waits. */
    ghost predicate NoWork()
      reads this
    {
      action == Nobody && pending == []
    }

    /** The action has had its callback. */
    ghost predicate Told(ai: nat)
      reads this
    {
      ai < |calls| && calls[ai] == 1
    }

    /** What every step keeps: the actions, the clock, the results and the order of the queue. */
    twostate predicate Goes()
      reads this
    {
      && accepted == old(accepted) && !isNew && now == old(now)
      && Results(old(calls), old(done), calls, done)
      && Serves(accepted, now, old(pending), old(late), old(begun), pending, late, begun)
    }

    constructor (key: string, connType: ConnType, isTcp: bool)
      ensures Valid() && NoWork() && accepted == [] && this.key == key && this.connType == connType
    {
      this.key := key;
      this.connType := connType;
      this.isTcp := isTcp;
      action, pending, connState, procState, timer, haveSent := Nobody, [], Unconnected, Idle, NoTimer, 0;
      accepted, calls, isNew := [], [], true;
      now, opens, sends := 0, [], [];
      done, late, begun := {}, [], [];
    }

    /** The plugin is told how action `ai` ended. */
    method Tell(ai: nat, ok: bool)
      requires ai < |calls|
      modifies this`calls, this`done
      ensures calls == Called(old(calls), ai) && done == if ok then old(done) + {ai} else old(done)
    {
      calls := Called(calls, ai);
      done := if ok then done + {ai} else done;
    }

    method Close()
      modifies this`timer, this`connState, this`procState
      ensures timer == NoTimer && connState == Unconnected && procState == Idle
    {
      timer := NoTimer;
      connState := Unconnected;
      procState := Idle;
    }

    method EnableIdleTimer()
      modifies this`timer
      ensures timer == IdleTimer
    {
      timer := IdleTimer;
    }

    /** The next waiting action that is not too late yet, if any, is started: exactly the late ones in front of it are
        told so. */
    method TryNextAction(ghost owed: set<nat>)
      requires Books(owed) && action == Nobody && procState == Idle && timer == IdleTimer && connState != Connecting
      requires !isNew
      modifies this
      ensures Good(owed) && Goes()
      ensures connType != LongWithPending || old(pending) == [] ==> action == Nobody
      decreases |pending|, 0
    {
      hide Accounted, Results, Serves;
      ServesNobody(accepted, now, pending, late, begun);
      ResultsAtOnce(calls, done);
      if connType == ShortConn || connType == LongConn {
        return;
      }
      FirstKnown(|accepted|, action, pending, calls, owed);
      while pending != [] && pending[0].since + accepted[pending[0].ai].timeout <= now
        invariant pending != [] ==> pending[0].ai < |accepted|
        invariant Books(owed) && action == Nobody && procState == Idle && timer == IdleTimer
        invariant connState != Connecting && Goes() && |pending| <= |old(pending)|
        decreases |pending|
      {
        DropLate(owed, old(pending), old(late), old(begun), old(calls), old(done));
        FirstKnown(|accepted|, action, pending, calls, owed);
      }
      if pending == [] {
        return;
      }
      TakeUp(owed, old(pending), old(late), old(begun));
      ghost var q1, l1, b1, c1, d1 := pending, late, begun, calls, done;
      var _ := StartActionProcess(owed);
      ServesTwice(accepted, now, old(pending), old(late), old(begun), q1, l1, b1, pending, late, begun);
      ResultsTwice(old(calls), old(done), c1, d1, calls, done);
    }

    /** The first waiting action is too late. */
    method DropLate(ghost owed: set<nat>, ghost q: seq<Waiting>, ghost l: seq<nat>, ghost b: seq<nat>,
                    ghost c: seq<nat>, ghost d: set<nat>)
      requires Books(owed) && action == Nobody && pending != [] && TooLate(accepted, now, pending[0])
      requires Serves(accepted, now, q, l, b, pending, late, begun) && Results(c, d, calls, done)
      modifies this`pending, this`calls, this`done, this`late
      ensures Books(owed) && pending == old(pending)[1..]
      ensures Serves(accepted, now, q, l, b, pending, late, begun) && Results(c, d, calls, done)
    {
      hide Serves, Results, DoneTold, Called;
      var ai := pending[0].ai;
      AccountExpired(|accepted|, pending, calls, owed);
      FirstOwed(|accepted|, pending, calls, owed);
      ServesOne(accepted, now, pending, late, begun);
      ServesTwice(accepted, now, q, l, b, pending, late, begun, pending[1..], late + [ai], begun);
      ResultsCalled(calls, done, ai, false);
      DonePaid(calls, done, ai, false);
      ResultsTwice(c, d, calls, done, Called(calls, ai), done);
      Tell(ai, false);
      late := late + [ai];
      pending := pending[1..];
    }

    /** The first waiting action becomes the current one. */
    method TakeUp(ghost owed: set<nat>, ghost q: seq<Waiting>, ghost l: seq<nat>, ghost b: seq<nat>)
      requires Books(owed) && action == Nobody && procState == Idle && pending != []
      requires !TooLate(accepted, now, pending[0]) && Serves(accepted, now, q, l, b, pending, late, begun)
      modifies this`pending, this`action, this`begun
      ensures Books(owed) && action == Somebody(old(pending)[0].ai) && pending == old(pending)[1..]
      ensures Serves(accepted, now, q, l, b, pending, late, begun)
    {
      hide Serves;
      AccountNext(|accepted|, pending, calls, owed);
      ServesOne(accepted, now, pending, late, begun);
      ServesTwice(accepted, now, q, l, b, pending, late, begun, pending[1..], late, begun + [pending[0].ai]);
      begun := begun + [pending[0].ai];
      action := Somebody(pending[0].ai);
      pending := pending[1..];
    }

    method StartActionProcess(ghost owed: set<nat>) returns (ret: int)
      requires Books(owed) && action.Somebody? && connState != Connecting
      modifies this
      ensures Good(owed) && accepted == old(accepted) && !isNew && now == old(now)
      ensures Results(old(calls), old(done), calls, done)
      ensures Serves(accepted, now, old(pending), old(late), old(begun), pending, late, begun)
      ensures connType != LongWithPending ==> action == Nobody || action == old(action)
      ensures old(connState) == Unconnected ==>
                if Opens(First(old(opens)), isTcp) then Continues(Now(), old(action), old(pending))
                  && procState == Sending
                else Ended(Now(), old(action).ai, false)
      ensures old(connState) == Connected ==> SendEnds(Now(), old(action).ai, old(pending), 0, FirstSend(old(sends)))
      decreases |pending|, 4
    {
      hide Results, Serves, Ended, Continues, SendEnds;
      isNew := false;
      procState := Sending;
      haveSent := 0;
      timer := DoingTimer;
      if connState == Unconnected {
        ret := Open(owed);
      } else {
        ret := DoSend(owed);
      }
    }

    method Open(ghost owed: set<nat>) returns (ret: int)
      requires Books(owed) && action.Somebody? && connState == Unconnected
      requires procState == Sending && timer == DoingTimer && !isNew
      modifies this
      ensures Good(owed) && Goes()
      ensures connType != LongWithPending ==> action == Nobody || action == old(action)
      ensures ret == 0 <==> Opens(First(old(opens)), isTcp)
      ensures if ret == 0 then Continues(Now(), old(action), old(pending)) && procState == Sending
              else Ended(Now(), old(action).ai, false)
      decreases |pending|, 3
    {
      hide Accounted, Results, Serves;
      ServesNobody(accepted, now, pending, late, begun);
      ResultsAtOnce(calls, done);
      var outcome := First(opens);
      opens := Later(opens);
      match outcome {
        case NoSocket =>
          DoErrorFinished(owed);
          return -1;
        case NoPollerSlot =>
          DoErrorFinished(owed);
          return -1;
        case ConnectFails =>
          if isTcp {
            DoErrorFinished(owed);
            return -1;
          }
          connState := Connected;
        case ConnectPending =>
          connState := if isTcp then Connecting else Connected;
        case ConnectsAtOnce =>
          connState := Connected;
      }
      return 0;
    }

    method DoSend(ghost owed: set<nat>) returns (ret: int)
      requires Books(owed) && action.Somebody? && connState == Connected
      requires procState == Sending && timer == DoingTimer && !isNew
      modifies this
      ensures Good(owed) && Goes()
      ensures connType != LongWithPending ==> action == Nobody || action == old(action)
      ensures SendEnds(Now(), old(action).ai, old(pending), old(haveSent), FirstSend(old(sends)))
      ensures ret != 0 <==> FirstSend(old(sends)).Fails?
      decreases |pending|, 3
    {
      hide Results, Serves;
      ServesNobody(accepted, now, pending, late, begun);
      ResultsAtOnce(calls, done);
      var total := accepted[action.ai].len;
      var r := FirstSend(sends);
      sends := Later(sends);
      match r {
        case WouldBlock =>
          return 0;
        case Fails =>
          DoErrorFinished(owed);
          return -1;
        case Took(n) =>
          haveSent := haveSent + Clip(n, total - haveSent);
          if total == haveSent {
            DoSendFinished(owed);
          }
          return 0;
      }
    }

    method DoSendFinished(ghost owed: set<nat>)
      requires Books(owed) && action.Somebody? && connState == Connected
      requires procState == Sending && timer == DoingTimer && !isNew
      modifies this
      ensures Good(owed) && Goes()
      ensures connType != LongWithPending ==> action == Nobody || action == old(action)
      ensures if accepted[old(action).ai].sendOnly then Ended(Now(), old(action).ai, true)
              else Continues(Now(), old(action), old(pending)) && procState == Recving
      decreases |pending|, 2
    {
      hide Results, Serves;
      ServesNobody(accepted, now, pending, late, begun);
      ResultsAtOnce(calls, done);
      haveSent := 0;
      if accepted[action.ai].sendOnly {
        Finish(owed, connType == ShortConn, true);
      } else {
        procState := Recving;
      }
    }

    /** The current action is over: the handler is free, takes up the next action, and only then tells the
        plugin about this one. */
    method Finish(ghost owed: set<nat>, closes: bool, ok: bool)
      requires Books(owed) && action.Somebody? && !isNew
      requires connState == Connecting ==> closes
      modifies this
      ensures Good(owed) && Goes()
      ensures connType != LongWithPending || old(pending) == [] ==> action == Nobody
      ensures Ended(Now(), old(action).ai, ok)
      decreases |pending|, 1
    {
      hide Accounted, Results, Serves, DoneTold, Called;
      var ai := action.ai;
      AccountDone(|accepted|, ai, pending, calls, owed);
      procState := Idle;
      action := Nobody;
      if closes {
        Close();
      }
      EnableIdleTimer();
      TryNextAction(owed + {ai});
      ghost var c1, d1 := calls, done;
      AccountPaid(|accepted|, action, pending, calls, owed, ai);
      ResultsCalled(calls, done, ai, ok);
      DonePaid(calls, done, ai, ok);
      ResultsTwice(old(calls), old(done), c1, d1, Called(c1, ai), if ok then d1 + {ai} else d1);
      Tell(ai, ok);
    }

    method DoErrorFinished(ghost owed: set<nat>)
      requires Books(owed) && !isNew
      modifies this
      ensures Good(owed) && Goes()
      ensures connType != LongWithPending || old(pending) == [] ==> action == Nobody
      ensures old(action).Somebody? ==> Ended(Now(), old(action).ai, false)
      decreases |pending|, 2
    {
      hide Accounted, Results, Serves;
      if action == Nobody {
        Close();
        EnableIdleTimer();
        TryNextAction(owed);
        return;
      }
      Finish(owed, true, false);
    }

    /** What the sockets and the clock come to from here on. */
    method Face(w: World)
      requires Valid()
      modifies this`now, this`opens, this`sends
      ensures Valid() && now == w.now && opens == w.opens && sends == w.sends
    {
      now, opens, sends := w.now, w.opens, w.sends;
    }

    /** A new request: started at once, queued behind the current one, or turned away when the handler is busy
        and does not queue. */
    method HandleRequest(a: Action, w: World) returns (ret: int)
      requires Valid()
      modifies this
      ensures Valid()
      ensures old(action).Somebody? && connType != LongWithPending ==> ret == -1 && Now() == old(Now())
      ensures old(action).Nobody? || connType == LongWithPending ==> accepted == old(accepted) + [a]
      ensures More(old(calls), calls) && Submits(old(Now()), a, w, isTcp, connType, Now())
    {
      hide Accounted, Submits;
      Face(w);
      assert World(now, opens, sends) == w;
      if action.Somebody? && (connType == ShortConn || connType == LongConn) {
        TurnedAway(Now(), a, w, isTcp, connType);
        return -1;
      }
      if action.Nobody? {
        ret := StartNew(a);
      } else {
        Wait(a);
        ret := 0;
      }
    }

    /** Nobody is being worked on: the action is started. */
    method StartNew(a: Action) returns (ret: int)
      requires Valid() && action.Nobody?
      modifies this
      ensures Valid() && accepted == old(accepted) + [a] && More(old(calls), calls)
      ensures Submits(old(Now()), a, World(old(now), old(opens), old(sends)), isTcp, connType, Now())
    {
      hide Accounted, Serves, DoneTold, SendEnds, Continues, Ended;
      var ai := |accepted|;
      AccountQueued(|accepted|, action, pending, calls, now);
      ResultsMore(calls, done);
      DoneMore(calls, done);
      accepted := accepted + [a];
      calls := calls + [0];
      action := Somebody(ai);
      begun := begun + [ai];
      ghost var c1, l1, b1 := calls, late, begun;
      ret := StartActionProcess({});
      ResultsTwice(old(calls), old(done), c1, old(done), calls, done);
      ServesEmpty(accepted, now, l1, b1, pending, late, begun);
    }

    /** Another action is being worked on. */
    method Wait(a: Action)
      requires Valid() && action.Somebody? && connType == LongWithPending
      modifies this
      ensures Valid() && accepted == old(accepted) + [a] && More(old(calls), calls)
      ensures Submits(old(Now()), a, World(old(now), old(opens), old(sends)), isTcp, connType, Now())
    {
      hide DoneTold;
      AccountQueued(|accepted|, action, pending, calls, now);
      ResultsMore(calls, done);
      DoneMore(calls, done);
      pending := pending + [Waiting(|accepted|, now)];
      accepted := accepted + [a];
      calls := calls + [0];
    }

    ghost function Now(): View
      reads this
    {
      View(accepted, action, pending, connState, procState, haveSent, calls, done, late, begun)
    }

    /** Too late for the current action, or idle long enough to be recycled. The recycling state is entered with
        no timer armed, so no timer ever finds it there. */
    method TimerNotify()
      requires Valid() && !isNew
      modifies this
      ensures Valid() && Goes()
      ensures old(NoWork()) ==> NoWork() && CanRecycle()
      ensures old(action).Somebody? ==> Ended(Now(), old(action).ai, false)
    {
      hide Accounted, Results, Serves;
      ServesNobody(accepted, now, pending, late, begun);
      ResultsAtOnce(calls, done);
      if procState == IdleRecycle {
        return;
      }
      if procState != Idle {
        DoErrorFinished({});
      } else {
        timer := NoTimer;
        procState := IdleRecycle;
      }
    }

    method HangupNotify()
      requires Valid() && !isNew
      modifies this
      ensures Valid() && Goes()
      ensures old(NoWork()) ==> NoWork()
      ensures old(action).Somebody? ==> Ended(Now(), old(action).ai, false)
    {
      hide Accounted, Results, Serves;
      DoErrorFinished({});
    }

    method InputNotify(got: Input) returns (ret: int)
      requires Valid() && !isNew
      modifies this
      ensures Valid() && Goes()
      ensures old(NoWork()) ==> NoWork()
      ensures old(action).Somebody? && old(procState) != Recving ==> Ended(Now(), old(action).ai, false)
      ensures old(procState) == Recving ==> RecvEnds(Now(), isTcp, old(action).ai, old(pending), got)
    {
      hide Accounted, Results, Serves;
      if connState == Unconnected {
        DoErrorFinished({});
        return -1;
      }
      if procState == Idle {
        Close();
        EnableIdleTimer();
        TryNextAction({});
        return 0;
      }
      if procState != Recving {
        DoErrorFinished({});
        return 0;
      }
      ret := DoRecv(got);
    }

    method DoRecv(got: Input) returns (ret: int)
      requires Valid() && !isNew && procState == Recving
      modifies this
      ensures Valid() && Goes()
      ensures old(action).Somebody? && RecvEnds(Now(), isTcp, old(action).ai, old(pending), got)
    {
      hide Accounted, Results, Serves;
      ServesNobody(accepted, now, pending, late, begun);
      ResultsAtOnce(calls, done);
      match got {
        case NothingYet =>
          return 0;
        case Broken =>
          DoErrorFinished({});
          return -1;
        case Data(pkgLen, haveRecv, full) =>
          if 0 <= pkgLen <= haveRecv {
            if pkgLen > 0 {
              haveSent := 0;
              Finish({}, connType == ShortConn, true);
            } else if full && !isTcp {
              DoErrorFinished({});
            }
            return 0;
          }
          DoErrorFinished({});
          return -1;
      }
    }

    method OutputNotify(failed: bool) returns (ret: int)
      requires Valid() && !isNew
      modifies this
      ensures Valid() && Goes()
      ensures old(NoWork()) ==> NoWork()
      ensures old(action).Somebody? ==>
                if old(connState) == Unconnected || (old(connState) == Connecting && failed)
                  || old(procState) != Sending
                then Ended(Now(), old(action).ai, false)
                else SendEnds(Now(), old(action).ai, old(pending), old(haveSent), FirstSend(old(sends)))
    {
      hide Accounted, Results, Serves;
      if connState == Unconnected {
        DoErrorFinished({});
        return -1;
      }
      if connState == Connecting {
        if failed {
          DoErrorFinished({});
          return -1;
        }
        connState := Connected;
      }
      if procState != Sending {
        DoErrorFinished({});
        return 0;
      }
      ret := DoSend({});
    }

    method Notify(e: Event)
      requires Valid() && !isNew
      modifies this
      ensures Valid() && accepted == old(accepted) && More(old(calls), calls)
      ensures old(NoWork()) ==> NoWork()
      ensures (e.Hangup? || e.TimerFires?) && old(action).Somebody? ==> Ended(Now(), old(action).ai, false)
      ensures e.TimerFires? && old(NoWork()) ==> CanRecycle()
      ensures Reacts(old(Now()), e, isTcp, Now())
    {
      hide Good, Serves;
      Face(e.w);
      match e {
        case Readable(_, got) => var _ := InputNotify(got);
        case Writable(_, failed) => var _ := OutputNotify(failed);
        case Hangup(_) => HangupNotify();
        case TimerFires(_) => TimerNotify();
      }
    }

    predicate CanRecycle()
      reads this
    {
      procState == IdleRecycle
    }

    /** Only a handler without work may be recycled, so its destructor finds nothing to leak. */
    method Recycle()
      requires Valid() && CanRecycle()
      modifies this
      ensures NoWork() && connState == Unconnected && timer == NoTimer
      ensures accepted == old(accepted) && calls == old(calls)
      ensures forall id :: 0 <= id < |calls| ==> calls[id] == 1
    {
      Close();
    }
  }

  /** The actions that were taken on. */
  function Taken(requests: seq<Call>, oks: seq<bool>): seq<Action>
    requires |requests| == |oks|
  {
    if requests == [] then []
    else
      var n := |requests| - 1;
      Taken(requests[..n], oks[..n]) + if requests[n].Request? && oks[n] then [requests[n].a] else []
  }

  /** One call does what it should. A report about a handler that has had no request is passed over. */
  ghost predicate Stepped(isTcp: bool, connType: ConnType, v: View, c: Call, ok: bool, v': View)
  {
    match c
    case Request(a, w) =>
      (ok <==> v.action.Nobody? || connType == LongWithPending) && Submits(v, a, w, isTcp, connType, v')
    case Reported(e) => if ok then Reacts(v, e, isTcp, v') else v' == v
  }

  ghost predicate Steps(isTcp: bool, connType: ConnType, trace: seq<View>, calls: seq<Call>, oks: seq<bool>)
  {
    |trace| == |oks| + 1 && |oks| <= |calls| &&
    forall k :: 0 <= k < |oks| ==> StepAt(isTcp, connType, trace, calls, oks, k)
  }

  ghost predicate StepAt(isTcp: bool, connType: ConnType, trace: seq<View>, calls: seq<Call>, oks: seq<bool>, k: nat)
  {
    k < |calls| && k < |oks| && k + 1 < |trace| && Stepped(isTcp, connType, trace[k], calls[k], oks[k], trace[k + 1])
  }

  lemma StepsMore(isTcp: bool, connType: ConnType, trace: seq<View>, calls: seq<Call>, oks: seq<bool>, ok: bool,
      v: View)
    requires Steps(isTcp, connType, trace, calls, oks) && |oks| < |calls|
    requires Stepped(isTcp, connType, trace[|oks|], calls[|oks|], ok, v)
    ensures Steps(isTcp, connType, trace + [v], calls, oks + [ok])
  {
    hide Stepped;
    forall k | 0 <= k < |oks| + 1
      ensures StepAt(isTcp, connType, trace + [v], calls, oks + [ok], k)
    {
      if k < |oks| {
        assert StepAt(isTcp, connType, trace, calls, oks, k);
      }
    }
  }

  lemma TakenMore(requests: seq<Call>, oks: seq<bool>, k: nat, ok: bool)
    requires |oks| == k < |requests|
    ensures Taken(requests[..k + 1], oks + [ok]) ==
            Taken(requests[..k], oks) + if requests[k].Request? && ok then [requests[k].a] else []
  {
    assert requests[..k + 1][..k] == requests[..k] && (oks + [ok])[..k] == oks;
  }

  /** One call. */
  method Handle(h: CNetHandler, c: Call) returns (ok: bool)
    requires h.Valid()
    modifies h
    ensures h.Valid() && h.accepted == old(h.accepted) + if c.Request? && ok then [c.a] else []
    ensures Stepped(h.isTcp, h.connType, old(h.Now()), c, ok, h.Now()) && More(old(h.calls), h.calls)
    ensures h.connType == LongWithPending && c.Request? ==> ok
  {
    hide CNetHandler.Good, Reacts, Submits;
    match c {
      case Request(a, w) =>
        ok := h.action.Nobody? || h.connType == LongWithPending;
        var _ := h.HandleRequest(a, w);
      case Reported(e) =>
        ok := !h.isNew;
        if ok {
          h.Notify(e);
        }
    }
  }

  /** Any run of requests, socket events and timers on one handler, with the states it goes through: each has its
      effect, the actions accepted are the requests taken on, in order, a handler that queues takes on all of them,
      and no callback is taken back. */
  method Serve(h: CNetHandler, requests: seq<Call>) returns (oks: seq<bool>, ghost trace: seq<View>)
    requires h.Valid()
    modifies h
    ensures h.Valid() && |oks| == |requests| && h.accepted == old(h.accepted) + Taken(requests, oks)
    ensures h.connType == LongWithPending ==> forall k :: 0 <= k < |requests| && requests[k].Request? ==> oks[k]
    ensures More(old(h.calls), h.calls)
    ensures Steps(h.isTcp, h.connType, trace, requests, oks) && trace[0] == old(h.Now()) && trace[|requests|] == h.Now()
  {
    hide CNetHandler.Good, Stepped, Steps, Taken, More;
    oks, trace := [], [h.Now()];
    StepsNone(h.isTcp, h.connType, h.Now(), requests);
    MoreAtOnce(h.calls);
    for k := 0 to |requests|
      invariant h.Valid() && |oks| == k && h.accepted == old(h.accepted) + Taken(requests[..k], oks)
      invariant h.connType == LongWithPending ==> forall j :: 0 <= j < k && requests[j].Request? ==> oks[j]
      invariant More(old(h.calls), h.calls)
      invariant |trace| == k + 1 && Steps(h.isTcp, h.connType, trace, requests, oks)
      invariant trace[0] == old(h.Now()) && trace[k] == h.Now()
    {
      ghost var calls0 := h.calls;
      var ok := Handle(h, requests[k]);
      MoreTwice(old(h.calls), calls0, h.calls);
      TakenMore(requests, oks, k, ok);
      StepsMore(h.isTcp, h.connType, trace, requests, oks, ok, h.Now());
      oks, trace := oks + [ok], trace + [h.Now()];
    }
    assert requests[..|requests|] == requests;
  }

  lemma StepsNone(isTcp: bool, connType: ConnType, v: View, calls: seq<Call>)
    ensures Steps(isTcp, connType, [v], calls, []) && Taken(calls[..0], []) == []
  {
  }

  /** What a handler promises between calls: it has a current action exactly while sending or receiving, nothing waits
      behind nobody, every accepted action has had its one callback unless it is the current one or waits, and a
      handler that may be recycled has no work. */
  lemma ValidMeans(h: CNetHandler)
    requires h.Valid()
    ensures h.action.Somebody? <==> h.procState in {Sending, Recving}
    ensures h.action.Nobody? ==> h.pending == []
    ensures |h.calls| == |h.accepted|
    ensures forall id :: 0 <= id < |h.calls| ==> h.calls[id] == if Outstanding(h.action, h.pending, id) then 0 else 1
    ensures forall i, j :: 0 <= i < j < |h.pending| ==> h.pending[i].ai < h.pending[j].ai
    ensures h.CanRecycle() ==> h.NoWork() && forall id :: 0 <= id < |h.calls| ==> h.calls[id] == 1
  {
  }
}
