/** CParallelNetHandler: many requests multiplexed on one connection. Socket calls and plugin callbacks
    are nondeterministic; a callback does not call back into the handler. */
module ParallelNetHandler {
  import opened Bytes
  import opened Connections
  import opened ParallelLists

  datatype RecvOutcome = Bytes(data: seq<Byte>) | NothingYet | PeerClosed | RecvFails

  /** A connection that has ended: what was written on it, and for which actions. */
  datatype Ended = Ended(wire: seq<Byte>, ids: seq<nat>)

  ghost predicate AllWhole(accepted: seq<Action>, ended: seq<Ended>)
  {
    forall i :: 0 <= i < |ended| ==> WholePackets(accepted, ended[i].wire, ended[i].ids)
  }

  /** Every action of the connections that have ended is below this. */
  function Bound(ended: seq<Ended>): nat
  {
    if ended == [] then 0
    else
      var e := ended[|ended| - 1];
      if e.ids == [] then Bound(ended[..|ended| - 1]) else e.ids[|e.ids| - 1] + 1
  }

  ghost predicate AllFrom(ids: seq<nat>, n: nat)
  {
    forall i :: 0 <= i < |ids| ==> n <= ids[i]
  }

  /** Each connection that has ended has only later actions than those before it. */
  ghost predicate Rising(ended: seq<Ended>)
  {
    ended == [] || (AllFrom(ended[|ended| - 1].ids, Bound(ended[..|ended| - 1])) && Rising(ended[..|ended| - 1]))
  }

  /** The actions come in the order of submission over all connections, none of them twice. */
  ghost predicate Once(ended: seq<Ended>, ids: seq<nat>, sending: seq<SendElem>)
  {
    Rising(ended) && AllFrom(ids, Bound(ended)) && forall j :: 0 <= j < |sending| ==> Bound(ended) <= sending[j].ai
  }

  lemma OnceSent(ended: seq<Ended>, ids: seq<nat>, sending: seq<SendElem>)
    requires Once(ended, ids, sending) && sending != []
    ensures Once(ended, ids + [sending[0].ai], sending[1..])
  {
    hide Bound, Rising;
  }

  lemma OnceCut(ended: seq<Ended>, ids: seq<nat>, sending: seq<SendElem>, k: nat)
    requires Once(ended, ids, sending) && k < |sending|
    ensures Once(ended, ids, sending[..k] + sending[k + 1..])
  {
    hide Bound, Rising;
  }

  lemma OnceFront(ended: seq<Ended>, ids: seq<nat>, sending: seq<SendElem>, e: SendElem)
    requires Once(ended, ids, sending) && sending != [] && e.ai == sending[0].ai
    ensures Once(ended, ids, sending[0 := e])
  {
    hide Bound, Rising;
  }

  lemma OnceQueued(accepted: seq<Action>, ended: seq<Ended>, ids: seq<nat>, sending: seq<SendElem>, e: SendElem)
    requires Once(ended, ids, sending) && AllWhole(accepted, ended) && e.ai == |accepted|
    ensures Once(ended, ids, sending + [e])
  {
    hide Bound, Rising;
    BoundKnown(accepted, ended);
  }

  lemma {:induction false} BoundKnown(accepted: seq<Action>, ended: seq<Ended>)
    requires AllWhole(accepted, ended)
    ensures Bound(ended) <= |accepted|
  {
    if ended != [] {
      var n := |ended| - 1;
      assert WholePackets(accepted, ended[n].wire, ended[n].ids);
      BoundKnown(accepted, ended[..n]);
    }
  }

  lemma FramedKnows(accepted: seq<Action>, sending: seq<SendElem>, pending: seq<Byte>,
                    connected: bool, wire: seq<Byte>, ids: seq<nat>)
    requires Framed(accepted, sending, pending, connected, wire, ids)
    ensures forall i :: 1 <= i < |sending| ==> sending[i].live
  {
  }

  /** The connection ends: its actions, the front one included, join those of the past. */
  lemma OnceClosed(ended: seq<Ended>, ids: seq<nat>, sending: seq<SendElem>, wire: seq<Byte>)
    requires Once(ended, ids, sending) && SendOrder(ids, sending)
    ensures Once(ended + [Ended(wire, OnWire(ids, sending))], [], Rest(sending))
  {
    var more := ended + [Ended(wire, OnWire(ids, sending))];
    assert more[..|ended|] == ended;
    assert forall j :: 0 <= j < |Rest(sending)| ==> Rest(sending)[j] == sending[j + 1];
  }

  lemma {:induction false} BoundGrows(accepted: seq<Action>, ended: seq<Ended>, i: nat)
    requires AllWhole(accepted, ended) && Rising(ended) && i <= |ended|
    ensures Bound(ended[..i]) <= Bound(ended)
    decreases |ended|
  {
    var n := |ended| - 1;
    if i < |ended| {
      BoundGrows(accepted, ended[..n], i);
      assert ended[..n][..i] == ended[..i];
    } else {
      assert ended[..i] == ended;
    }
  }

  lemma {:induction false} BelowBound(accepted: seq<Action>, ended: seq<Ended>, i: nat, x: nat)
    requires AllWhole(accepted, ended) && Rising(ended) && i < |ended| && x in ended[i].ids
    ensures x < Bound(ended)
  {
    assert WholePackets(accepted, ended[i].wire, ended[i].ids);
    assert ended[..i + 1][..i] == ended[..i];
    BoundGrows(accepted, ended, i + 1);
  }

  lemma {:induction false} FromBound(ended: seq<Ended>, j: nat, y: nat)
    requires Rising(ended) && j < |ended| && y in ended[j].ids
    ensures Bound(ended[..j]) <= y && Rising(ended[..j])
    decreases |ended|
  {
    var n := |ended| - 1;
    if j < n {
      FromBound(ended[..n], j, y);
      assert ended[..n][..j] == ended[..j];
    }
  }

  /** No action is on two connections, and later connections have later actions. */
  lemma OnceMeans(accepted: seq<Action>, ended: seq<Ended>, ids: seq<nat>, sending: seq<SendElem>)
    requires AllWhole(accepted, ended) && Once(ended, ids, sending)
    ensures forall i, j, x, y :: 0 <= i < j < |ended| && x in ended[i].ids && y in ended[j].ids ==> x < y
    ensures forall i, x, y :: 0 <= i < |ended| && x in ended[i].ids && y in OnWire(ids, sending) ==> x < y
  {
    hide Bound, Rising;
    forall i, j, x, y | 0 <= i < j < |ended| && x in ended[i].ids && y in ended[j].ids
      ensures x < y
    {
      FromBound(ended, j, y);
      BelowBound(accepted, ended[..j], i, x);
    }
    forall i, x, y | 0 <= i < |ended| && x in ended[i].ids && y in OnWire(ids, sending)
      ensures x < y
    {
      BelowBound(accepted, ended, i, x);
    }
  }

  /** Nothing that was written is forgotten: a connection that ends is recorded with all that was written on it, and
      the records stay. */
  ghost predicate Kept(ended: seq<Ended>, wire: seq<Byte>, ended': seq<Ended>, wire': seq<Byte>)
  {
    && ended <= ended'
    && if |ended'| == |ended| then wire <= wire' else wire <= ended'[|ended|].wire
  }

  lemma KeptAtOnce(ended: seq<Ended>, wire: seq<Byte>)
    ensures Kept(ended, wire, ended, wire)
  {
  }

  lemma KeptTwice(e1: seq<Ended>, w1: seq<Byte>, e2: seq<Ended>, w2: seq<Byte>, e3: seq<Ended>, w3: seq<Byte>)
    requires Kept(e1, w1, e2, w2) && Kept(e2, w2, e3, w3)
    ensures Kept(e1, w1, e3, w3)
  {
  }

  ghost predicate Suffix(s: seq<SendElem>, t: seq<SendElem>)
  {
    |s| <= |t| && s == t[|t| - |s|..]
  }

  /** The action waits, or has an element that has not been given up, under this sequence number. */
  ghost predicate Live(recving: seq<Waiting>, sending: seq<SendElem>, seqno: int, ai: nat)
  {
    || (exists i :: 0 <= i < |recving| && recving[i] == Waiting(seqno, ai))
    || (exists i :: 0 <= i < |sending| && sending[i].live && sending[i].seqno == seqno && sending[i].ai == ai)
  }

  ghost predicate InUse(recving: seq<Waiting>, sending: seq<SendElem>, seqno: int)
  {
    || (exists i :: 0 <= i < |recving| && recving[i].seqno == seqno)
    || (exists i :: 0 <= i < |sending| && sending[i].seqno == seqno)
  }

  const PENDING_SIZE := 8192

  // ---- what the sockets and the plugin come to ----

  /** HandleInput's answer: the length of a packet, or zero for more, and the sequence number it carries. */
  datatype Measured = Measured(len: int, seqno: int)

  /** A handler at one moment. */
  datatype View = View(accepted: seq<Action>, recving: seq<Waiting>, sending: seq<SendElem>, calls: seq<nat>,
                       answered: seq<nat>, rBuf: seq<Byte>, conn: ConnState, timeouts: nat)

  /** The first attempt gives a connection that can be used now. */
  predicate AtOnce(opens: seq<OpenOutcome>, isTcp: bool)
  {
    Opens(First(opens), isTcp) && !(isTcp && First(opens).ConnectPending?)
  }

  /** What is left to send after so many attempts as fail in a row: each takes the front element with it. */
  function Survive(sending: seq<SendElem>, opens: seq<OpenOutcome>, isTcp: bool): seq<SendElem>
    decreases |sending|
  {
    if sending == [] || Opens(First(opens), isTcp) then sending else Survive(sending[1..], Later(opens), isTcp)
  }

  lemma {:induction false} SurviveSuffix(sending: seq<SendElem>, opens: seq<OpenOutcome>, isTcp: bool)
    ensures Suffix(Survive(sending, opens, isTcp), sending)
    decreases |sending|
  {
    if sending != [] && !Opens(First(opens), isTcp) {
      SurviveSuffix(sending[1..], Later(opens), isTcp);
    }
  }

  lemma SurviveNext(sending: seq<SendElem>, opens: seq<OpenOutcome>, isTcp: bool)
    ensures Survive(sending, opens, isTcp) ==
            if Opens(First(opens), isTcp) then sending else Survive(Rest(sending), Later(opens), isTcp)
  {
  }

  /** The list without the first element of this number. */
  function TakeOut(recving: seq<Waiting>, seqno: int): seq<Waiting>
  {
    if recving == [] then []
    else if recving[0].seqno == seqno then recving[1..]
    else [recving[0]] + TakeOut(recving[1..], seqno)
  }

  /** The action of that element. */
  function Owner(recving: seq<Waiting>, seqno: int): seq<nat>
  {
    if recving == [] then []
    else if recving[0].seqno == seqno then [recving[0].ai]
    else Owner(recving[1..], seqno)
  }

  lemma {:induction false} TakeOutAt(recving: seq<Waiting>, seqno: int, k: nat)
    requires k <= |recving| && (k < |recving| ==> recving[k].seqno == seqno)
    requires forall i :: 0 <= i < k ==> recving[i].seqno != seqno
    ensures TakeOut(recving, seqno) == if k < |recving| then recving[..k] + recving[k + 1..] else recving
    ensures Owner(recving, seqno) == if k < |recving| then [recving[k].ai] else []
  {
    hide TakeOut, Owner;
    TakeOutNext(recving, seqno);
    if recving != [] && k > 0 {
      var rest := recving[1..];
      TakeOutAt(rest, seqno, k - 1);
      CutBehind(recving, k);
    } else if recving != [] {
      assert recving[..0] + recving[1..] == recving[1..];
    }
  }

  lemma TakeOutNext(recving: seq<Waiting>, seqno: int)
    ensures recving == [] ==> TakeOut(recving, seqno) == [] && Owner(recving, seqno) == []
    ensures recving != [] && recving[0].seqno == seqno ==>
              TakeOut(recving, seqno) == recving[1..] && Owner(recving, seqno) == [recving[0].ai]
    ensures recving != [] && recving[0].seqno != seqno ==>
              && TakeOut(recving, seqno) == [recving[0]] + TakeOut(recving[1..], seqno)
              && Owner(recving, seqno) == Owner(recving[1..], seqno)
  {
  }

  lemma CutBehind<T>(s: seq<T>, k: nat)
    requires 0 < k <= |s|
    ensures k < |s| ==> [s[0]] + (s[1..][..k - 1] + s[1..][k..]) == s[..k] + s[k + 1..]
    ensures [s[0]] + s[1..] == s
  {
  }

  function Length(packets: seq<Measured>): int
  {
    if packets == [] then 0 else Length(packets[..|packets| - 1]) + packets[|packets| - 1].len
  }

  /** Who waits after these responses, and who has been handed one, in order. */
  function Left(recving: seq<Waiting>, packets: seq<Measured>): seq<Waiting>
  {
    if packets == [] then recving
    else TakeOut(Left(recving, packets[..|packets| - 1]), packets[|packets| - 1].seqno)
  }

  function Handed(recving: seq<Waiting>, packets: seq<Measured>): seq<nat>
  {
    if packets == [] then []
    else
      var init := packets[..|packets| - 1];
      Handed(recving, init) + Owner(Left(recving, init), packets[|packets| - 1].seqno)
  }

  lemma ResponsesMore(recving: seq<Waiting>, answers: seq<Measured>, n: nat)
    requires n < |answers|
    ensures Length(answers[..n + 1]) == Length(answers[..n]) + answers[n].len
    ensures Left(recving, answers[..n + 1]) == TakeOut(Left(recving, answers[..n]), answers[n].seqno)
    ensures Handed(recving, answers[..n + 1]) ==
            Handed(recving, answers[..n]) + Owner(Left(recving, answers[..n]), answers[n].seqno)
  {
    assert answers[..n + 1][..n] == answers[..n];
  }

  /** One more packet is measured: bytes are left, somebody waits, and the plugin's answer fits. */
  ghost predicate Splits(recving: seq<Waiting>, size: nat, answers: seq<Measured>, i: nat)
  {
    && i < |answers| && 0 < answers[i].len <= size - Length(answers[..i]) && Left(recving, answers[..i]) != []
  }

  /** After n packets no more can be, for one of these reasons. */
  ghost predicate Stops(recving: seq<Waiting>, size: nat, answers: seq<Measured>, n: nat)
  {
    && n <= |answers|
    && (Length(answers[..n]) == size || Left(recving, answers[..n]) == [] || n == |answers| || answers[n].len == 0)
  }

  /** Or the plugin's answer is no length. */
  ghost predicate Spoils(recving: seq<Waiting>, size: nat, answers: seq<Measured>, n: nat)
  {
    && n < |answers| && Length(answers[..n]) < size && Left(recving, answers[..n]) != []
    && (answers[n].len < 0 || answers[n].len > size - Length(answers[..n]))
  }

  /** Exactly these actions have had a callback meanwhile, one each. */
  ghost predicate OnlyTold(calls: seq<nat>, calls': seq<nat>, ids: seq<nat>)
  {
    && |calls'| == |calls|
    && forall id :: 0 <= id < |calls| ==> calls'[id] == calls[id] + if id in ids then 1 else 0
  }

  lemma OnlyToldNobody(calls: seq<nat>)
    ensures OnlyTold(calls, calls, [])
  {
  }

  lemma CalledOnly(calls: seq<nat>, id: nat)
    requires id < |calls|
    ensures OnlyTold(calls, Called(calls, id), [id])
  {
  }

  lemma OnlyToldOne(n: nat, recving: seq<Waiting>, sending: seq<SendElem>, calls: seq<nat>, calls': seq<nat>,
                    ids: seq<nat>, k: nat)
    requires OnlyTold(calls, calls', ids) && Accounted(n, recving, sending, calls') && k < |recving|
    ensures recving[k].ai < |calls'| && OnlyTold(calls, Called(calls', recving[k].ai), ids + [recving[k].ai])
  {
    hide ListOrder;
    assert Outstanding(recving, sending, recving[k].ai);
  }

  /** A connection is lost: everyone waiting and the front sender are told, and the others are sent on the next
      connection that can be had. */
  ghost predicate Broken(recving: seq<Waiting>, sending: seq<SendElem>, opens: seq<OpenOutcome>, isTcp: bool,
                         recving': seq<Waiting>, sending': seq<SendElem>, calls': seq<nat>)
  {
    && recving' == [] && sending' == Survive(Rest(sending), opens, isTcp) && Suffix(sending', Rest(sending))
    && (forall i :: 0 <= i < |recving| ==> Told(calls', recving[i].ai))
    && (sending != [] ==> Told(calls', sending[0].ai))
  }

  /** What one call of DoSend does with the answers of the socket: those before `used` have been taken, and there is
      nothing more to send, or no more room. */
  ghost predicate Drains(sending: seq<SendElem>, sends: seq<IoOutcome>, used: nat)
  {
    && used <= |sends| && (forall i :: 0 <= i < used ==> sends[i].Took?)
    && (sending == [] || used == |sends| || sends[used].WouldBlock?)
  }

  /** The first k elements go out, in order, until there is nothing more to send or no more room, and nobody is told
      anything; or the connection fails over the next one. */
  ghost predicate Offered(recving: seq<Waiting>, sending: seq<SendElem>, calls: seq<nat>, sends: seq<IoOutcome>,
                          opens: seq<OpenOutcome>, isTcp: bool, used: nat, k: nat, recving': seq<Waiting>,
                          sending': seq<SendElem>, calls': seq<nat>)
  {
    || (Drains(sending', sends, used) && GoneOut(sending, recving, sending', recving', k) && calls' == calls)
    || (&& SendFails(sends, used) && k < |sending|
        && Broken(recving + Awaiting(sending[..k]), sending[k..], opens, isTcp, recving', sending', calls'))
  }

  ghost predicate Offers(recving: seq<Waiting>, sending: seq<SendElem>, calls: seq<nat>, sends: seq<IoOutcome>,
                         opens: seq<OpenOutcome>, isTcp: bool, v': View)
  {
    exists used: nat, k: nat ::
      Offered(recving, sending, calls, sends, opens, isTcp, used, k, v'.recving, v'.sending, v'.calls)
  }

  lemma OfferedNothing(recving: seq<Waiting>, calls: seq<nat>, sends: seq<IoOutcome>, opens: seq<OpenOutcome>,
                       isTcp: bool)
    ensures Offered(recving, [], calls, sends, opens, isTcp, 0, 0, recving, [], calls)
  {
    assert recving + Awaiting([]) == recving;
  }

  /** A connection that fails over the next element, seen from before the sending. */
  lemma BrokenMeanwhile(sending: seq<SendElem>, recving: seq<Waiting>, sending1: seq<SendElem>, recving1: seq<Waiting>,
                        k: nat, opens: seq<OpenOutcome>, isTcp: bool, recving': seq<Waiting>, sending': seq<SendElem>,
                        calls': seq<nat>)
    requires GoneOut(sending, recving, sending1, recving1, k) && sending1 != []
    requires Broken(recving1, sending1, opens, isTcp, recving', sending', calls')
    ensures k < |sending|
    ensures Broken(recving + Awaiting(sending[..k]), sending[k..], opens, isTcp, recving', sending', calls')
  {
    assert sending[k..][1..] == sending1[1..];
  }

  /** The first element of this number is given up: it leaves, or if part of it is on the wire stays for the rest. */
  function LetGo(sending: seq<SendElem>, seqno: int): seq<SendElem>
  {
    if sending == [] then []
    else
      var e := sending[0];
      if e.seqno != seqno then [e] + LetGo(sending[1..], seqno)
      else if e.sent == 0 then sending[1..]
      else [GivenUpElem(e)] + sending[1..]
  }

  function GivenUpElem(e: SendElem): SendElem
  {
    e.(live := false, inPending := true, len := if e.sent <= e.len then e.len - e.sent else 0, sent := 0)
  }

  function Sender(sending: seq<SendElem>, seqno: int): seq<nat>
  {
    if sending == [] then []
    else if sending[0].seqno == seqno then [sending[0].ai]
    else Sender(sending[1..], seqno)
  }

  lemma {:induction false} LetGoAt(sending: seq<SendElem>, seqno: int, k: nat)
    requires k <= |sending| && (k < |sending| ==> sending[k].seqno == seqno)
    requires forall i :: 0 <= i < k ==> sending[i].seqno != seqno
    ensures Sender(sending, seqno) == if k < |sending| then [sending[k].ai] else []
    ensures k < |sending| && sending[k].sent == 0 ==> LetGo(sending, seqno) == sending[..k] + sending[k + 1..]
    ensures k < |sending| && sending[k].sent != 0 && k == 0 ==>
              LetGo(sending, seqno) == sending[0 := GivenUpElem(sending[0])]
  {
    hide LetGo, Sender, GivenUpElem;
    LetGoNext(sending, seqno);
    if sending != [] && k > 0 {
      LetGoAt(sending[1..], seqno, k - 1);
      CutBehind(sending, k);
    } else if sending != [] {
      assert sending[..0] + sending[1..] == sending[1..];
      assert [GivenUpElem(sending[0])] + sending[1..] == sending[0 := GivenUpElem(sending[0])];
    }
  }

  lemma LetGoNext(sending: seq<SendElem>, seqno: int)
    ensures sending == [] ==> LetGo(sending, seqno) == [] && Sender(sending, seqno) == []
    ensures sending != [] && sending[0].seqno == seqno ==>
              && Sender(sending, seqno) == [sending[0].ai]
              && LetGo(sending, seqno) == (if sending[0].sent == 0 then [] else [GivenUpElem(sending[0])]) +
                 sending[1..]
    ensures sending != [] && sending[0].seqno != seqno ==>
              && LetGo(sending, seqno) == [sending[0]] + LetGo(sending[1..], seqno)
              && Sender(sending, seqno) == Sender(sending[1..], seqno)
  {
  }

  /** A timer: the action it belongs to, which waits or is to be sent, is told and given up, and nobody else; a
      connection without work is closed, and one with too many timeouts is given up. */
  ghost predicate Expires(isTcp: bool, limit: nat, v: View, seqno: int, opens: seq<OpenOutcome>, v': View)
  {
    var waits := Owner(v.recving, seqno) != [];
    var recving, sending := TakeOut(v.recving, seqno), if waits then v.sending else LetGo(v.sending, seqno);
    if !InUse(v.recving, v.sending, seqno) then v' == v.(timeouts := v.timeouts + 1)
    else if recving == [] && sending == [] then
      && v'.recving == [] && v'.sending == [] && v'.conn == Unconnected && v'.timeouts == 0
      && OnlyTold(v.calls, v'.calls, if waits then Owner(v.recving, seqno) else Sender(v.sending, seqno))
    else if limit != 0 && v.timeouts + 1 >= limit then
      Broken(recving, sending, opens, isTcp, v'.recving, v'.sending, v'.calls)
    else
      && v'.recving == recving && v'.sending == sending && v'.conn == v.conn && v'.timeouts == v.timeouts + 1
      && OnlyTold(v.calls, v'.calls, if waits then Owner(v.recving, seqno) else Sender(v.sending, seqno))
  }

  /** A request: it goes to the end of what is to be sent on the connection there is, or on a new one. */
  ghost predicate Requested(isTcp: bool, v: View, a: Action, opens: seq<OpenOutcome>, sends: seq<IoOutcome>, v': View)
  {
    var e := SendElem(a.seqno, |v.accepted|, true, false, |a.packet|, 0);
    match v.conn
    case Connected => Offers(v.recving, v.sending + [e], v.calls + [0], sends, Later(opens), isTcp, v')
    case Connecting => Joins(v.sending, e, v.calls, v') && v'.recving == v.recving && v'.conn == Connecting
    case Unconnected =>
      var left := Survive(v.sending, opens, isTcp);
      if AtOnce(opens, isTcp) then Offers([], left + [e], v.calls + [0], sends, Later(opens), isTcp, v')
      else if Opens(First(opens), isTcp) then
        Joins(left, e, v.calls, v') && v'.recving == [] && v'.conn == Connecting
      else
        exists calls ::
          && More(v.calls, calls)
          && ((Joins(left, e, calls, v') && v'.recving == [])
              || Offers([], left + [e], calls + [0], sends, Later(opens), isTcp, v'))
  }

  ghost predicate Joins(sending: seq<SendElem>, e: SendElem, calls: seq<nat>, v': View)
  {
    v'.sending == sending + [e] && v'.calls == calls + [0]
  }

  ghost predicate SendFails(sends: seq<IoOutcome>, used: nat)
  {
    used < |sends| && sends[used].Fails? && forall i :: 0 <= i < used ==> sends[i].Took?
  }

  class CParallelNetHandler {
    const isTcp: bool
    const linkTimeoutLimit: nat
    var sending: seq<SendElem>
    var sendingCnt: int
    var recving: seq<Waiting>
    var recvingCnt: int
    var connState: ConnState
    var timeoutCnt: nat
    var pending: seq<Byte>
    var rBuf: seq<Byte>

    /** The actions handed in so far; an action is known by its place here. */
    var accepted: seq<Action>
    /** How often HandleProcess or HandleError has been called for each accepted action. */
    ghost var calls: seq<nat>
    /** The actions that have been handed a response, in order. */
    ghost var answered: seq<nat>
    ghost var wire: seq<Byte>
    ghost var ids: seq<nat>
    ghost var ended: seq<Ended>

    ghost predicate Idle()
      reads this
    {
      recving == [] && sending == []
    }

    ghost predicate Valid()
      reads this
    {
      ValidWith(wire)
    }

    ghost predicate ValidWith(written: seq<Byte>)
      reads this
    {
      && Framed(accepted, sending, pending, connState == Connected, written, ids)
      && Accounted(|accepted|, recving, sending, calls)
      && sendingCnt == |sending| && recvingCnt == |recving|
      && (connState != Connected ==> recving == [])
      && |pending| >= 1
      && AllWhole(accepted, ended) && Once(ended, ids, sending)
    }

    constructor (isTcp: bool, linkTimeoutLimit: nat)
      ensures Valid() && accepted == [] && Idle()
    {
      this.isTcp := isTcp;
      this.linkTimeoutLimit := linkTimeoutLimit;
      sending, sendingCnt, recving, recvingCnt := [], 0, [], 0;
      connState, timeoutCnt, rBuf := Unconnected, 0, [];
      pending := seq(PENDING_SIZE, _ => 0);
      accepted, calls, answered, wire, ids, ended := [], [], [], [], [], [];
    }

    /** The plugin is told how action `ai` ended. */
    method TellAction(ai: nat)
      requires ai < |calls|
      modifies this`calls
      ensures calls == Called(old(calls), ai)
    {
      calls := Called(calls, ai);
    }

    method Close()
      requires Framed(accepted, sending, pending, connState == Connected, wire, ids) && AllWhole(accepted, ended)
      requires Once(ended, ids, sending)
      modifies this`rBuf, this`timeoutCnt, this`connState, this`wire, this`ids, this`ended
      ensures connState == Unconnected && wire == [] && ids == [] && rBuf == [] && timeoutCnt == 0
      ensures ended == old(ended) + [Ended(old(wire), OnWire(old(ids), sending))]
      ensures AllWhole(accepted, ended) && Once(ended, [], Rest(sending)) && Kept(old(ended), old(wire), ended, wire)
    {
      hide Once;
      OnceClosed(ended, ids, sending, wire);
      FramedIsWholePackets(accepted, sending, pending, connState == Connected, wire, ids);
      ended := ended + [Ended(wire, OnWire(ids, sending))];
      wire, ids := [], [];
      rBuf := [];
      timeoutCnt := 0;
      connState := Unconnected;
    }

    /** Every open failure gives up one more queued action, so the recursion ends with the list. */
    method Open(opens: seq<OpenOutcome>) returns (ret: int)
      requires Valid() && connState == Unconnected && recving == []
      modifies this
      ensures Valid() && accepted == old(accepted)
      ensures Kept(old(ended), old(wire), ended, wire) && More(old(calls), calls) && answered == old(answered)
      ensures ret == 0 <==> Opens(First(opens), isTcp)
      ensures ret == 0 ==> calls == old(calls)
      ensures ret != 0 && sending == [] ==> connState == Unconnected
      ensures ret == 0 ==> connState == if isTcp && First(opens).ConnectPending? then Connecting else Connected
      ensures recving == [] && sending == Survive(old(sending), opens, isTcp) && Suffix(sending, old(sending))
      ensures ret != 0 && old(sending) != [] ==> |sending| < |old(sending)|
      decreases |sending|, 1
    {
      hide Framed, Accounted, AllWhole, Once, Survive;
      Connects(accepted, sending, pending, wire, ids);
      SurviveNext(sending, opens, isTcp);
      SurviveSuffix(sending, opens, isTcp);
      match First(opens) {
        case NoSocket =>
          DoErrorFinished(Later(opens));
          return -1;
        case NoPollerSlot =>
          DoErrorFinished(Later(opens));
          return -1;
        case ConnectFails =>
          if isTcp {
            DoErrorFinished(Later(opens));
            return -1;
          }
          connState := Connected;
        case ConnectPending =>
          connState := if isTcp then Connecting else Connected;
        case ConnectsAtOnce =>
          connState := Connected;
      }
      return 0;
    }

    /** The connection is lost: everyone waiting for a response is told, the front sender is told, and
        the others get a new connection. */
    method DoErrorFinished(opens: seq<OpenOutcome>)
      requires Valid()
      modifies this
      ensures Valid() && accepted == old(accepted)
      ensures Kept(old(ended), old(wire), ended, wire) && More(old(calls), calls) && answered == old(answered)
      ensures Broken(old(recving), old(sending), opens, isTcp, recving, sending, calls)
      ensures sending == [] ==> connState == Unconnected
      decreases |sending|, 0
    {
      hide Framed, Accounted, AllWhole, Once, Survive, Kept, More, Told, Suffix;
      ghost var recving0, sending0, calls0 := recving, sending, calls;
      SurviveSuffix(Rest(sending), opens, isTcp);
      SurviveNext(Rest(sending), opens, isTcp);
      GiveUpConnection();
      if sending != [] {
        ghost var ended1, wire1, calls1 := ended, wire, calls;
        var _ := Open(opens);
        KeptTwice(old(ended), old(wire), ended1, wire1, ended, wire);
        MoreTwice(calls0, calls1, calls);
      }
      LostAreTold(|accepted|, recving0, sending0, calls0, sending, calls);
    }

    method GiveUpConnection()
      requires Valid()
      modifies this
      ensures Valid() && accepted == old(accepted)
      ensures Kept(old(ended), old(wire), ended, wire) && More(old(calls), calls) && answered == old(answered)
      ensures connState == Unconnected && recving == [] && sending == Rest(old(sending))
    {
      hide Framed, Accounted, AllWhole, Once;
      Disconnected(accepted, sending, pending, connState == Connected, wire, ids);
      Close();
      TellWaiting();
      TellFront();
    }

    method TellFront()
      requires Accounted(|accepted|, recving, sending, calls) && sendingCnt == |sending|
      modifies this`calls, this`sending, this`sendingCnt
      ensures Accounted(|accepted|, recving, sending, calls)
      ensures sending == Rest(old(sending)) && sendingCnt == |sending|
      ensures More(old(calls), calls)
    {
      if sending != [] {
        AccountFront(|accepted|, recving, sending, calls);
        if sending[0].live {
          TellAction(sending[0].ai);
        }
        sendingCnt := sendingCnt - 1;
        sending := sending[1..];
      }
    }

    method TellWaiting()
      requires Accounted(|accepted|, recving, sending, calls)
      modifies this`calls, this`recving, this`recvingCnt
      ensures Accounted(|accepted|, recving, sending, calls)
      ensures recving == [] && recvingCnt == 0
      ensures More(old(calls), calls)
    {
      hide Accounted;
      assert recving[0..] == recving;
      var i := 0;
      while i < |recving|
        invariant 0 <= i <= |recving|
        invariant Accounted(|accepted|, recving[i..], sending, calls) && More(old(calls), calls)
      {
        AccountWaiting(|accepted|, recving[i..], sending, calls, 0);
        assert recving[i..][..0] + recving[i..][1..] == recving[i + 1..];
        TellAction(recving[i].ai);
        i := i + 1;
      }
      assert recving[i..] == [];
      recvingCnt := 0;
      recving := [];
    }

    /** send/sendto on the connection, with this answer: at least one byte is taken when one is offered. */
    method SysSend(offered: seq<Byte>, answer: IoOutcome) returns (r: IoOutcome)
      modifies this`wire
      ensures r.Took? <==> answer.Took?
      ensures r.Took? ==> r.n <= |offered| && (offered != [] ==> r.n > 0) && wire == old(wire) + offered[..r.n]
      ensures !r.Took? ==> r == answer && wire == old(wire)
    {
      r := answer;
      if r.Took? {
        var n := Clip(r.n, |offered|);
        r := Took(n);
        wire := wire + offered[..n];
      }
    }

    /** Sends until the list is empty or the socket will take no more: the first k elements go out in order, nobody is
        told anything, and what was written stays written. Every answer of the socket but the last takes the sending
        further. */
    method DoSend(sends: seq<IoOutcome>, opens: seq<OpenOutcome>) returns (ret: int, ghost k: nat, used: nat)
      requires Valid() && connState == Connected && sending != []
      modifies this
      ensures Valid() && accepted == old(accepted)
      ensures Kept(old(ended), old(wire), ended, wire) && More(old(calls), calls) && answered == old(answered)
      ensures ret == 0 ==> Flushed(old(sending), old(ids), old(recving), sending, ids, recving, k)
      ensures ret == 0 ==> connState == Connected && calls == old(calls) && old(wire) <= wire
      ensures ret == 0 ==> Drains(sending, sends, used) && used <= |wire| - |old(wire)| + k
      ensures ret != 0 ==> recving == [] && SendFails(sends, used)
      ensures Offered(old(recving), old(sending), old(calls), sends, opens, isTcp, used, k, recving, sending, calls)
    {
      hide Framed, Accounted, AllWhole, Once, GoneOut, Broken;
      k, used := 0, 0;
      FlushedNone(sending, ids, recving);
      FrontSlice(accepted, sending, pending, true, wire, ids);
      while true
        invariant Valid() && connState == Connected && sending != [] && answered == old(answered)
        invariant accepted == old(accepted) && calls == old(calls) && old(wire) <= wire && ended == old(ended)
        invariant Flushed(old(sending), old(ids), old(recving), sending, ids, recving, k)
        invariant sending[0].sent <= sending[0].len
        invariant used <= |sends| && (forall i :: 0 <= i < used ==> sends[i].Took?)
        invariant used <= |wire| - |old(wire)| + k
        decreases |sending|, sending[0].len - sending[0].sent + 1
      {
        FrontSlice(accepted, sending, pending, true, wire, ids);
        var e := sending[0];
        var buf := if e.inPending then pending else accepted[e.ai].packet;
        ghost var written := wire;
        if used == |sends| {
          return 0, k, used;
        }
        var r := SysSend(buf[e.sent..e.len], sends[used]);
        match r {
          case WouldBlock =>
            return 0, k, used;
          case Fails =>
            ghost var sending1, recving1 := sending, recving;
            DoErrorFinished(opens);
            BrokenMeanwhile(old(sending), old(recving), sending1, recving1, k, opens, isTcp, recving, sending, calls);
            return -1, k, used;
          case Took(n) =>
            FlushedStep(old(sending), old(ids), old(recving), sending, ids, recving, k, n);
            Sent(n, written);
            k := if e.sent + n < e.len then k else k + 1;
            used := used + 1;
            if sending == [] {
              return 0, k, used;
            }
            FrontSlice(accepted, sending, pending, true, wire, ids);
        }
      }
    }

    /** The socket has taken `n` more bytes of the front element. */
    method Sent(n: nat, ghost written: seq<Byte>)
      requires ValidWith(written) && connState == Connected && sending != []
      requires sending[0].sent + n <= sending[0].len
      requires wire == written + Offer(accepted, pending, sending[0])[..n]
      modifies this`sending, this`sendingCnt, this`recving, this`recvingCnt, this`ids
      ensures Valid()
      ensures var e := old(sending)[0];
              && (e.sent + n < e.len ==>
                    sending == old(sending)[0 := e.(sent := e.sent + n)] && ids == old(ids) && recving == old(recving))
              && (e.sent + n == e.len ==>
                    && sending == old(sending)[1..] && ids == old(ids) + [e.ai]
                    && recving == old(recving) + if e.live then [Waiting(e.seqno, e.ai)] else [])
    {
      hide Accounted, AllWhole, Once;
      var e := sending[0];
      var e' := e.(sent := e.sent + n);
      SentPart(accepted, sending, pending, written, ids, n);
      AccountProgress(|accepted|, recving, sending, calls, e');
      OnceFront(ended, ids, sending, e');
      sending := sending[0 := e'];
      if e'.sent >= e.len {
        PopSent();
      }
    }

    /** The front element has been sent to the last byte. */
    method PopSent()
      requires Valid() && connState == Connected && sending != [] && sending[0].sent == sending[0].len
      modifies this`sending, this`sendingCnt, this`recving, this`recvingCnt, this`ids
      ensures Valid()
      ensures var e := old(sending)[0];
              && sending == old(sending)[1..] && ids == old(ids) + [e.ai]
              && recving == old(recving) + if e.live then [Waiting(e.seqno, e.ai)] else []
    {
      hide Framed, Accounted, AllWhole, Once;
      var e := sending[0];
      SentAll(accepted, sending, pending, wire, ids);
      AccountSent(|accepted|, recving, sending, calls);
      OnceSent(ended, ids, sending);
      if e.live {
        recvingCnt := recvingCnt + 1;
        recving := recving + [Waiting(e.seqno, e.ai)];
      }
      ids := ids + [e.ai];
      sendingCnt := sendingCnt - 1;
      sending := sending[1..];
    }

    ghost predicate SeqnoInUse(seqno: int)
      reads this
    {
      InUse(recving, sending, seqno)
    }

    /** A new request. It is queued whatever becomes of the connection, and numbered last; on a connection it is sent at
        once, as far as the socket takes it. */
    method HandleRequest(a: Action, opens: seq<OpenOutcome>, sends: seq<IoOutcome>) returns (ret: int, used: nat)
      requires Valid() && !SeqnoInUse(a.seqno)
      modifies this
      ensures Valid() && accepted == old(accepted) + [a]
      ensures Kept(old(ended), old(wire), ended, wire) && More(old(calls), calls) && answered == old(answered)
      ensures old(connState) == Connected || (old(connState) == Unconnected && AtOnce(opens, isTcp)) ==>
                if ret == 0 then Drains(sending, sends, used) else recving == [] && SendFails(sends, used)
      ensures Requested(isTcp, old(Now()), a, opens, sends, Now())
    {
      hide Framed, Accounted, AllWhole, Once, Kept, More, CParallelNetHandler.SeqnoInUse, Survive;
      KeptAtOnce(ended, wire);
      MoreAtOnce(calls);
      ret, used := 0, 0;
      if connState == Unconnected {
        ret := Reopen(a.seqno, opens);
      }
      ghost var ended1, wire1, calls1 := ended, wire, calls;
      Queue(a);
      MoreTwice(old(calls), calls1, calls);
      if connState == Connected {
        ghost var k, ended2, wire2, calls2 := 0, ended, wire, calls;
        ret, k, used := DoSend(sends, Later(opens));
        KeptTwice(old(ended), old(wire), ended2, wire2, ended, wire);
        MoreTwice(old(calls), calls2, calls);
      }
    }

    method Reopen(ghost seqno: int, opens: seq<OpenOutcome>) returns (ret: int)
      requires Valid() && !SeqnoInUse(seqno) && connState == Unconnected
      modifies this
      ensures Valid() && accepted == old(accepted) && !SeqnoInUse(seqno)
      ensures Kept(old(ended), old(wire), ended, wire) && More(old(calls), calls) && answered == old(answered)
      ensures Opens(First(opens), isTcp) ==>
                && calls == old(calls)
                && connState == if isTcp && First(opens).ConnectPending? then Connecting else Connected
      ensures recving == [] && sending == Survive(old(sending), opens, isTcp)
    {
      hide Framed, Accounted, AllWhole, Once, Survive;
      ret := Open(opens);
    }

    method Queue(a: Action)
      requires Valid() && !SeqnoInUse(a.seqno)
      modifies this`accepted, this`calls, this`sending, this`sendingCnt
      ensures Valid() && accepted == old(accepted) + [a]
      ensures sending == old(sending) + [Fresh(accepted, |old(accepted)|)]
      ensures More(old(calls), calls) && calls == old(calls) + [0]
    {
      hide Framed, Accounted, AllWhole, Once;
      var e := SendElem(a.seqno, |accepted|, true, false, |a.packet|, 0);
      Pushed(accepted, sending, pending, connState == Connected, wire, ids, a);
      AccountPush(|accepted|, recving, sending, calls, e);
      AllWholeStable(accepted, a, ended);
      OnceQueued(accepted, ended, ids, sending, e);
      accepted := accepted + [a];
      calls := calls + [0];
      sendingCnt := sendingCnt + 1;
      sending := sending + [e];
    }

    /** First element of the receiving list with this sequence number, or the list's length. */
    method FindWaiting(seqno: int) returns (k: nat)
      ensures k <= |recving| && (k < |recving| ==> recving[k].seqno == seqno)
      ensures forall i :: 0 <= i < k ==> recving[i].seqno != seqno
    {
      k := 0;
      while k < |recving| && recving[k].seqno != seqno
        invariant k <= |recving|
        invariant forall i :: 0 <= i < k ==> recving[i].seqno != seqno
      {
        k := k + 1;
      }
    }

    method FindSending(seqno: int) returns (k: nat)
      ensures k <= |sending| && (k < |sending| ==> sending[k].seqno == seqno)
      ensures forall i :: 0 <= i < k ==> sending[i].seqno != seqno
    {
      k := 0;
      while k < |sending| && sending[k].seqno != seqno
        invariant k <= |sending|
        invariant forall i :: 0 <= i < k ==> sending[i].seqno != seqno
      {
        k := k + 1;
      }
    }

    /** The waiting action at `k` is told and leaves the list. */
    method FinishWaiting(k: nat)
      requires Valid() && k < |recving|
      modifies this`calls, this`recving, this`recvingCnt
      ensures Valid()
      ensures recving == old(recving)[..k] + old(recving)[k + 1..]
      ensures calls == Called(old(calls), old(recving)[k].ai)
    {
      hide Framed, AllWhole, Once;
      AccountWaiting(|accepted|, recving, sending, calls, k);
      TellAction(recving[k].ai);
      recvingCnt := recvingCnt - 1;
      recving := recving[..k] + recving[k + 1..];
    }

    /** The sending action at `k` is told; its element leaves the list too, unless part of its packet is
        already on the wire: then the rest moves to the pending buffer and will still be sent. */
    method FinishSending(k: nat)
      requires Valid() && k < |sending| && sending[k].live
      modifies this`calls, this`sending, this`sendingCnt, this`pending
      ensures Valid()
      ensures calls == Called(old(calls), old(sending)[k].ai)
      ensures var e := old(sending)[k];
              if e.sent == 0 then sending == old(sending)[..k] + old(sending)[k + 1..]
              else
                k == 0
                && sending == old(sending)[0 := e.(live := false, inPending := true, len := e.len - e.sent, sent := 0)]
    {
      hide Framed, Accounted, AllWhole, Once;
      OnlyFrontPartWay(accepted, sending, pending, connState == Connected, wire, ids, k);
      var e := sending[k];
      if e.sent != 0 {
        GiveUpFront(e);
      } else {
        Removed(accepted, sending, pending, connState == Connected, wire, ids, k);
        AccountSending(|accepted|, recving, sending, calls, k);
        OnceCut(ended, ids, sending, k);
        sendingCnt := sendingCnt - 1;
        sending := sending[..k] + sending[k + 1..];
        TellAction(e.ai);
      }
    }

    method GiveUpFront(e: SendElem)
      requires Valid() && sending != [] && sending[0] == e && e.live && e.sent != 0
      modifies this`calls, this`sending, this`pending
      ensures Valid()
      ensures calls == Called(old(calls), e.ai)
      ensures sending == old(sending)[0 := e.(live := false, inPending := true, len := e.len - e.sent, sent := 0)]
    {
      hide Accounted, AllWhole, Once;
      ghost var before := pending;
      CopyToPending(e);
      GivenUp(accepted, sending, before, pending, connState == Connected, wire, ids);
      var e' := e.(live := false, inPending := true, len := e.len - e.sent, sent := 0);
      AccountGivenUp(|accepted|, recving, sending, calls, e');
      OnceFront(ended, ids, sending, e');
      sending := sending[0 := e'];
      TellAction(e.ai);
    }

    method CopyToPending(e: SendElem)
      requires FrontOk(accepted, pending, e) && e.live && |pending| >= 1
      modifies this`pending
      ensures |pending| >= 1 && e.len - e.sent <= |pending|
      ensures pending[..e.len - e.sent] == Offer(accepted, old(pending), e)
    {
      var left := e.len - e.sent;
      var size := |pending|;
      while left > size
        invariant size >= |pending|
        decreases left - size
      {
        size := size * 2;
      }
      var grown := pending + seq(size - |pending|, _ => 0);
      pending := Blit(grown, 0, accepted[e.ai].packet[e.sent..e.len]);
    }

    ghost predicate LiveAt(seqno: int, ai: nat)
      reads this
    {
      Live(recving, sending, seqno, ai)
    }

    /** The action whose timer fired is told, and only that one. */
    method Expire(seqno: int) returns (found: bool, ghost ai: nat)
      requires Valid()
      requires sending != [] && !sending[0].live ==> sending[0].seqno != seqno
      modifies this`calls, this`recving, this`recvingCnt, this`sending, this`sendingCnt, this`pending
      ensures Valid()
      ensures found ==> old(LiveAt(seqno, ai)) && calls == Called(old(calls), ai)
      ensures !found ==> unchanged(this) && !old(SeqnoInUse(seqno))
      ensures found ==>
                && old(SeqnoInUse(seqno)) && recving == TakeOut(old(recving), seqno)
                && if Owner(old(recving), seqno) != [] then
                     Owner(old(recving), seqno) == [ai] && sending == old(sending)
                   else
                     Sender(old(sending), seqno) == [ai] && sending == LetGo(old(sending), seqno)
    {
      hide Framed, Accounted, AllWhole, Once, TakeOut, Owner, LetGo, Sender;
      FramedKnows(accepted, sending, pending, connState == Connected, wire, ids);
      ai := 0;
      var k := FindWaiting(seqno);
      TakeOutAt(recving, seqno, k);
      if k < |recving| {
        ai := recving[k].ai;
        FinishWaiting(k);
        return true, ai;
      }
      var j := FindSending(seqno);
      LetGoAt(sending, seqno, j);
      if j < |sending| {
        ai := sending[j].ai;
        FinishSending(j);
        return true, ai;
      }
      return false, ai;
    }

    method TimerNotify(seqno: int, opens: seq<OpenOutcome>)
      requires Valid()
      requires sending != [] && !sending[0].live ==> sending[0].seqno != seqno
      modifies this
      ensures Valid() && accepted == old(accepted)
      ensures forall ai :: old(LiveAt(seqno, ai)) ==> Told(calls, ai)
      ensures old(SeqnoInUse(seqno)) && linkTimeoutLimit != 0 && old(timeoutCnt) + 1 >= linkTimeoutLimit ==>
              recving == []
      ensures recving != [] ==> timeoutCnt == old(timeoutCnt) + 1
      ensures Expires(isTcp, linkTimeoutLimit, old(Now()), seqno, opens, Now())
      ensures Kept(old(ended), old(wire), ended, wire) && More(old(calls), calls) && answered == old(answered)
    {
      hide Framed, Accounted, AllWhole, Once, Kept, More, Live, Called, TakeOut, Owner, LetGo, Sender, Broken, OnlyTold;
      KeptAtOnce(ended, wire);
      MoreAtOnce(calls);
      timeoutCnt := timeoutCnt + 1;
      ghost var recving0, sending0, calls0 := recving, sending, calls;
      var found, told := Expire(seqno);
      if !found {
        NobodyLive(recving0, sending0, seqno);
        return;
      }
      OnlyOneLive(|accepted|, recving0, sending0, calls0, seqno, told);
      MoreCalled(calls0, told);
      CalledOnly(calls0, told);
      ghost var ended1, wire1, calls1 := ended, wire, calls;
      AfterTimeout(opens);
      MoreTwice(calls0, calls1, calls);
      StaysTold(|accepted|, recving, sending, calls1, calls, told);
    }

    /** A connection without work is closed, and so is one with too many timeouts. */
    method AfterTimeout(opens: seq<OpenOutcome>)
      requires Valid()
      modifies this
      ensures Valid() && accepted == old(accepted)
      ensures linkTimeoutLimit != 0 && old(timeoutCnt) >= linkTimeoutLimit ==> recving == []
      ensures recving != [] ==> timeoutCnt == old(timeoutCnt)
      ensures old(recving) == [] && old(sending) == [] ==>
                recving == [] && sending == [] && connState == Unconnected && timeoutCnt == 0 && calls == old(calls)
      ensures old(recving) != [] || old(sending) != [] ==>
                if linkTimeoutLimit != 0 && old(timeoutCnt) >= linkTimeoutLimit then
                  Broken(old(recving), old(sending), opens, isTcp, recving, sending, calls)
                else unchanged(this)
      ensures Kept(old(ended), old(wire), ended, wire) && More(old(calls), calls) && answered == old(answered)
    {
      hide Framed, Accounted, AllWhole, Once, Kept, More;
      KeptAtOnce(ended, wire);
      MoreAtOnce(calls);
      if recving == [] && sending == [] {
        CloseIdle();
      }
      ghost var ended1, wire1, calls1 := ended, wire, calls;
      if linkTimeoutLimit != 0 && timeoutCnt >= linkTimeoutLimit {
        DoErrorFinished(opens);
        KeptTwice(old(ended), old(wire), ended1, wire1, ended, wire);
        MoreTwice(old(calls), calls1, calls);
      }
    }

    method CloseIdle()
      requires Valid() && Idle()
      modifies this
      ensures Valid() && accepted == old(accepted) && Idle() && connState == Unconnected && timeoutCnt == 0
      ensures calls == old(calls)
      ensures Kept(old(ended), old(wire), ended, wire) && More(old(calls), calls) && answered == old(answered)
    {
      hide Framed, Accounted, AllWhole, Once;
      Disconnected(accepted, sending, pending, connState == Connected, wire, ids);
      Close();
    }

    /** A hangup: everyone who waited is told, and so is the front sender. */
    method HangupNotify(opens: seq<OpenOutcome>)
      requires Valid()
      modifies this
      ensures Valid() && accepted == old(accepted)
      ensures Broken(old(recving), old(sending), opens, isTcp, recving, sending, calls)
      ensures Kept(old(ended), old(wire), ended, wire) && More(old(calls), calls) && answered == old(answered)
    {
      DoErrorFinished(opens);
    }

    /** The socket can be written: a connection under way is there, or has `failed`. */
    method OutputNotify(failed: bool, sends: seq<IoOutcome>, opens: seq<OpenOutcome>) returns (ret: int, used: nat)
      requires Valid()
      modifies this
      ensures Valid() && accepted == old(accepted)
      ensures Kept(old(ended), old(wire), ended, wire) && More(old(calls), calls) && answered == old(answered)
      ensures old(connState) == Unconnected || (old(connState) == Connecting && failed) ==>
                && ret == (if failed && old(connState) == Connecting then -1 else -2)
                && Broken(old(recving), old(sending), opens, isTcp, recving, sending, calls)
      ensures !(old(connState) == Unconnected || (old(connState) == Connecting && failed)) ==>
                if ret == 0 then connState == Connected && Drains(sending, sends, used)
                else recving == [] && SendFails(sends, used)
      ensures !(old(connState) == Unconnected || (old(connState) == Connecting && failed)) ==>
                Offers(old(recving), old(sending), old(calls), sends, opens, isTcp, Now())
    {
      hide Framed, Accounted, AllWhole, Once, Flushed, GoneOut, Survive, Broken, SendFails, Offered;
      used := 0;
      if connState != Connected {
        if connState == Connecting {
          if failed {
            DoErrorFinished(opens);
            return -1, used;
          }
          Connects(accepted, sending, pending, wire, ids);
          connState := Connected;
        } else {
          DoErrorFinished(opens);
          return -2, used;
        }
      }
      if sending == [] {
        OfferedNothing(recving, calls, sends, opens, isTcp);
        return 0, used;
      }
      ghost var k;
      ret, k, used := DoSend(sends, opens);
    }

    /** The socket can be read, and this comes of it. */
    method InputNotify(got: RecvOutcome, answers: seq<Measured>, opens: seq<OpenOutcome>) returns (ret: int, n: nat)
      requires Valid()
      modifies this
      ensures Valid() && accepted == old(accepted)
      ensures Kept(old(ended), old(wire), ended, wire) && More(old(calls), calls)
      ensures old(recving) == [] ==>
                && ret == -1 && n == 0 && answered == old(answered)
                && Broken(old(recving), old(sending), opens, isTcp, recving, sending, calls)
      ensures old(recving) != [] ==> Received(old(Now()), got, answers, opens, isTcp, ret, n, Now())
    {
      if recving == [] {
        DoErrorFinished(opens);
        return -1, 0;
      }
      ret, n := DoRecv(got, answers, opens);
    }

    method DoRecv(got: RecvOutcome, answers: seq<Measured>, opens: seq<OpenOutcome>) returns (ret: int, n: nat)
      requires Valid() && recving != []
      modifies this
      ensures Valid() && accepted == old(accepted)
      ensures Kept(old(ended), old(wire), ended, wire) && More(old(calls), calls)
      ensures Received(old(Now()), got, answers, opens, isTcp, ret, n, Now())
    {
      hide Framed, Accounted, AllWhole, Once, More, Broken, Responded;
      MoreAtOnce(calls);
      n := 0;
      match got {
        case PeerClosed =>
          DoErrorFinished(opens);
          return -1, n;
        case NothingYet =>
          return 0, n;
        case RecvFails =>
          DoErrorFinished(opens);
          return -1, n;
        case Bytes(data) =>
          rBuf := rBuf + data;
          ret, n := DoProcess(answers, opens);
      }
    }

    /** Splits the received bytes into the responses the plugin measures and hands each to the first action that waits
        for its sequence number: `n` of the plugin's answers are packets, and the one after them, if any was asked for,
        is not. */
    method DoProcess(answers: seq<Measured>, opens: seq<OpenOutcome>) returns (ret: int, n: nat)
      requires Valid()
      modifies this
      ensures Valid() && accepted == old(accepted)
      ensures Kept(old(ended), old(wire), ended, wire) && More(old(calls), calls)
      ensures Responded(old(Now()), answers, opens, isTcp, ret, n, Now())
    {
      hide Framed, Accounted, AllWhole, Once, More, Called, OnlyTold, Left, Handed, Length, Splits, Broken;
      MoreAtOnce(calls);
      OnlyToldNobody(calls);
      n := 0;
      var processed := 0;
      assert answers[..0] == [];
      NoResponses(recving);
      assert answered + [] == answered;
      while processed < |rBuf| && recving != []
        invariant Valid() && accepted == old(accepted) && rBuf == old(rBuf) && More(old(calls), calls)
        invariant ended == old(ended) && wire == old(wire) && sending == old(sending) && connState == old(connState)
        invariant timeoutCnt == if n > 0 then 0 else old(timeoutCnt)
        invariant n <= |answers| && 0 <= processed == Length(answers[..n]) <= |rBuf| && (n > 0 <==> processed > 0)
        invariant recving == Left(old(recving), answers[..n])
        invariant answered == old(answered) + Handed(old(recving), answers[..n])
        invariant OnlyTold(old(calls), calls, Handed(old(recving), answers[..n]))
        invariant forall i :: 0 <= i < n ==> Splits(old(recving), |rBuf|, answers, i)
        decreases |answers| - n
      {
        if n == |answers| || answers[n].len == 0 {
          break;
        }
        if 0 < answers[n].len <= |rBuf| - processed {
          timeoutCnt := 0;
          ResponsesMore(old(recving), answers, n);
          assert Splits(old(recving), |rBuf|, answers, n) by { SplitsOne(old(recving), |rBuf|, answers, n); }
          Respond(answers[n].seqno, old(calls), Handed(old(recving), answers[..n]));
          processed := processed + answers[n].len;
          n := n + 1;
        } else {
          ghost var recving0, calls0 := recving, calls;
          DoErrorFinished(opens);
          MoreTwice(old(calls), calls0, calls);
          return -1, n;
        }
      }
      assert processed == 0 ==> rBuf[processed..] == rBuf;
      assert processed == |rBuf| ==> rBuf[processed..] == [];
      if processed > 0 {
        if processed >= |rBuf| || recving == [] {
          rBuf := [];
        } else {
          rBuf := rBuf[processed..];
        }
      }
      return 0, n;
    }

    /** One response. */
    method Respond(seqno: int, ghost before: seq<nat>, ghost ids: seq<nat>)
      requires Valid() && OnlyTold(before, calls, ids) && More(before, calls)
      modifies this`calls, this`recving, this`recvingCnt, this`answered
      ensures Valid() && recving == TakeOut(old(recving), seqno)
      ensures answered == old(answered) + Owner(old(recving), seqno)
      ensures OnlyTold(before, calls, ids + Owner(old(recving), seqno)) && More(before, calls)
    {
      hide Framed, Accounted, AllWhole, Once, More, Called, OnlyTold, TakeOut, Owner;
      ghost var recving0, calls0 := recving, calls;
      var k := DoRecvFinished(seqno);
      TakeOutAt(recving0, seqno, k);
      if k < |recving0| {
        MoreTold(|accepted|, recving0, sending, calls0, k);
        OnlyToldOne(|accepted|, recving0, sending, before, calls0, ids, k);
        MoreTwice(before, calls0, calls);
      } else {
        assert ids + [] == ids && answered + [] == answered;
      }
    }

    /** The action waiting for this response is told and leaves; a response nobody waits for is dropped. */
    method DoRecvFinished(seqno: int) returns (k: nat)
      requires Valid()
      modifies this`calls, this`recving, this`recvingCnt, this`answered
      ensures Valid() && k <= |old(recving)|
      ensures forall i :: 0 <= i < k ==> old(recving)[i].seqno != seqno
      ensures if k < |old(recving)|
              then && old(recving)[k].seqno == seqno && calls == Called(old(calls), old(recving)[k].ai)
                   && recving == old(recving)[..k] + old(recving)[k + 1..]
                   && answered == old(answered) + [old(recving)[k].ai]
              else unchanged(this)
    {
      hide Framed, AllWhole, Once;
      k := FindWaiting(seqno);
      if k < |recving| {
        answered := answered + [recving[k].ai];
        FinishWaiting(k);
      }
    }

    ghost function Now(): View
      reads this
    {
      View(accepted, recving, sending, calls, answered, rBuf, connState, timeoutCnt)
    }

    /** Any run of requests, readiness events and timers, with the states it goes through. A request comes with an
        unused sequence number, a timer belongs to an action that is still on a list; an event that does not is passed
        over (`oks`). The actions accepted are those of the requests, in order, no callback is taken back, no record
        is lost, and each event has its effect. */
    method Serve(events: seq<Event>) returns (oks: seq<bool>, ghost trace: seq<View>)
      requires Valid()
      modifies this
      ensures Valid() && |oks| == |events| && accepted == old(accepted) + Taken(events, oks)
      ensures forall k :: 0 <= k < |events| && !events[k].Request? && !events[k].Timer? ==> oks[k]
      ensures Kept(old(ended), old(wire), ended, wire) && More(old(calls), calls)
      ensures RunOf(isTcp, linkTimeoutLimit, trace, events, oks) && trace[0] == old(Now()) && trace[|events|] == Now()
    {
      hide Framed, Accounted, AllWhole, Once, Kept, More, Stepped, Steps, Taken;
      KeptAtOnce(ended, wire);
      MoreAtOnce(calls);
      oks, trace := [], [Now()];
      StepsNone(isTcp, linkTimeoutLimit, Now(), events);
      TakenNone(events);
      for i := 0 to |events|
        invariant Valid() && |oks| == i && accepted == old(accepted) + Taken(events[..i], oks)
        invariant forall k :: 0 <= k < i && !events[k].Request? && !events[k].Timer? ==> oks[k]
        invariant Kept(old(ended), old(wire), ended, wire) && More(old(calls), calls)
        invariant |trace| == i + 1 && trace[0] == old(Now()) && trace[i] == Now()
        invariant Steps(isTcp, linkTimeoutLimit, trace, events, oks)
      {
        ghost var ended0, wire0, calls0 := ended, wire, calls;
        var ok := Handle(events[i]);
        KeptTwice(old(ended), old(wire), ended0, wire0, ended, wire);
        MoreTwice(old(calls), calls0, calls);
        TakenMore(events, oks, i, ok);
        StepsMore(isTcp, linkTimeoutLimit, trace, events, oks, ok, Now());
        oks, trace := oks + [ok], trace + [Now()];
      }
      assert events[..|events|] == events;
      StepsAll(isTcp, linkTimeoutLimit, trace, events, oks);
    }

    /** One event. */
    method Handle(e: Event) returns (ok: bool)
      requires Valid()
      modifies this
      ensures Valid() && accepted == old(accepted) + if e.Request? && ok then [e.a] else []
      ensures Stepped(isTcp, linkTimeoutLimit, old(Now()), e, ok, Now())
      ensures !e.Request? && !e.Timer? ==> ok
      ensures Kept(old(ended), old(wire), ended, wire) && More(old(calls), calls)
    {
      hide Framed, Accounted, AllWhole, Once, Kept, More, Broken, Received, Live, Requested, Offers, Expires;
      KeptAtOnce(ended, wire);
      MoreAtOnce(calls);
      ok := true;
      match e {
        case Request(a, opens, sends) =>
          var r := FindWaiting(a.seqno);
          var s := FindSending(a.seqno);
          ok := r == |recving| && s == |sending|;
          if ok {
            var _, _ := HandleRequest(a, opens, sends);
          }
        case Readable(got, answers, opens) =>
          var _, _ := InputNotify(got, answers, opens);
        case Writable(failed, sends, opens) =>
          var _, _ := OutputNotify(failed, sends, opens);
        case Hangup(opens) => HangupNotify(opens);
        case Timer(seqno, opens) =>
          ok := sending == [] || sending[0].live || sending[0].seqno != seqno;
          if ok {
            TimerNotify(seqno, opens);
          }
      }
    }
  }

  /** The actions of the requests that were taken. */
  function Taken(events: seq<Event>, oks: seq<bool>): seq<Action>
    requires |events| == |oks|
  {
    if events == [] then []
    else
      var n := |events| - 1;
      Taken(events[..n], oks[..n]) + if events[n].Request? && oks[n] then [events[n].a] else []
  }

  lemma TakenNone(events: seq<Event>)
    ensures Taken(events[..0], []) == []
  {
  }

  lemma TakenMore(events: seq<Event>, oks: seq<bool>, i: nat, ok: bool)
    requires |oks| == i < |events|
    ensures Taken(events[..i + 1], oks + [ok]) ==
            Taken(events[..i], oks) + if events[i].Request? && ok then [events[i].a] else []
  {
    assert events[..i + 1][..i] == events[..i] && (oks + [ok])[..i] == oks;
  }

  ghost predicate Told(calls: seq<nat>, ai: nat)
  {
    ai < |calls| && calls[ai] == 1
  }

  /** Those who waited, and the front sender, have been told once they are on no list. */
  lemma LostAreTold(n: nat, recving: seq<Waiting>, sending: seq<SendElem>, calls: seq<nat>,
                    sending': seq<SendElem>, calls': seq<nat>)
    requires Accounted(n, recving, sending, calls) && Accounted(n, [], sending', calls')
             && Suffix(sending', Rest(sending))
    ensures forall i :: 0 <= i < |recving| ==> Told(calls', recving[i].ai)
    ensures sending != [] ==> Told(calls', sending[0].ai)
  {
    hide Accounted, ListOrder, Told, Suffix;
    AccountedKnows(n, recving, sending, calls);
    forall i | 0 <= i < |recving|
      ensures Told(calls', recving[i].ai)
    {
      AheadOf(recving, sending, sending', recving[i].ai);
      OffTheList(n, sending', calls', recving[i].ai);
    }
    if sending != [] {
      AheadOf(recving, sending, sending', sending[0].ai);
      OffTheList(n, sending', calls', sending[0].ai);
    }
  }

  lemma AccountedKnows(n: nat, recving: seq<Waiting>, sending: seq<SendElem>, calls: seq<nat>)
    requires Accounted(n, recving, sending, calls)
    ensures ListOrder(recving, sending) && (forall i :: 0 <= i < |recving| ==> recving[i].ai < n)
    ensures sending != [] ==> sending[0].ai < n
  {
    hide ListOrder, Outstanding;
  }

  /** Those who waited and the front sender come before whoever is left. */
  lemma AheadOf(recving: seq<Waiting>, sending: seq<SendElem>, sending': seq<SendElem>, id: nat)
    requires ListOrder(recving, sending) && Suffix(sending', Rest(sending))
    requires (exists i :: 0 <= i < |recving| && recving[i].ai == id) || (sending != [] && sending[0].ai == id)
    ensures forall j :: 0 <= j < |sending'| ==> id < sending'[j].ai
  {
    forall j | 0 <= j < |sending'|
      ensures id < sending'[j].ai
    {
      var k := |sending| - |sending'| + j;
      assert sending'[j] == Rest(sending)[k - 1] == sending[k];
    }
  }

  lemma OffTheList(n: nat, sending: seq<SendElem>, calls: seq<nat>, id: nat)
    requires Accounted(n, [], sending, calls) && id < n && forall j :: 0 <= j < |sending| ==> id < sending[j].ai
    ensures Told(calls, id)
  {
    hide ListOrder;
  }

  lemma OnlyFrontPartWay(accepted: seq<Action>, sending: seq<SendElem>, pending: seq<Byte>, connected: bool,
                         wire: seq<Byte>, ids: seq<nat>, k: nat)
    requires Framed(accepted, sending, pending, connected, wire, ids) && k < |sending|
    ensures sending[k].sent != 0 ==> k == 0
  {
    hide SendOrder, OnTheWire, Known;
  }

  lemma NobodyLive(recving: seq<Waiting>, sending: seq<SendElem>, seqno: int)
    requires forall i :: 0 <= i < |recving| ==> recving[i].seqno != seqno
    requires forall i :: 0 <= i < |sending| ==> sending[i].seqno != seqno
    ensures forall ai :: !Live(recving, sending, seqno, ai)
  {
  }

  /** At most one action is live under a sequence number. */
  lemma OnlyOneLive(n: nat, recving: seq<Waiting>, sending: seq<SendElem>, calls: seq<nat>, seqno: int, ai: nat)
    requires Accounted(n, recving, sending, calls)
    ensures Live(recving, sending, seqno, ai) ==>
              ai < |calls| && calls[ai] == 0 && forall x :: Live(recving, sending, seqno, x) ==> x == ai
  {
  }

  lemma MoreTold(n: nat, recving: seq<Waiting>, sending: seq<SendElem>, calls: seq<nat>, k: nat)
    requires Accounted(n, recving, sending, calls) && k < |recving|
    ensures recving[k].ai < |calls| && More(calls, calls) && More(calls, Called(calls, recving[k].ai))
  {
  }

  lemma StaysTold(n: nat, recving: seq<Waiting>, sending: seq<SendElem>, calls: seq<nat>, calls': seq<nat>, ai: nat)
    requires Told(calls, ai) && More(calls, calls') && Accounted(n, recving, sending, calls')
    ensures Told(calls', ai)
  {
  }

  /** What happens, with what the sockets and the plugin come to in it. */
  datatype Event =
    | Request(a: Action, opens: seq<OpenOutcome>, sends: seq<IoOutcome>)
    | Readable(got: RecvOutcome, answers: seq<Measured>, opens: seq<OpenOutcome>)
    | Writable(failed: bool, sends: seq<IoOutcome>, opens: seq<OpenOutcome>)
    | Hangup(opens: seq<OpenOutcome>)
    | Timer(seqno: int, opens: seq<OpenOutcome>)

  /** The bytes received are split into `n` packets: each is handed to the first action that waits for its number, and
      nobody else is told; what is left of the bytes stays, unless nobody waits any more. If the plugin's answer is no
      length the connection is lost. */
  ghost predicate Responded(v: View, answers: seq<Measured>, opens: seq<OpenOutcome>, isTcp: bool, ret: int, n: nat,
                            v': View)
  {
    && n <= |answers| && (forall i :: 0 <= i < n ==> Splits(v.recving, |v.rBuf|, answers, i))
    && v'.answered == v.answered + Handed(v.recving, answers[..n])
    && if ret == 0 then
         && Stops(v.recving, |v.rBuf|, answers, n) && v'.recving == Left(v.recving, answers[..n])
         && v'.sending == v.sending && v'.conn == v.conn && OnlyTold(v.calls, v'.calls, Handed(v.recving, answers[..n]))
         && 0 <= Length(answers[..n]) <= |v.rBuf| && v'.timeouts == (if n > 0 then 0 else v.timeouts)
         && v'.rBuf == (if n > 0 && v'.recving == [] then [] else v.rBuf[Length(answers[..n])..])
       else
         && Spoils(v.recving, |v.rBuf|, answers, n)
         && Broken(Left(v.recving, answers[..n]), v.sending, opens, isTcp, v'.recving, v'.sending, v'.calls)
  }

  /** What comes of reading a socket while somebody waits. */
  ghost predicate Received(v: View, got: RecvOutcome, answers: seq<Measured>, opens: seq<OpenOutcome>, isTcp: bool,
                           ret: int, n: nat, v': View)
  {
    match got
    case NothingYet => ret == 0 && n == 0 && v' == v
    case Bytes(data) => Responded(v.(rBuf := v.rBuf + data), answers, opens, isTcp, ret, n, v')
    case _ =>
      && ret == -1 && n == 0 && v'.answered == v.answered
      && Broken(v.recving, v.sending, opens, isTcp, v'.recving, v'.sending, v'.calls)
  }

  /** What each event does. */
  ghost predicate Stepped(isTcp: bool, limit: nat, v: View, e: Event, ok: bool, v': View)
  {
    && v'.accepted == v.accepted + (if e.Request? && ok then [e.a] else []) && (!ok ==> v' == v)
    && (!e.Readable? ==> v'.answered == v.answered)
    && match e
       case Request(a, opens, sends) =>
         && (ok <==> !InUse(v.recving, v.sending, a.seqno))
         && (ok ==> Requested(isTcp, v, a, opens, sends, v'))
       case Readable(got, answers, opens) =>
         if v.recving == [] then
           v'.answered == v.answered && Broken(v.recving, v.sending, opens, isTcp, v'.recving, v'.sending, v'.calls)
         else exists ret, n :: Received(v, got, answers, opens, isTcp, ret, n, v')
       case Writable(failed, sends, opens) =>
         if v.conn == Unconnected || (v.conn == Connecting && failed) then
           Broken(v.recving, v.sending, opens, isTcp, v'.recving, v'.sending, v'.calls)
         else Offers(v.recving, v.sending, v.calls, sends, opens, isTcp, v')
       case Hangup(opens) => Broken(v.recving, v.sending, opens, isTcp, v'.recving, v'.sending, v'.calls)
       case Timer(seqno, opens) =>
         && (ok <==> v.sending == [] || v.sending[0].live || v.sending[0].seqno != seqno)
         && (ok ==> forall ai :: Live(v.recving, v.sending, seqno, ai) ==> Told(v'.calls, ai))
         && (ok ==> Expires(isTcp, limit, v, seqno, opens, v'))
  }

  ghost predicate StepAt(isTcp: bool, limit: nat, trace: seq<View>, events: seq<Event>, oks: seq<bool>, k: nat)
  {
    k < |events| && k < |oks| && k + 1 < |trace| && Stepped(isTcp, limit, trace[k], events[k], oks[k], trace[k + 1])
  }

  /** The states a run goes through. */
  ghost predicate RunOf(isTcp: bool, limit: nat, trace: seq<View>, events: seq<Event>, oks: seq<bool>)
  {
    |oks| == |events| && |trace| == |events| + 1 &&
    forall k :: 0 <= k < |events| ==> StepAt(isTcp, limit, trace, events, oks, k)
  }

  ghost predicate Steps(isTcp: bool, limit: nat, trace: seq<View>, events: seq<Event>, oks: seq<bool>)
  {
    |trace| == |oks| + 1 && |oks| <= |events| &&
    forall k :: 0 <= k < |oks| ==> StepAt(isTcp, limit, trace, events, oks, k)
  }

  lemma StepsNone(isTcp: bool, limit: nat, v: View, events: seq<Event>)
    ensures Steps(isTcp, limit, [v], events, [])
  {
  }

  lemma StepsMore(isTcp: bool, limit: nat, trace: seq<View>, events: seq<Event>, oks: seq<bool>, ok: bool, v: View)
    requires Steps(isTcp, limit, trace, events, oks) && |oks| < |events|
    requires Stepped(isTcp, limit, trace[|oks|], events[|oks|], ok, v)
    ensures Steps(isTcp, limit, trace + [v], events, oks + [ok])
  {
    hide Stepped;
    forall k | 0 <= k < |oks| + 1
      ensures StepAt(isTcp, limit, trace + [v], events, oks + [ok], k)
    {
      if k < |oks| {
        assert StepAt(isTcp, limit, trace, events, oks, k);
      }
    }
  }

  lemma StepsAll(isTcp: bool, limit: nat, trace: seq<View>, events: seq<Event>, oks: seq<bool>)
    requires Steps(isTcp, limit, trace, events, oks) && |oks| == |events|
    ensures RunOf(isTcp, limit, trace, events, oks)
  {
    hide Stepped;
  }

  lemma NoResponses(recving: seq<Waiting>)
    ensures Length([]) == 0 && Left(recving, []) == recving && Handed(recving, []) == []
  {
  }

  lemma SplitsOne(recving: seq<Waiting>, size: nat, answers: seq<Measured>, i: nat)
    requires i < |answers| && 0 < answers[i].len <= size - Length(answers[..i]) && Left(recving, answers[..i]) != []
    ensures Splits(recving, size, answers, i)
  {
  }

  lemma AllWholeStable(accepted: seq<Action>, a: Action, ended: seq<Ended>)
    requires AllWhole(accepted, ended)
    ensures AllWhole(accepted + [a], ended)
  {
    forall i | 0 <= i < |ended|
      ensures WholePackets(accepted + [a], ended[i].wire, ended[i].ids)
    {
      WholePacketsStable(accepted, a, ended[i].wire, ended[i].ids);
    }
  }

  /** What a valid handler promises: on every connection, past and present, the bytes written are whole
      packets in the order of submission up to a cut in the last; later connections have later actions, so that no
      packet is on two of them; only the front element can be part-way
      or use the pending buffer; and every action has had one callback, or none while it is on a list. */
  lemma ValidMeans(h: CParallelNetHandler)
    requires h.Valid()
    ensures WholePackets(h.accepted, h.wire, OnWire(h.ids, h.sending))
    ensures forall i :: 0 <= i < |h.ended| ==> WholePackets(h.accepted, h.ended[i].wire, h.ended[i].ids)
    ensures forall i, j, x, y :: 0 <= i < j < |h.ended| && x in h.ended[i].ids && y in h.ended[j].ids ==> x < y
    ensures forall i, x, y :: 0 <= i < |h.ended| && x in h.ended[i].ids && y in OnWire(h.ids, h.sending) ==> x < y
    ensures forall i :: 1 <= i < |h.sending| ==> h.sending[i].sent == 0 && !h.sending[i].inPending && h.sending[i].live
    ensures h.connState != Connected ==>
            h.wire == [] && (h.sending != [] ==> h.sending[0].sent == 0 && h.sending[0].live)
    ensures |h.calls| == |h.accepted|
    ensures forall id :: 0 <= id < |h.calls| ==> h.calls[id] == if Outstanding(h.recving, h.sending, id) then 0 else 1
    ensures h.Idle() ==> forall id :: 0 <= id < |h.calls| ==> h.calls[id] == 1
  {
    hide Once;
    FramedIsWholePackets(h.accepted, h.sending, h.pending, h.connState == Connected, h.wire, h.ids);
    OnceMeans(h.accepted, h.ended, h.ids, h.sending);
    if h.connState != Connected && h.sending != [] {
      assert Behind(h.accepted, h.sending, 0);
    }
  }
}
