/** The two lists of a parallel connection and the bytes it has put on the wire, as values. */
module ParallelLists {
  import opened Bytes
  import opened Connections
  import opened Seqs

  /** A request handed to the handler: its sequence number and its encoded packet. */
  datatype Action = Action(seqno: int, packet: seq<Byte>)

  /** send_elem_t. `ai` is the action (its place in the order of submission); `live` is false once the
      action has been given up and only its bytes remain (the source's `ac == NULL`); `inPending` says
      that buf points to the pending buffer instead of the action's own. */
  datatype SendElem = SendElem(seqno: int, ai: nat, live: bool, inPending: bool, len: nat, sent: nat)

  /** CActionContext on the receiving list. */
  datatype Waiting = Waiting(seqno: int, ai: nat)

  function Fresh(accepted: seq<Action>, ai: nat): SendElem
    requires ai < |accepted|
  {
    SendElem(accepted[ai].seqno, ai, true, false, |accepted[ai].packet|, 0)
  }

  /** The bytes DoSend offers to the socket for the front element. */
  function Offer(accepted: seq<Action>, pending: seq<Byte>, e: SendElem): seq<Byte>
    requires e.ai < |accepted| && e.sent <= e.len
    requires e.len <= if e.inPending then |pending| else |accepted[e.ai].packet|
  {
    (if e.inPending then pending else accepted[e.ai].packet)[e.sent..e.len]
  }

  /** The packets of some actions, one after the other. */
  function Packets(accepted: seq<Action>, ids: seq<nat>): seq<Byte>
    requires forall i :: 0 <= i < |ids| ==> ids[i] < |accepted|
  {
    if ids == [] then [] else
      var last := |ids| - 1;
      Packets(accepted, ids[..last]) + accepted[ids[last]].packet
  }

  ghost predicate Increasing(ids: seq<nat>)
  {
    forall i, j :: 0 <= i < j < |ids| ==> ids[i] < ids[j]
  }

  // ---- what is on the wire ----

  /** The front element may be part-way through its packet, in its own buffer or, given up, in the
      pending buffer; what it still offers is the end of its packet. */
  ghost predicate FrontOk(accepted: seq<Action>, pending: seq<Byte>, e: SendElem)
  {
    && e.ai < |accepted| && e.sent <= e.len && e.inPending == !e.live
    && var p := accepted[e.ai].packet;
    && (e.live ==> e.len == |p|)
    && (!e.live ==> e.len <= |pending| && e.len <= |p| && pending[..e.len] == p[|p| - e.len..])
  }

  /** Bytes of its packet the front element has already put on the wire. */
  function Written(accepted: seq<Action>, e: SendElem): (n: nat)
    requires e.ai < |accepted| && e.sent <= e.len <= |accepted[e.ai].packet|
  {
    |accepted[e.ai].packet| - (e.len - e.sent)
  }

  ghost predicate Behind(accepted: seq<Action>, sending: seq<SendElem>, from: nat)
  {
    forall i :: from <= i < |sending| ==> sending[i].ai < |accepted| && sending[i] == Fresh(accepted, sending[i].ai)
  }

  ghost predicate SendOrder(ids: seq<nat>, sending: seq<SendElem>)
  {
    && (forall i, j :: 0 <= i < j < |ids| ==> ids[i] < ids[j])
    && (forall i, j :: 0 <= i < j < |sending| ==> sending[i].ai < sending[j].ai)
    && (forall i, j :: 0 <= i < |ids| && 0 <= j < |sending| ==> ids[i] < sending[j].ai)
  }

  ghost predicate Known(accepted: seq<Action>, ids: seq<nat>)
  {
    forall i :: 0 <= i < |ids| ==> ids[i] < |accepted|
  }

  /** `wire`, the bytes of this connection, are the whole packets of `ids` and then the part of the front
      element's packet it has written; without a connection there are none and no element is part-way. */
  ghost predicate Framed(accepted: seq<Action>, sending: seq<SendElem>, pending: seq<Byte>,
                         connected: bool, wire: seq<Byte>, ids: seq<nat>)
  {
    && Known(accepted, ids) && SendOrder(ids, sending)
    && Behind(accepted, sending, 1)
    && (!connected ==> ids == [] && Behind(accepted, sending, 0))
    && OnTheWire(accepted, sending, pending, wire, ids)
  }

  ghost predicate OnTheWire(accepted: seq<Action>, sending: seq<SendElem>, pending: seq<Byte>, wire: seq<Byte>,
      ids: seq<nat>)
    requires Known(accepted, ids)
  {
    && (sending == [] ==> wire == Packets(accepted, ids))
    && (sending != [] ==>
          && var e := sending[0];
          && FrontOk(accepted, pending, e)
          && wire == Packets(accepted, ids) + accepted[e.ai].packet[..Written(accepted, e)])
  }

  /** Some bytes are a prefix of whole packets of distinct actions in the order they were submitted. */
  ghost predicate WholePackets(accepted: seq<Action>, wire: seq<Byte>, ids: seq<nat>)
  {
    Known(accepted, ids) && Increasing(ids) && wire <= Packets(accepted, ids)
  }

  /** The connection's actions, the front one included. */
  function OnWire(ids: seq<nat>, sending: seq<SendElem>): seq<nat>
  {
    if sending == [] then ids else ids + [sending[0].ai]
  }

  lemma PacketsOneMore(accepted: seq<Action>, ids: seq<nat>, ai: nat)
    requires Known(accepted, ids) && ai < |accepted|
    ensures Packets(accepted, ids + [ai]) == Packets(accepted, ids) + accepted[ai].packet
  {
    assert (ids + [ai])[..|ids|] == ids;
  }

  lemma {:induction false} PacketsStable(accepted: seq<Action>, a: Action, ids: seq<nat>)
    requires Known(accepted, ids)
    ensures Packets(accepted + [a], ids) == Packets(accepted, ids)
  {
    if ids != [] {
      PacketsStable(accepted, a, ids[..|ids| - 1]);
    }
  }

  lemma FramedIsWholePackets(accepted: seq<Action>, sending: seq<SendElem>, pending: seq<Byte>,
                             connected: bool, wire: seq<Byte>, ids: seq<nat>)
    requires Framed(accepted, sending, pending, connected, wire, ids)
    ensures WholePackets(accepted, wire, OnWire(ids, sending))
  {
    if sending != [] {
      PacketsOneMore(accepted, ids, sending[0].ai);
    }
  }

  lemma WholePacketsStable(accepted: seq<Action>, a: Action, wire: seq<Byte>, ids: seq<nat>)
    requires WholePackets(accepted, wire, ids)
    ensures WholePackets(accepted + [a], wire, ids)
  {
    PacketsStable(accepted, a, ids);
  }

  lemma OrderCut(ids: seq<nat>, sending: seq<SendElem>, k: nat)
    requires SendOrder(ids, sending) && k < |sending|
    ensures SendOrder(ids, Cut(sending, k))
  {
  }

  lemma OrderSent(ids: seq<nat>, sending: seq<SendElem>)
    requires SendOrder(ids, sending) && sending != []
    ensures SendOrder(ids + [sending[0].ai], sending[1..])
  {
  }

  lemma BehindCut(accepted: seq<Action>, sending: seq<SendElem>, k: nat, from: nat)
    requires Behind(accepted, sending, from) && k < |sending|
    ensures Behind(accepted, Cut(sending, k), from)
    ensures k == 0 && from == 1 ==> Behind(accepted, Cut(sending, k), 0)
  {
  }

  /** An element that has sent nothing is the front of nothing yet. */
  lemma FreshFront(accepted: seq<Action>, sending: seq<SendElem>, pending: seq<Byte>, ids: seq<nat>)
    requires Known(accepted, ids) && Behind(accepted, sending, 0)
    ensures OnTheWire(accepted, sending, pending, Packets(accepted, ids), ids)
  {
    if sending != [] {
      assert accepted[sending[0].ai].packet[..0] == [];
    }
  }

  /** A connection comes up: nothing has been written on it yet. */
  lemma Connects(accepted: seq<Action>, sending: seq<SendElem>, pending: seq<Byte>, wire: seq<Byte>, ids: seq<nat>)
    requires Framed(accepted, sending, pending, false, wire, ids)
    ensures Framed(accepted, sending, pending, true, wire, ids)
  {
  }

  /** What the front element offers is the next part of its packet. */
  lemma OfferIsNext(accepted: seq<Action>, pending: seq<Byte>, e: SendElem)
    requires FrontOk(accepted, pending, e)
    ensures Offer(accepted, pending, e) == accepted[e.ai].packet[Written(accepted, e)..]
  {
    var p := accepted[e.ai].packet;
    if !e.live {
      assert pending[e.sent..e.len] == pending[..e.len][e.sent..];
    }
  }

  lemma FrontChanged(accepted: seq<Action>, ids: seq<nat>, sending: seq<SendElem>, e: SendElem)
    requires SendOrder(ids, sending) && Behind(accepted, sending, 1) && sending != [] && e.ai == sending[0].ai
    ensures SendOrder(ids, sending[0 := e]) && Behind(accepted, sending[0 := e], 1)
  {
  }

  /** The socket took `r` bytes but not all. */
  lemma SentPart(accepted: seq<Action>, sending: seq<SendElem>, pending: seq<Byte>,
                 wire: seq<Byte>, ids: seq<nat>, r: nat)
    requires Framed(accepted, sending, pending, true, wire, ids) && sending != []
    requires sending[0].sent + r <= sending[0].len
    ensures var e := sending[0];
            Framed(accepted, sending[0 := e.(sent := e.sent + r)], pending, true,
                   wire + Offer(accepted, pending, e)[..r], ids)
  {
    hide SendOrder, Behind, Packets;
    var e := sending[0];
    FrontChanged(accepted, ids, sending, e.(sent := e.sent + r));
    var p, w := accepted[e.ai].packet, Written(accepted, e);
    OfferIsNext(accepted, pending, e);
    assert p[..w] + p[w..][..r] == p[..w + r];
    assert Packets(accepted, ids) + p[..w] + p[w..][..r] == Packets(accepted, ids) + p[..w + r];
  }

  /** The front element's last byte is out. */
  lemma SentAll(accepted: seq<Action>, sending: seq<SendElem>, pending: seq<Byte>, wire: seq<Byte>, ids: seq<nat>)
    requires Framed(accepted, sending, pending, true, wire, ids) && sending != []
    requires sending[0].sent == sending[0].len
    ensures Framed(accepted, sending[1..], pending, true, wire, ids + [sending[0].ai])
  {
    hide SendOrder, Behind, Packets;
    var e := sending[0];
    var p := accepted[e.ai].packet;
    assert p[..Written(accepted, e)] == p;
    PacketsOneMore(accepted, ids, e.ai);
    assert Cut(sending, 0) == sending[1..];
    OrderSent(ids, sending);
    BehindCut(accepted, sending, 0, 1);
    hide OnTheWire, FrontOk;
    FreshFront(accepted, sending[1..], pending, ids + [e.ai]);
    BehindLess(accepted, sending[1..]);
  }

  lemma BehindLess(accepted: seq<Action>, sending: seq<SendElem>)
    requires Behind(accepted, sending, 0)
    ensures Behind(accepted, sending, 1)
  {
  }

  function Rest(sending: seq<SendElem>): seq<SendElem>
  {
    if sending == [] then [] else sending[1..]
  }

  /** The connection is gone and the front element with it. */
  lemma Disconnected(accepted: seq<Action>, sending: seq<SendElem>, pending: seq<Byte>,
                     connected: bool, wire: seq<Byte>, ids: seq<nat>)
    requires Framed(accepted, sending, pending, connected, wire, ids)
    ensures Framed(accepted, Rest(sending), pending, false, [], [])
  {
    hide SendOrder, Behind, OnTheWire;
    if sending != [] {
      assert Cut(sending, 0) == sending[1..];
      OrderCut(ids, sending, 0);
      BehindCut(accepted, sending, 0, 1);
    } else {
      NothingBehind(accepted);
    }
    OrderNone(ids, Rest(sending));
    BehindLess(accepted, Rest(sending));
    FreshFront(accepted, Rest(sending), pending, []);
  }

  lemma NothingBehind(accepted: seq<Action>)
    ensures Behind(accepted, [], 0)
  {
  }

  lemma OrderNone(ids: seq<nat>, sending: seq<SendElem>)
    requires SendOrder(ids, sending)
    ensures SendOrder([], sending)
  {
  }

  /** A new element at the end of the list. */
  lemma Pushed(accepted: seq<Action>, sending: seq<SendElem>, pending: seq<Byte>,
               connected: bool, wire: seq<Byte>, ids: seq<nat>, a: Action)
    requires Framed(accepted, sending, pending, connected, wire, ids)
    ensures Framed(accepted + [a], sending + [Fresh(accepted + [a], |accepted|)], pending, connected, wire, ids)
  {
    hide SendOrder, Behind;
    var acc, s := accepted + [a], sending + [Fresh(accepted + [a], |accepted|)];
    PacketsStable(accepted, a, ids);
    OrderPushed(accepted, ids, sending, s[|sending|]);
    BehindPushed(accepted, sending, a, 1);
    if !connected {
      BehindPushed(accepted, sending, a, 0);
    }
    if sending == [] {
      assert a.packet[..0] == [];
    } else {
      assert s[0] == sending[0];
    }
  }

  lemma OrderPushed(accepted: seq<Action>, ids: seq<nat>, sending: seq<SendElem>, e: SendElem)
    requires SendOrder(ids, sending) && Known(accepted, ids) && e.ai == |accepted|
    requires sending != [] ==> sending[0].ai < |accepted|
    requires Behind(accepted, sending, 1)
    ensures SendOrder(ids, sending + [e])
  {
  }

  lemma BehindPushed(accepted: seq<Action>, sending: seq<SendElem>, a: Action, from: nat)
    requires Behind(accepted, sending, from)
    ensures Behind(accepted + [a], sending + [Fresh(accepted + [a], |accepted|)], from)
  {
    var acc, s := accepted + [a], sending + [Fresh(accepted + [a], |accepted|)];
    forall i | from <= i < |s|
      ensures s[i].ai < |acc| && s[i] == Fresh(acc, s[i].ai)
    {
      assert i < |sending| ==> s[i] == sending[i] == Fresh(accepted, s[i].ai);
    }
  }

  /** An element that has sent nothing leaves the list. */
  lemma Removed(accepted: seq<Action>, sending: seq<SendElem>, pending: seq<Byte>,
                connected: bool, wire: seq<Byte>, ids: seq<nat>, k: nat)
    requires Framed(accepted, sending, pending, connected, wire, ids)
    requires k < |sending| && sending[k].live && sending[k].sent == 0
    ensures Framed(accepted, sending[..k] + sending[k + 1..], pending, connected, wire, ids)
  {
    hide SendOrder, Behind, Packets;
    var s := Cut(sending, k);
    assert s == sending[..k] + sending[k + 1..];
    OrderCut(ids, sending, k);
    BehindCut(accepted, sending, k, 1);
    if !connected {
      BehindCut(accepted, sending, k, 0);
    }
    if k == 0 {
      assert accepted[sending[0].ai].packet[..0] == [];
      assert wire == Packets(accepted, ids);
      FreshFront(accepted, s, pending, ids);
    }
  }

  /** A half-sent front element is given up: the rest of its bytes move to the pending buffer. */
  lemma GivenUp(accepted: seq<Action>, sending: seq<SendElem>, pending: seq<Byte>, pending': seq<Byte>,
                connected: bool, wire: seq<Byte>, ids: seq<nat>)
    requires Framed(accepted, sending, pending, connected, wire, ids) && sending != []
    requires sending[0].live && sending[0].sent != 0
    requires var left := sending[0].len - sending[0].sent;
             left <= |pending'| && pending'[..left] == Offer(accepted, pending, sending[0])
    ensures var e := sending[0];
            Framed(accepted, sending[0 := e.(live := false, inPending := true, len := e.len - e.sent, sent := 0)],
                   pending', connected, wire, ids)
  {
    OfferIsNext(accepted, pending, sending[0]);
  }

  // ---- who has been told ----

  /** Both lists hold actions in the order of submission, receiving before sending, and no two elements
      share a sequence number. */
  ghost predicate ListOrder(recving: seq<Waiting>, sending: seq<SendElem>)
  {
    && (forall i, j :: 0 <= i < j < |recving| ==>
          recving[i].ai < recving[j].ai && recving[i].seqno != recving[j].seqno)
    && (forall i, j :: 0 <= i < j < |sending| ==>
          sending[i].ai < sending[j].ai && sending[i].seqno != sending[j].seqno)
    && (forall i, j :: 0 <= i < |recving| && 0 <= j < |sending| ==>
          recving[i].ai < sending[j].ai && recving[i].seqno != sending[j].seqno)
  }

  /** Action `id` is still on one of the lists. */
  ghost predicate Outstanding(recving: seq<Waiting>, sending: seq<SendElem>, id: nat)
  {
    || (exists i :: 0 <= i < |recving| && recving[i].ai == id)
    || (exists i :: 0 <= i < |sending| && sending[i].live && sending[i].ai == id)
  }

  /** Of `n` accepted actions each has had one callback, or none while it is outstanding. */
  ghost predicate Accounted(n: nat, recving: seq<Waiting>, sending: seq<SendElem>, calls: seq<nat>)
  {
    && |calls| == n && ListOrder(recving, sending)
    && (forall i :: 0 <= i < |recving| ==> recving[i].ai < n)
    && (forall i :: 0 <= i < |sending| ==> sending[i].ai < n)
    && (forall id :: 0 <= id < n ==> calls[id] == if Outstanding(recving, sending, id) then 0 else 1)
  }

  lemma AccountPush(n: nat, recving: seq<Waiting>, sending: seq<SendElem>, calls: seq<nat>, e: SendElem)
    requires Accounted(n, recving, sending, calls) && e.ai == n && e.live
    requires forall i :: 0 <= i < |recving| ==> recving[i].seqno != e.seqno
    requires forall i :: 0 <= i < |sending| ==> sending[i].seqno != e.seqno
    ensures Accounted(n + 1, recving, sending + [e], calls + [0])
  {
    var s := sending + [e];
    assert s[|sending|] == e;
    forall id | 0 <= id < n
      ensures Outstanding(recving, s, id) == Outstanding(recving, sending, id)
    {
      if i :| 0 <= i < |sending| && sending[i].live && sending[i].ai == id {
        assert s[i] == sending[i];
      }
    }
  }

  /** The front element has been sent: its action waits for the response, or nobody does. */
  lemma AccountSent(n: nat, recving: seq<Waiting>, sending: seq<SendElem>, calls: seq<nat>)
    requires Accounted(n, recving, sending, calls) && sending != []
    ensures var e := sending[0];
            Accounted(n, if e.live then recving + [Waiting(e.seqno, e.ai)] else recving, sending[1..], calls)
  {
    var e, s := sending[0], sending[1..];
    var r := if e.live then recving + [Waiting(e.seqno, e.ai)] else recving;
    assert forall i :: 0 <= i < |s| ==> s[i] == sending[i + 1];
    forall id | 0 <= id < n
      ensures Outstanding(r, s, id) == Outstanding(recving, sending, id)
    {
      if i :| 0 <= i < |sending| && sending[i].live && sending[i].ai == id {
        assert if i == 0 then r[|recving|].ai == id else s[i - 1] == sending[i];
      } else if i :| 0 <= i < |recving| && recving[i].ai == id {
        assert r[i] == recving[i];
      }
    }
  }

  lemma AccountProgress(n: nat, recving: seq<Waiting>, sending: seq<SendElem>, calls: seq<nat>, e: SendElem)
    requires Accounted(n, recving, sending, calls) && sending != []
    requires e.ai == sending[0].ai && e.seqno == sending[0].seqno && e.live == sending[0].live
    ensures Accounted(n, recving, sending[0 := e], calls)
  {
    var s := sending[0 := e];
    forall id | 0 <= id < n
      ensures Outstanding(recving, s, id) == Outstanding(recving, sending, id)
    {
      if i :| 0 <= i < |sending| && sending[i].live && sending[i].ai == id {
        assert s[i].live && s[i].ai == id;
      }
    }
  }

  lemma ListsCutWaiting(recving: seq<Waiting>, sending: seq<SendElem>, k: nat)
    requires ListOrder(recving, sending) && k < |recving|
    ensures ListOrder(Cut(recving, k), sending)
    ensures forall i :: 0 <= i < |recving| && i != k ==> recving[i].ai != recving[k].ai
    ensures forall i :: 0 <= i < |sending| ==> sending[i].ai != recving[k].ai
  {
  }

  lemma ListsCutSending(recving: seq<Waiting>, sending: seq<SendElem>, k: nat)
    requires ListOrder(recving, sending) && k < |sending|
    ensures ListOrder(recving, Cut(sending, k))
    ensures forall i :: 0 <= i < |sending| && i != k ==> sending[i].ai != sending[k].ai
    ensures forall i :: 0 <= i < |recving| ==> recving[i].ai != sending[k].ai
  {
  }

  /** A waiting action is told and leaves the receiving list. */
  lemma AccountWaiting(n: nat, recving: seq<Waiting>, sending: seq<SendElem>, calls: seq<nat>, k: nat)
    requires Accounted(n, recving, sending, calls) && k < |recving|
    ensures recving[k].ai < |calls|
    ensures Accounted(n, recving[..k] + recving[k + 1..], sending, Called(calls, recving[k].ai))
  {
    hide ListOrder;
    var r := Cut(recving, k);
    assert r == recving[..k] + recving[k + 1..];
    ListsCutWaiting(recving, sending, k);
    forall id | 0 <= id < n
      ensures Outstanding(r, sending, id) == (Outstanding(recving, sending, id) && id != recving[k].ai)
    {
      if i :| 0 <= i < |recving| && i != k && recving[i].ai == id {
        assert r[if i < k then i else i - 1] == recving[i];
      }
    }
  }

  /** A sending action is told and its element leaves the list. */
  lemma AccountSending(n: nat, recving: seq<Waiting>, sending: seq<SendElem>, calls: seq<nat>, k: nat)
    requires Accounted(n, recving, sending, calls) && k < |sending|
    ensures sending[k].ai < |calls|
    ensures Accounted(n, recving, sending[..k] + sending[k + 1..],
                      if sending[k].live then Called(calls, sending[k].ai) else calls)
  {
    hide ListOrder;
    var s := Cut(sending, k);
    assert s == sending[..k] + sending[k + 1..];
    ListsCutSending(recving, sending, k);
    forall id | 0 <= id < n
      ensures Outstanding(recving, s, id) ==
              (Outstanding(recving, sending, id) && (sending[k].live ==> id != sending[k].ai))
    {
      if i :| 0 <= i < |sending| && i != k && sending[i].live && sending[i].ai == id {
        assert s[if i < k then i else i - 1] == sending[i];
      }
    }
  }

  lemma AccountFront(n: nat, recving: seq<Waiting>, sending: seq<SendElem>, calls: seq<nat>)
    requires Accounted(n, recving, sending, calls) && sending != []
    ensures Accounted(n, recving, Rest(sending), if sending[0].live then Called(calls, sending[0].ai) else calls)
  {
    AccountSending(n, recving, sending, calls, 0);
    assert sending[..0] + sending[1..] == Rest(sending);
  }

  /** The front action is told but its element stays, to finish its packet. */
  lemma AccountGivenUp(n: nat, recving: seq<Waiting>, sending: seq<SendElem>, calls: seq<nat>, e: SendElem)
    requires Accounted(n, recving, sending, calls) && sending != [] && sending[0].live
    requires e.ai == sending[0].ai && e.seqno == sending[0].seqno && !e.live
    ensures e.ai < |calls| && Accounted(n, recving, sending[0 := e], Called(calls, e.ai))
  {
    var s := sending[0 := e];
    forall id | 0 <= id < n
      ensures Outstanding(recving, s, id) == (Outstanding(recving, sending, id) && id != e.ai)
    {
      if i :| 0 < i < |sending| && sending[i].live && sending[i].ai == id {
        assert s[i] == sending[i];
      }
    }
  }

  // ---- one round of sending ----

  /** The actions of some elements. */
  function Ais(sending: seq<SendElem>): (r: seq<nat>)
    ensures |r| == |sending|
  {
    if sending == [] then [] else Ais(sending[..|sending| - 1]) + [sending[|sending| - 1].ai]
  }

  /** Those of them that wait for a response once sent. */
  function Awaiting(sending: seq<SendElem>): (r: seq<Waiting>)
  {
    if sending == [] then []
    else
      var e := sending[|sending| - 1];
      Awaiting(sending[..|sending| - 1]) + if e.live then [Waiting(e.seqno, e.ai)] else []
  }

  /** The first k elements have gone out, and their actions with them. */
  ghost predicate Flushed(sending: seq<SendElem>, ids: seq<nat>, recving: seq<Waiting>,
                          sending': seq<SendElem>, ids': seq<nat>, recving': seq<Waiting>, k: nat)
  {
    GoneOut(sending, recving, sending', recving', k) && ids' == ids + Ais(sending[..k])
  }

  /** The first k elements have gone out, in order, and the live ones now wait; of the rest only the front one has
      changed, and only in how much of it is sent. */
  ghost predicate GoneOut(sending: seq<SendElem>, recving: seq<Waiting>, sending': seq<SendElem>,
                          recving': seq<Waiting>, k: nat)
  {
    && k <= |sending| && |sending'| == |sending| - k && recving' == recving + Awaiting(sending[..k])
    && (forall i :: 1 <= i < |sending'| ==> sending'[i] == sending[k + i])
    && (sending' != [] ==> sending'[0] == sending[k].(sent := sending'[0].sent) && sending[k].sent <= sending'[0].sent)
  }

  lemma FlushedNone(sending: seq<SendElem>, ids: seq<nat>, recving: seq<Waiting>)
    ensures Flushed(sending, ids, recving, sending, ids, recving, 0)
  {
    assert ids + [] == ids && recving + [] == recving;
  }

  lemma FlushedPart(sending: seq<SendElem>, ids: seq<nat>, recving: seq<Waiting>,
                    sending': seq<SendElem>, ids': seq<nat>, recving': seq<Waiting>, k: nat, n: nat)
    requires Flushed(sending, ids, recving, sending', ids', recving', k) && sending' != []
    ensures var e := sending'[0];
            Flushed(sending, ids, recving, sending'[0 := e.(sent := e.sent + n)], ids', recving', k)
  {
  }

  lemma FlushedMore(sending: seq<SendElem>, ids: seq<nat>, recving: seq<Waiting>,
                    sending': seq<SendElem>, ids': seq<nat>, recving': seq<Waiting>, k: nat)
    requires Flushed(sending, ids, recving, sending', ids', recving', k) && sending' != []
    ensures var e := sending'[0];
            Flushed(sending, ids, recving, sending'[1..], ids' + [e.ai],
                    recving' + (if e.live then [Waiting(e.seqno, e.ai)] else []), k + 1)
  {
    var e := sending[k];
    assert sending[..k + 1][..k] == sending[..k];
    assert ids + Ais(sending[..k]) + [e.ai] == ids + Ais(sending[..k + 1]);
    var more := if e.live then [Waiting(e.seqno, e.ai)] else [];
    assert recving + Awaiting(sending[..k]) + more == recving + Awaiting(sending[..k + 1]);
  }

  /** The socket took n bytes of the front element. */
  lemma FlushedStep(sending: seq<SendElem>, ids: seq<nat>, recving: seq<Waiting>,
                    sending': seq<SendElem>, ids': seq<nat>, recving': seq<Waiting>, k: nat, n: nat)
    requires Flushed(sending, ids, recving, sending', ids', recving', k) && sending' != []
    ensures var e := sending'[0];
            if e.sent + n < e.len
              then Flushed(sending, ids, recving, sending'[0 := e.(sent := e.sent + n)], ids', recving', k)
            else Flushed(sending, ids, recving, sending'[1..], ids' + [e.ai],
                         recving' + (if e.live then [Waiting(e.seqno, e.ai)] else []), k + 1)
  {
    hide Flushed;
    FlushedPart(sending, ids, recving, sending', ids', recving', k, n);
    FlushedMore(sending, ids, recving, sending', ids', recving', k);
  }

  /** What DoSend reads of the front element is inside its buffer. */
  lemma FrontSlice(accepted: seq<Action>, sending: seq<SendElem>, pending: seq<Byte>,
                   connected: bool, wire: seq<Byte>, ids: seq<nat>)
    requires Framed(accepted, sending, pending, connected, wire, ids) && sending != []
    ensures var e := sending[0];
            && e.ai < |accepted| && e.sent <= e.len <= if e.inPending then |pending| else |accepted[e.ai].packet|
  {
  }
}
