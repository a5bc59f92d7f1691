/** CPollerUnit and CPollerObject: slots, sequence numbers and the dispatch of kernel events. `ok` is whether the kernel
    accepts an epoll_ctl; a callback may attach, detach, modify, create and delete objects. */
module Poller {

  import opened IndexChain
  import opened Seqs
  import opened PollerSlots

  const POLLER_SUCC := 0

  /** An event returned by epoll_wait. */
  datatype Event = Event(tag: nat, hangup: bool, input: bool, output: bool)

  /** No slot has moved on by more than n numbers. */
  ghost predicate Moved(stamps: seq<nat>, stamps': seq<nat>, n: nat)
  {
    |stamps'| == |stamps| && forall i :: 0 <= i < |stamps| ==> stamps[i] <= stamps'[i] <= stamps[i] + n
  }

  /** At most one slot moves on, by one number; registrations are only added. */
  ghost predicate Step(stamps: seq<nat>, stamps': seq<nat>, issued: set<Registration>, issued': set<Registration>)
  {
    Moved(stamps, stamps', 1) && issued <= issued'
  }

  /** Each event comes from a registration, and none of their slots can be a full turn ahead within `slack` numbers. */
  ghost predicate Near(events: seq<Event>, from: seq<Registration>, issued: set<Registration>, stamps: seq<nat>,
      slack: nat)
  {
    && |from| == |events|
    && forall k :: 0 <= k < |events| ==>
         && from[k] in issued && events[k].tag == TagOf(from[k])
         && from[k].slot < |stamps| && stamps[from[k].slot] - from[k].stamp + slack < WRAP
  }

  /** Numbers a slot can move on while k events are dispatched: two callbacks of n calls each and one modify per
      event. */
  function Slack(k: nat, n: nat): nat
  {
    if k == 0 then 0 else Slack(k - 1, n) + 2 * n + 1
  }

  datatype Kind = Hangup | Input | Output

  /** A callback of object `p`, which looked like `was` when called. It went well if it returned POLLER_SUCC and left
      the slot of the event to its object. */
  datatype Call = Call(kind: Kind, p: nat, was: Object, well: bool)

  /** The callbacks of one event delivered to object `p`: a hangup is told alone; else input is told before output, and
      output only if the input callback went well. The first finds the events last given to the kernel. */
  ghost predicate Heard(ev: Event, p: nat, calls: seq<Call>)
  {
    var first := if ev.hangup then Hangup else if ev.input then Input else Output;
    && (forall c :: c in calls ==> c.p == p)
    && (calls == [] <==> !ev.hangup && !ev.input && !ev.output)
    && (calls != [] ==> calls[0].kind == first && calls[0].was.newEvents == calls[0].was.oldEvents)
    && (calls != [] ==>
          var second := !ev.hangup && ev.input && ev.output && calls[0].well;
          |calls| == (if second then 2 else 1) && (second ==> calls[1].kind == Output))
  }

  /** All callbacks of an event went well. */
  ghost predicate AllWell(calls: seq<Call>)
  {
    forall c :: c in calls ==> c.well
  }

  /** The kernel has what the object wants, if it has a slot. */
  predicate Watched(o: Object)
  {
    o.epslot == -1 || o.oldEvents == o.newEvents
  }

  function Flat(heard: seq<seq<Call>>): seq<Call>
  {
    if heard == [] then [] else Flat(heard[..|heard| - 1]) + heard[|heard| - 1]
  }

  /** Each event of a batch is delivered exactly when its registration is its slot's latest at its turn; it is then
      told to the object that registered. */
  ghost predicate Batch(events: seq<Event>, from: seq<Registration>, n: nat, told: seq<Option<nat>>,
      seen: seq<seq<nat>>, heard: seq<seq<Call>>)
  {
    && |from| == |told| == |heard| == |events| && |seen| == |events| + 1
    && (forall k :: 0 <= k < |events| ==> Turn(events[k], from[k], n, told[k], seen[k], seen[k + 1], heard[k]))
  }

  ghost predicate Turn(ev: Event, r: Registration, n: nat, told: Option<nat>, stamps: seq<nat>, stamps': seq<nat>,
      calls: seq<Call>)
  {
    && Moved(stamps, stamps', 2 * n + 1) && r.slot < |stamps|
    && told == (if r.stamp == stamps[r.slot] then Some(r.poller) else None)
    && (told.None? ==> calls == [] && stamps' == stamps)
    && (told.Some? ==> Heard(ev, r.poller, calls))
  }

  /** A registration that is its slot's latest after the batch had its event delivered; one that was not before the
      batch did not. */
  lemma {:induction false} LatestIsTold(events: seq<Event>, from: seq<Registration>, n: nat, told: seq<Option<nat>>,
      seen: seq<seq<nat>>, heard: seq<seq<Call>>, k: nat)
    requires Batch(events, from, n, told, seen, heard) && k < |events|
    requires from[k].slot < |seen[0]| && from[k].stamp <= seen[0][from[k].slot]
    ensures |seen[|events|]| == |seen[0]|
    ensures seen[|events|][from[k].slot] == from[k].stamp ==> told[k] == Some(from[k].poller)
    ensures seen[0][from[k].slot] != from[k].stamp ==> told[k] == None && heard[k] == []
  {
    hide Heard;
    assert Turn(events[k], from[k], n, told[k], seen[k], seen[k + 1], heard[k]);
    Onward(events, from, n, told, seen, heard, 0, k);
    Onward(events, from, n, told, seen, heard, k, |events|);
  }

  lemma {:induction false} Onward(events: seq<Event>, from: seq<Registration>, n: nat, told: seq<Option<nat>>,
      seen: seq<seq<nat>>, heard: seq<seq<Call>>, a: nat, b: nat)
    requires Batch(events, from, n, told, seen, heard) && a <= b <= |events|
    ensures |seen[b]| == |seen[a]| && forall i :: 0 <= i < |seen[a]| ==> seen[a][i] <= seen[b][i]
    decreases b - a
  {
    hide Heard;
    if a < b {
      assert Turn(events[a], from[a], n, told[a], seen[a], seen[a + 1], heard[a]);
      Onward(events, from, n, told, seen, heard, a + 1, b);
    }
  }

  lemma BatchMore(events: seq<Event>, from: seq<Registration>, n: nat, told: seq<Option<nat>>, seen: seq<seq<nat>>,
      heard: seq<seq<Call>>, i: nat, t: Option<nat>, stamps': seq<nat>, calls: seq<Call>)
    requires i < |events| == |from| && Batch(events[..i], from[..i], n, told, seen, heard)
    requires Turn(events[i], from[i], n, t, seen[i], stamps', calls)
    ensures Batch(events[..i + 1], from[..i + 1], n, told + [t], seen + [stamps'], heard + [calls])
    ensures Flat(heard + [calls]) == Flat(heard) + calls
  {
    hide Turn;
    assert (heard + [calls])[..i] == heard;
    forall k | 0 <= k < i + 1
      ensures Turn(events[k], from[k], n, (told + [t])[k], (seen + [stamps'])[k], (seen + [stamps'])[k + 1],
                (heard + [calls])[k])
    {
      if k < i {
        assert Turn(events[..i][k], from[..i][k], n, told[k], seen[k], seen[k + 1], heard[k]);
      }
    }
  }

  lemma NearLater(events: seq<Event>, from: seq<Registration>, issued: set<Registration>, stamps: seq<nat>,
      issued': set<Registration>, stamps': seq<nat>, m: nat, n: nat)
    requires Near(events, from, issued, stamps, Slack(m + 1, n))
    requires Moved(stamps, stamps', 2 * n + 1) && issued <= issued'
    ensures Near(events, from, issued', stamps', Slack(m, n))
  {
  }

  class CPollerUnit {

    const maxPollers: nat
    const pollerTable: array<Slot>
    var freeSlotList: int
    var usedPollers: int
    var objects: map<nat, Object>
    ghost var chain: seq<nat>
    ghost var stamps: seq<nat>
    ghost var issued: set<Registration>
    ghost var calls: seq<Call>

    ghost predicate Valid()
      reads this, pollerTable
    {
      && pollerTable.Length == maxPollers
      && Table(pollerTable[..], freeSlotList, chain, objects, stamps, issued)
      && usedPollers + |chain| == maxPollers
    }

    constructor (max: nat)
      requires 1 <= max < WRAP
      ensures Valid() && fresh(pollerTable) && maxPollers == max
      ensures usedPollers == 0 && objects == map[] && issued == {} && calls == []
    {
      maxPollers := max;
      pollerTable := new Slot[max](i => Slot(0, None, -1));
      freeSlotList := 0;
      usedPollers := 0;
      objects := map[];
      issued := {};
      calls := [];
      chain := seq(max, i => i);
      stamps := seq(max, i => 0);
      new;
      var i := 0;
      while i < max - 1
        invariant 0 <= i <= max - 1
        modifies pollerTable
        invariant forall j :: 0 <= j < max ==> pollerTable[j] == Slot(0, None, if j < i then j + 1 else -1)
      {
        pollerTable[i] := pollerTable[i].(link := i + 1);
        i := i + 1;
      }
      Initial(pollerTable[..], chain, stamps);
    }

    method AllocEpollSlot() returns (i: int)
      requires Valid()
      modifies this`usedPollers, this`freeSlotList, this`chain, pollerTable
      ensures old(chain) == [] ==> i == -1 && unchanged(this) && unchanged(pollerTable)
      ensures old(chain) != [] ==>
                && i == old(chain[0]) && 0 <= i < pollerTable.Length
                && chain == old(chain)[1..] && usedPollers == old(usedPollers) + 1
                && freeSlotList == old(pollerTable[i].link)
                && pollerTable[..] == old(pollerTable[..])[i := old(pollerTable[i]).(link := -1)]
    {
      i := freeSlotList;
      if i == -1 {
        return;
      }
      usedPollers := usedPollers + 1;
      freeSlotList := pollerTable[i].link;
      pollerTable[i] := pollerTable[i].(link := -1);
      chain := chain[1..];
    }

    method FreeEpollSlot(i: nat)
      requires i < pollerTable.Length && |stamps| == pollerTable.Length
      modifies this`usedPollers, this`freeSlotList, this`chain, this`stamps, pollerTable
      ensures freeSlotList == i && chain == [i] + old(chain) && usedPollers == old(usedPollers) - 1
      ensures stamps == Bump(old(stamps), i)
      ensures pollerTable[..] ==
        old(pollerTable[..])[i := Slot(Next(old(pollerTable[i].seqno)), old(pollerTable[i].poller), old(freeSlotList))]
    {
      pollerTable[i] := pollerTable[i].(link := freeSlotList);
      freeSlotList := i;
      usedPollers := usedPollers - 1;
      pollerTable[i] := pollerTable[i].(seqno := Next(pollerTable[i].seqno));
      chain := [i] + chain;
      stamps := Bump(stamps, i);
    }

    method AttachPoller(p: nat, give: bool, ok: bool) returns (r: int)
      requires Valid() && p in objects && (objects[p].owned || give)
      modifies this, pollerTable
      ensures Valid() && Step(old(stamps), stamps, old(issued), issued)
      ensures objects.Keys == old(objects.Keys) && calls == old(calls)
      ensures r == 0 && old(objects[p].epslot) == -1 ==>
                && objects[p].epslot != -1 && objects[p].oldEvents == objects[p].newEvents
                && Registration(objects[p].epslot, stamps[objects[p].epslot], p) in issued
      ensures old(objects[p].epslot) == -1 ==>
                (r == 0 <==> !(give && old(objects[p].owned)) && old(objects[p].netfd) >= 0 && old(chain) != [] && ok)
    {
      if give {
        if objects[p].owned {
          return -1;
        }
        Touched(pollerTable[..], freeSlotList, chain, objects, stamps, issued, p, objects[p].(owned := true));
        objects := objects[p := objects[p].(owned := true)];
      }
      if objects[p].netfd < 0 {
        return -1;
      }
      if objects[p].epslot == -1 {
        r := Register(p, ok);
      } else {
        r := ApplyEvents(p, ok);
      }
    }

    /** A slot for `p`, with its next sequence number. */
    method TakeSlot(p: nat) returns (i: int)
      requires Valid()
      modifies this`usedPollers, this`freeSlotList, this`chain, this`stamps, pollerTable
      ensures old(chain) == [] ==> i == -1 && unchanged(this) && unchanged(pollerTable)
      ensures old(chain) != [] ==>
                && i == old(chain[0]) == old(freeSlotList) && 0 <= i < pollerTable.Length == |old(stamps)|
                && chain == old(chain)[1..] && usedPollers == old(usedPollers) + 1
                && freeSlotList == old(pollerTable[i].link) && stamps == Bump(old(stamps), i)
                && pollerTable[..] == old(pollerTable[..])[i := Slot(Next(old(pollerTable[i].seqno)), Some(p), -1)]
    {
      HeadIsFree(pollerTable[..], freeSlotList, chain, objects, stamps, issued);
      hide Table, Next;
      i := AllocEpollSlot();
      if i != -1 {
        pollerTable[i] := pollerTable[i].(poller := Some(p));
        pollerTable[i] := pollerTable[i].(seqno := Next(pollerTable[i].seqno));
        stamps := Bump(stamps, i);
      }
    }

    /** The part of AttachPoller for an object without a slot. */
    method Register(p: nat, ok: bool) returns (r: int)
      requires Valid() && p in objects && objects[p].epslot == -1 && objects[p].owned
      modifies this, pollerTable
      ensures Valid() && Step(old(stamps), stamps, old(issued), issued)
      ensures objects.Keys == old(objects.Keys) && calls == old(calls)
      ensures r == 0 <==> old(chain) != [] && ok
      ensures r == 0 ==>
                && objects[p].epslot != -1 && objects[p].oldEvents == objects[p].newEvents
                && Registration(objects[p].epslot, stamps[objects[p].epslot], p) in issued
    {
      hide Table, Next;
      ghost var o, slots0 := objects[p], pollerTable[..];
      var i := TakeSlot(p);
      if i == -1 {
        return -1;
      }
      objects := objects[p := objects[p].(epslot := i)];
      if !ok {
        Attached(slots0, i, old(chain), old(objects), old(stamps), issued, p, objects[p]);
        return -1;
      }
      objects := objects[p := objects[p].(oldEvents := objects[p].newEvents)];
      Attached(slots0, i, old(chain), old(objects), old(stamps), issued, p, objects[p]);
      issued := issued + {Registration(i, stamps[i], p)};
      assert objects == old(objects)[p := objects[p]];
      return 0;
    }

    method ApplyEvents(p: nat, ok: bool) returns (r: int)
      requires Valid() && p in objects
      modifies this, pollerTable
      ensures Valid() && Step(old(stamps), stamps, old(issued), issued)
      ensures objects.Keys == old(objects.Keys) && chain == old(chain) && calls == old(calls)
      ensures forall q :: q in objects && q != p ==> objects[q] == old(objects[q])
      ensures objects[p].epslot == old(objects[p].epslot)
      ensures var o := old(objects[p]);
              if o.epslot == -1 || o.oldEvents == o.newEvents then
                r == 0 && stamps == old(stamps) && issued == old(issued) && objects == old(objects)
              else
                && 0 <= o.epslot < |stamps| == |old(stamps)| && stamps == Bump(old(stamps), o.epslot)
                && if ok then
                     r == 0 && issued == old(issued) + {Registration(o.epslot, stamps[o.epslot], p)}
                       && objects == old(objects)[p := o.(oldEvents := o.newEvents)]
                   else
                     r == -1 && issued == old(issued) && objects == old(objects)
    {
      hide Linked, Held, Stamped, Recorded, Next;
      if objects[p].epslot == -1 || objects[p].oldEvents == objects[p].newEvents {
        return 0;
      }
      var i := objects[p].epslot;
      HolderIs(pollerTable[..], freeSlotList, chain, objects, stamps, issued, p);
      assert objects == objects[p := objects[p]];
      Applied(pollerTable[..], freeSlotList, chain, objects, stamps, issued, p,
        objects[p].(oldEvents := objects[p].newEvents));
      Applied(pollerTable[..], freeSlotList, chain, objects, stamps, issued, p, objects[p]);
      pollerTable[i] := pollerTable[i].(seqno := Next(pollerTable[i].seqno));
      stamps := Bump(stamps, i);
      if !ok {
        return -1;
      }
      issued := issued + {Registration(i, stamps[i], p)};
      objects := objects[p := objects[p].(oldEvents := objects[p].newEvents)];
      return 0;
    }

    method DetachPoller(p: nat, ok: bool) returns (r: int)
      requires Valid() && p in objects
      modifies this, pollerTable
      ensures Valid() && Step(old(stamps), stamps, old(issued), issued)
      ensures objects.Keys == old(objects.Keys) && objects[p].epslot == -1 && calls == old(calls)
      ensures r == 0 <==> old(objects[p].epslot) == -1 || ok
    {
      hide Linked, Held, Stamped, Recorded, Next;
      r := 0;
      var i := objects[p].epslot;
      if i != -1 {
        var o := objects[p].(epslot := -1);
        if ok {
          o := o.(oldEvents := o.newEvents);
        }
        ghost var slots0 := pollerTable[..];
        Freed(slots0, freeSlotList, chain, objects, stamps, issued, p, None, objects[p := o]);
        FreeEpollSlot(i);
        pollerTable[i] := pollerTable[i].(poller := None);
        assert pollerTable[..] == slots0[i := Slot(Next(slots0[i].seqno), None, old(freeSlotList))];
        objects := objects[p := o];
        r := if ok then 0 else -1;
      }
    }

    /** The destructor: the slot is freed but keeps pointing at the deleted object. */
    method Destroy(p: nat)
      requires Valid() && p in objects
      modifies this, pollerTable
      ensures Valid() && Step(old(stamps), stamps, old(issued), issued)
      ensures objects.Keys == old(objects.Keys) - {p} && calls == old(calls)
    {
      hide Linked, Held, Stamped, Recorded, Next;
      var i := objects[p].epslot;
      if i != -1 {
        HolderIs(pollerTable[..], freeSlotList, chain, objects, stamps, issued, p);
      }
      if objects[p].owned && i != -1 {
        Freed(pollerTable[..], freeSlotList, chain, objects, stamps, issued, p, pollerTable[i].poller, objects - {p});
        FreeEpollSlot(i);
      } else {
        Gone(pollerTable[..], freeSlotList, chain, objects, stamps, issued, p);
      }
      objects := objects - {p};
    }

    /** EnableInput, EnableOutput and their opposites, and a new CPollerObject. */
    method SetEvents(p: nat, events: int)
      requires Valid()
      modifies this`objects
      ensures Valid() && objects.Keys == old(objects.Keys) + {p}
      ensures p in old(objects) ==> objects == old(objects)[p := old(objects[p]).(newEvents := events)]
    {
      var fd: int :| true;
      var o := if p in objects then objects[p].(newEvents := events) else Object(fd, false, 0, 0, -1);
      Touched(pollerTable[..], freeSlotList, chain, objects, stamps, issued, p, o);
      objects := objects[p := o];
    }

    /** InputNotify, OutputNotify or HangupNotify of object `p`: up to `n` calls on any objects, itself included. A
        callback that deletes its own object does not return POLLER_SUCC. */
    method Notify(p: nat, kind: Kind, slot: nat, n: nat) returns (ret: int)
      requires Valid() && p in objects && slot < pollerTable.Length
      modifies this, pollerTable
      ensures Valid() && Moved(old(stamps), stamps, n) && old(issued) <= issued
      ensures ret == POLLER_SUCC ==> p in objects
      ensures calls == old(calls) +
                [Call(kind, p, old(objects[p]), ret == POLLER_SUCC && pollerTable[slot].poller == Some(p))]
    {
      hide Table;
      ret :| true;
      var done := 0;
      while done < n
        invariant 0 <= done <= n
        invariant Valid() && Moved(old(stamps), stamps, done) && old(issued) <= issued
        invariant ret == POLLER_SUCC ==> p in objects
        invariant calls == old(calls)
      {
        var destroyed := OneCall(p);
        if destroyed {
          ret := -1;
        }
        done := done + 1;
      }
      calls := calls + [Call(kind, p, old(objects[p]), ret == POLLER_SUCC && pollerTable[slot].poller == Some(p))];
    }

    method OneCall(p: nat) returns (destroyed: bool)
      requires Valid()
      modifies this, pollerTable
      ensures Valid() && Step(old(stamps), stamps, old(issued), issued)
      ensures p in old(objects) && !destroyed ==> p in objects
      ensures calls == old(calls)
    {
      hide Table;
      destroyed := false;
      var q: nat :| true;
      var op: nat :| true;
      var ok: bool :| true;
      if q !in objects || op == 0 {
        var events: int :| true;
        SetEvents(q, events);
      } else if op == 1 {
        var give: bool :| true;
        if objects[q].owned || give {
          var _ := AttachPoller(q, give, ok);
        }
      } else if op == 2 {
        var _ := DetachPoller(q, ok);
      } else if op == 3 {
        var _ := ApplyEvents(q, ok);
      } else if op == 4 {
        Destroy(q);
        destroyed := p == q;
      }
    }

    method VerifyEvents(ev: Event) returns (r: int)
      requires Valid()
      ensures r == 0 <==> Verify(pollerTable[..], ev.tag)
      ensures r == 0 || r == -1
    {
      var slot := TagSlot(ev.tag);
      if slot >= maxPollers || TagSeq(ev.tag) != pollerTable[slot].seqno {
        return -1;
      }
      return 0;
    }

    /** One turn of the dispatch loop for an event that came from registration `r`: its object is called back exactly
        when `r` is its slot's latest, and still holds the slot then; and OutputNotify and ApplyEvents only reach that
        object while it exists. At the end the kernel watches what the object wants, unless it refuses. */
    method Dispatch(ev: Event, ghost r: Registration, n: nat, ok: bool) returns (told: Option<nat>)
      requires Valid() && r in issued && ev.tag == TagOf(r)
      requires r.slot < |stamps| && stamps[r.slot] - r.stamp < WRAP
      modifies this, pollerTable
      ensures Valid() && Moved(old(stamps), stamps, 2 * n + 1) && old(issued) <= issued
      ensures told == if r.stamp == old(stamps)[r.slot] then Some(r.poller) else None
      ensures told.None? ==> unchanged(this) && unchanged(pollerTable)
      ensures old(calls) <= calls && Turn(ev, r, n, told, old(stamps), stamps, calls[|old(calls)|..])
      ensures told.Some? ==>
                && r.poller in old(objects) && old(objects[r.poller].epslot) == r.slot
                && (var o := old(objects[r.poller]);
                    calls == old(calls) || calls[|old(calls)|].was == o.(newEvents := o.oldEvents))
                && (AllWell(calls[|old(calls)|..]) && !ev.hangup ==>
                      r.poller in objects && (ok ==> Watched(objects[r.poller])))
    {
      hide Table;
      NoStaleEvent(pollerTable[..], freeSlotList, chain, objects, stamps, issued, r);
      TagRoundTrip(r.stamp % WRAP, r.slot);
      told := None;
      var verified := VerifyEvents(ev);
      if verified == -1 {
        return;
      }
      var slot := TagSlot(ev.tag);
      var p := pollerTable[slot].poller.value;
      told := Some(p);
      SetEvents(p, objects[p].oldEvents);
      if ev.hangup {
        var _ := Notify(p, Hangup, slot, n);
        return;
      }
      if ev.input {
        var ret := Notify(p, Input, slot, n);
        if pollerTable[slot].poller != Some(p) || ret != POLLER_SUCC {
          return;
        }
      }
      if ev.output {
        var ret := Notify(p, Output, slot, n);
        if pollerTable[slot].poller != Some(p) || ret != POLLER_SUCC {
          return;
        }
      }
      var _ := ApplyEvents(p, ok);
    }

    /** The dispatch of a batch of events, with the slots' numbers before each and the callbacks of each: an event is
        delivered, to the object whose registration it came from, exactly when that registration is its slot's latest
        at its turn. */
    method ProcessPollerEvents(events: seq<Event>, ghost from: seq<Registration>, n: nat, oks: seq<bool>)
        returns (told: seq<Option<nat>>, ghost seen: seq<seq<nat>>, ghost heard: seq<seq<Call>>)
      requires Valid() && Near(events, from, issued, stamps, Slack(|events|, n)) && |oks| == |events|
      modifies this, pollerTable
      ensures Valid() && Batch(events, from, n, told, seen, heard)
      ensures seen[0] == old(stamps) && seen[|events|] == stamps
      ensures calls == old(calls) + Flat(heard)
    {
      hide Table, Heard, Turn, Slack, Moved;
      told, seen, heard := [], [stamps], [];
      for i := 0 to |events|
        invariant Valid() && Near(events, from, issued, stamps, Slack(|events| - i, n))
        invariant |told| == i && Batch(events[..i], from[..i], n, told, seen, heard)
        invariant seen[0] == old(stamps) && seen[i] == stamps
        invariant calls == old(calls) + Flat(heard)
      {
        ghost var before, stamps0, issued0 := calls, stamps, issued;
        var t := Dispatch(events[i], from[i], n, oks[i]);
        ghost var new_ := calls[|before|..];
        BatchMore(events, from, n, told, seen, heard, i, t, stamps, new_);
        NearLater(events, from, issued0, stamps0, issued, stamps, |events| - i - 1, n);
        told, seen, heard := told + [t], seen + [stamps], heard + [new_];
      }
      assert events[..|events|] == events && from[..|from|] == from;
    }
  }

  /** What a valid unit means: the allocated slots and the free chain partition the table and usedPollers counts the
      former, and each allocated slot has one holder that points back at it. */
  lemma ValidMeans(u: CPollerUnit)
    requires u.Valid()
    ensures |Allocated(u.maxPollers, u.chain)| == u.usedPollers
    ensures forall i :: i in Allocated(u.maxPollers, u.chain) ==>
              && u.pollerTable[i].poller.Some? && u.pollerTable[i].poller.value in u.objects
              && u.objects[u.pollerTable[i].poller.value].epslot == i
    ensures forall p, q :: p in u.objects && q in u.objects && p != q && u.objects[p].epslot == u.objects[q].epslot ==>
              u.objects[p].epslot == -1
  {
    AllocatedSize(u.maxPollers, u.chain);
    assert forall i :: 0 <= i < u.maxPollers ==> u.pollerTable[..][i] == u.pollerTable[i];
  }
}
