/** The slot table of a poller unit as values: the free chain, who holds a slot, the slot's sequence number, and
    the registrations that were made with the kernel. */
module PollerSlots {

  import opened IndexChain
  import opened Seqs

  const WRAP: nat := 0x1_0000_0000

  /** CEpollSlot: the free link is a slot number, -1 for none. */
  datatype Slot = Slot(seqno: nat, poller: Option<nat>, link: int)

  /** CPollerObject; epslot is a slot number, -1 for none; owned says that ownerUnit is set. */
  datatype Object = Object(netfd: int, owned: bool, newEvents: int, oldEvents: int, epslot: int)

  /** A registration the kernel accepted: `stamp` is the slot's sequence number at that moment, not yet wrapped. */
  datatype Registration = Registration(slot: nat, stamp: nat, poller: nat)

  // ---- the 64-bit tag ----

  /** The tag registered with the kernel: the sequence number shifted over the slot number. */
  function Tag(seqno: nat, slot: nat): nat
  {
    seqno * WRAP + slot
  }

  function TagSlot(tag: nat): nat { tag % WRAP }

  function TagSeq(tag: nat): nat { tag / WRAP }

  lemma TagRoundTrip(seqno: nat, slot: nat)
    requires slot < WRAP
    ensures TagSlot(Tag(seqno, slot)) == slot && TagSeq(Tag(seqno, slot)) == seqno
    ensures seqno < WRAP ==> Tag(seqno, slot) < WRAP * WRAP
  {
  }

  // ---- the table ----

  /** The free links of the slots. */
  function Links(slots: seq<Slot>): (r: seq<int>)
    ensures |r| == |slots| && forall i :: 0 <= i < |r| ==> r[i] == slots[i].link
  {
    seq(|slots|, i requires 0 <= i < |slots| => slots[i].link)
  }

  lemma LinksUpdate(slots: seq<Slot>, i: nat, s: Slot)
    requires i < |slots|
    ensures Links(slots[i := s]) == Links(slots)[i := s.link]
  {
  }

  /** A slot off the chain is held by one object, which points back at it; no other object points at a slot. */
  ghost predicate Held(slots: seq<Slot>, chain: seq<nat>, objs: map<nat, Object>)
  {
    && (forall i :: 0 <= i < |slots| && i !in chain ==>
          slots[i].poller.Some? && slots[i].poller.value in objs && objs[slots[i].poller.value].epslot == i)
    && (forall p :: p in objs && objs[p].epslot != -1 ==>
          objs[p].owned && 0 <= objs[p].epslot < |slots| && objs[p].epslot !in chain
            && slots[objs[p].epslot].poller == Some(p))
  }

  function Below(n: nat): (r: set<nat>)
    ensures |r| == n && forall i: nat :: i in r <==> i < n
  {
    if n == 0 then {} else Below(n - 1) + {n - 1}
  }

  /** The slots off the chain. */
  function Allocated(n: nat, chain: seq<nat>): (r: set<nat>)
  {
    set i | i in Below(n) && i !in chain
  }

  /** Free chain and allocated slots partition the table. */
  lemma {:induction false} AllocatedSize(n: nat, chain: seq<nat>)
    requires Distinct(chain) && forall i :: 0 <= i < |chain| ==> chain[i] < n
    ensures |Allocated(n, chain)| + |chain| == n
  {
    if chain == [] {
      assert Allocated(n, chain) == Below(n);
    } else {
      var rest := chain[1..];
      assert forall i :: 0 <= i < |rest| ==> rest[i] == chain[i + 1];
      AllocatedSize(n, rest);
      assert chain[0] !in rest && chain == [chain[0]] + rest;
      assert Allocated(n, rest) == Allocated(n, chain) + {chain[0]};
    }
  }

  ghost predicate Stamped(slots: seq<Slot>, stamps: seq<nat>)
  {
    |stamps| == |slots| && forall i :: 0 <= i < |slots| ==> slots[i].seqno == stamps[i] % WRAP
  }

  /** A registration is behind its slot, or it is the slot's latest and its object still holds the slot. */
  ghost predicate Recorded(slots: seq<Slot>, stamps: seq<nat>, chain: seq<nat>, issued: set<Registration>)
  {
    |stamps| == |slots| &&
    forall r :: r in issued ==>
      && r.slot < |slots| && r.stamp <= stamps[r.slot]
      && (r.stamp == stamps[r.slot] ==> r.slot !in chain && slots[r.slot].poller == Some(r.poller))
  }

  ghost predicate Table(slots: seq<Slot>, head: int, chain: seq<nat>, objs: map<nat, Object>, stamps: seq<nat>,
                        issued: set<Registration>)
  {
    && 1 <= |slots| == |stamps| < WRAP
    && Linked(Links(slots), head, chain) && Held(slots, chain, objs) && Stamped(slots, stamps)
    && Recorded(slots, stamps, chain, issued)
  }

  /** InitializePollerUnit: every slot free, linked in order. */
  lemma Initial(slots: seq<Slot>, chain: seq<nat>, stamps: seq<nat>)
    requires 1 <= |slots| < WRAP && |chain| == |slots| == |stamps|
    requires forall i :: 0 <= i < |slots| ==> slots[i] == Slot(0, None, if i + 1 < |slots| then i + 1 else -1)
    requires forall i :: 0 <= i < |chain| ==> chain[i] == i
    requires forall i :: 0 <= i < |stamps| ==> stamps[i] == 0
    ensures Table(slots, 0, chain, map[], stamps, {})
  {
    hide Linked;
    InOrder(Links(slots), chain);
    assert Held(slots, chain, map[]);
  }

  function Bump(stamps: seq<nat>, i: nat): seq<nat>
    requires i < |stamps|
  {
    stamps[i := stamps[i] + 1]
  }

  function Next(seqno: nat): nat { (seqno + 1) % WRAP }

  lemma NextIsModulo(stamp: nat)
    ensures Next(stamp % WRAP) == (stamp + 1) % WRAP
  {
  }

  /** AttachPoller takes the head of the chain, and the kernel accepts the registration or does not. */
  lemma Attached(slots: seq<Slot>, head: int, chain: seq<nat>, objs: map<nat, Object>, stamps: seq<nat>,
                 issued: set<Registration>, p: nat, o: Object)
    requires Table(slots, head, chain, objs, stamps, issued) && chain != [] && head == chain[0] < |slots|
    requires p in objs && objs[p].epslot == -1 && o.epslot == head && o.owned
    ensures var s := slots[head];
            var slots' := slots[head := Slot(Next(s.seqno), Some(p), -1)];
            var stamps' := Bump(stamps, head);
            && Table(slots', s.link, chain[1..], objs[p := o], stamps', issued)
            && Table(slots', s.link, chain[1..], objs[p := o], stamps', issued + {Registration(head, stamps'[head], p)})
  {
    hide Linked, Next;
    LinksUpdate(slots, head, Slot(Next(slots[head].seqno), Some(p), -1));
    Popped(Links(slots), head, chain, -1);
    NextIsModulo(stamps[head]);
  }

  /** FreeEpollSlot puts the slot at the head of the chain; the holder is detached or gone. */
  lemma Freed(slots: seq<Slot>, head: int, chain: seq<nat>, objs: map<nat, Object>, stamps: seq<nat>,
              issued: set<Registration>, p: nat, holder: Option<nat>, objs': map<nat, Object>)
    requires Table(slots, head, chain, objs, stamps, issued)
    requires p in objs && objs[p].epslot != -1
    requires forall q :: q in objs && q != p ==> q in objs' && objs'[q] == objs[q]
    requires forall q :: q in objs' && q != p ==> q in objs
    requires p in objs' ==> objs'[p].epslot == -1
    ensures var i := objs[p].epslot;
            && 0 <= i < |slots|
            && Table(slots[i := Slot(Next(slots[i].seqno), holder, head)], i, [i] + chain, objs', Bump(stamps, i),
               issued)
  {
    hide Linked, Next;
    var i := objs[p].epslot;
    LinksUpdate(slots, i, Slot(Next(slots[i].seqno), holder, head));
    Pushed(Links(slots), head, chain, i);
    NextIsModulo(stamps[i]);
  }

  /** ApplyEvents takes a new sequence number for a held slot. */
  lemma Applied(slots: seq<Slot>, head: int, chain: seq<nat>, objs: map<nat, Object>, stamps: seq<nat>,
                issued: set<Registration>, p: nat, o: Object)
    requires Table(slots, head, chain, objs, stamps, issued)
    requires p in objs && objs[p].epslot != -1 && o.epslot == objs[p].epslot && o.owned
    ensures var i := objs[p].epslot;
            && 0 <= i < |slots|
            && var slots' := slots[i := slots[i].(seqno := Next(slots[i].seqno))];
            var stamps' := Bump(stamps, i);
            && Table(slots', head, chain, objs[p := o], stamps', issued)
            && Table(slots', head, chain, objs[p := o], stamps', issued + {Registration(i, stamps'[i], p)})
  {
    hide Linked, Next;
    LinksUpdate(slots, objs[p].epslot, slots[objs[p].epslot].(seqno := Next(slots[objs[p].epslot].seqno)));
    assert Links(slots)[objs[p].epslot := slots[objs[p].epslot].link] == Links(slots);
    NextIsModulo(stamps[objs[p].epslot]);
  }

  /** A change of an object that keeps its slot, or a new object without one. */
  lemma Touched(slots: seq<Slot>, head: int, chain: seq<nat>, objs: map<nat, Object>, stamps: seq<nat>,
                issued: set<Registration>, p: nat, o: Object)
    requires Table(slots, head, chain, objs, stamps, issued)
    requires o.epslot == (if p in objs then objs[p].epslot else -1) && (p in objs && objs[p].owned ==> o.owned)
    ensures Table(slots, head, chain, objs[p := o], stamps, issued)
  {
  }

  lemma HeadIsFree(slots: seq<Slot>, head: int, chain: seq<nat>, objs: map<nat, Object>, stamps: seq<nat>,
                   issued: set<Registration>)
    requires Table(slots, head, chain, objs, stamps, issued)
    ensures |stamps| == |slots|
    ensures if chain == [] then head == -1 else head == chain[0] < |slots|
  {
  }

  lemma HolderIs(slots: seq<Slot>, head: int, chain: seq<nat>, objs: map<nat, Object>, stamps: seq<nat>,
                 issued: set<Registration>, p: nat)
    requires Table(slots, head, chain, objs, stamps, issued) && p in objs && objs[p].epslot != -1
    ensures objs[p].owned && 0 <= objs[p].epslot < |slots| && slots[objs[p].epslot].poller == Some(p)
  {
  }

  /** An object without a slot is deleted. */
  lemma Gone(slots: seq<Slot>, head: int, chain: seq<nat>, objs: map<nat, Object>, stamps: seq<nat>,
             issued: set<Registration>, p: nat)
    requires Table(slots, head, chain, objs, stamps, issued) && p in objs && objs[p].epslot == -1
    ensures Table(slots, head, chain, objs - {p}, stamps, issued)
  {
  }

  // ---- what passing the check means ----

  /** VerifyEvents. */
  predicate Verify(slots: seq<Slot>, tag: nat)
  {
    TagSlot(tag) < |slots| && TagSeq(tag) == slots[TagSlot(tag)].seqno
  }

  function TagOf(r: Registration): nat
  {
    Tag(r.stamp % WRAP, r.slot)
  }

  /** The event of a registration passes exactly when the slot has since moved on by a multiple of 2^32 numbers. */
  lemma VerifyExactly(slots: seq<Slot>, head: int, chain: seq<nat>, objs: map<nat, Object>, stamps: seq<nat>,
                      issued: set<Registration>, r: Registration)
    requires Table(slots, head, chain, objs, stamps, issued) && r in issued
    ensures r.slot < |stamps| && r.stamp <= stamps[r.slot]
    ensures Verify(slots, TagOf(r)) <==> (stamps[r.slot] - r.stamp) % WRAP == 0
  {
    hide Linked, Held;
    TagRoundTrip(r.stamp % WRAP, r.slot);
    SameModulo(r.stamp, stamps[r.slot]);
  }

  lemma SameModulo(a: nat, b: nat)
    requires a <= b
    ensures a % WRAP == b % WRAP <==> (b - a) % WRAP == 0
  {
  }

  /** Before the number wraps, an event passes exactly when it comes from the slot's latest attach or modify, and
      then the object that made it is still attached there. */
  lemma NoStaleEvent(slots: seq<Slot>, head: int, chain: seq<nat>, objs: map<nat, Object>, stamps: seq<nat>,
                     issued: set<Registration>, r: Registration)
    requires Table(slots, head, chain, objs, stamps, issued) && r in issued
    requires r.slot < |stamps| && stamps[r.slot] - r.stamp < WRAP
    ensures r.slot < |slots| < WRAP
    ensures Verify(slots, TagOf(r)) <==> r.stamp == stamps[r.slot]
    ensures Verify(slots, TagOf(r)) ==>
              && slots[r.slot].poller == Some(r.poller)
              && r.poller in objs && objs[r.poller].epslot == r.slot
  {
    hide Linked, Stamped, Verify, TagOf;
    VerifyExactly(slots, head, chain, objs, stamps, issued, r);
  }
}
