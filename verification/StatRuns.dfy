/** Registering statistics by name and by index, and stepping them either way. */
module StatRuns {

  import opened StatHash
  import opened StatTable
  import opened StatStep
  import opened StatPool
  import opened StatValues

  datatype Init = Init(id: Id, types: set<nat>, index: int, size: int)

  /** The later registrations leave the index to this id. */
  ghost predicate LeaveAlone(later: seq<Init>, id: Id, index: int)
  {
    forall k :: 0 <= k < |later| ==> |later[k].id| < STAT_ID_MAX_LEN && (later[k].index != index || later[k].id == id)
  }

  /** init_statobj_frame for an id not seen before, and any registrations after it that leave its index alone: as long
      as the process has not ended for lack of room, the objects of that first registration are all the objects of the
      id, and the index names the first of them. */
  method RegisterAndRun(pool: CTStat, id: Id, types: set<nat>, index: int, size: int, later: seq<Init>)
    returns (alive: bool, ghost os: seq<nat>)
    requires pool.Valid() && Tidy(pool.objs, pool.chains) && !Present(pool.objs, pool.chains, id)
    requires |id| < STAT_ID_MAX_LEN && 0 <= index < |pool.statindex| && Chosen(types, STAT_TYPE_NUM) != []
    requires LeaveAlone(later, id, index)
    modifies pool
    ensures alive ==>
              && pool.Valid() && Tidy(pool.objs, pool.chains)
              && Registered(pool.objs, pool.chains, pool.statindex, index, id, os)
              && Typed(pool.objs, os, Chosen(types, STAT_TYPE_NUM), size)
  {
    hide Pool, HashId, Indices, Grown, Typed, Chosen, Tidy, Present, Room, Names, Registered;
    ghost var t0 := pool.Now();
    var r;
    r, os := pool.InitStatObjFrame(id, types, index, size);
    if r == Exited {
      return false, os;
    }
    TypedSize(pool.objs, os, Chosen(types, STAT_TYPE_NUM), size);
    RegisteredNow(t0, pool.Now(), id, os, pool.statindex, index);
    for k := 0 to |later|
      invariant pool.Valid() && Tidy(pool.objs, pool.chains)
      invariant Registered(pool.objs, pool.chains, pool.statindex, index, id, os)
      invariant Typed(pool.objs, os, Chosen(types, STAT_TYPE_NUM), size)
    {
      var again := RegisterOther(pool, later[k], id, index, os, Chosen(types, STAT_TYPE_NUM), size);
      if !again {
        return false, os;
      }
    }
    alive := true;
  }

  /** One registration that leaves the index to this id. */
  method RegisterOther(pool: CTStat, init: Init, ghost id: Id, ghost index: int, ghost os: seq<nat>,
                       ghost policies: seq<nat>, ghost size: int) returns (alive: bool)
    requires pool.Valid() && Tidy(pool.objs, pool.chains)
    requires Registered(pool.objs, pool.chains, pool.statindex, index, id, os) && Typed(pool.objs, os, policies, size)
    requires |init.id| < STAT_ID_MAX_LEN && (init.index != index || init.id == id)
    modifies pool
    ensures pool.Valid() && Tidy(pool.objs, pool.chains)
    ensures alive ==>
              Registered(pool.objs, pool.chains, pool.statindex, index, id, os) && Typed(pool.objs, os, policies, size)
  {
    hide Pool, HashId, Indices, Grown, Typed, Chosen, Tidy, Present, Room, Names, Registered;
    ghost var t0, statindex0 := pool.Now(), pool.statindex;
    RegisteredMeans(t0, statindex0, index, id, os);
    var r, added := pool.InitStatObjFrame(init.id, init.types, init.index, init.size);
    if r == Exited {
      return false;
    }
    if init.index == index {
      NamesFirst(t0.objs, t0.chains, statindex0, index, id, os, pool.statindex[index]);
    }
    RegisteredStill(t0, pool.Now(), init.id, added, statindex0, pool.statindex, index, id, os, policies, size);
    alive := true;
  }

  /** A registered id is present. */
  lemma RegisteredMeans(t: Table, statindex: seq<int>, index: int, id: Id, os: seq<nat>)
    requires Pool(t)
    requires Registered(t.objs, t.chains, statindex, index, id, os)
    ensures Present(t.objs, t.chains, id) && 0 <= index < |statindex| && os != [] && statindex[index] == os[0]
  {
    hide Pool, HashId, From, Same, Present;
    FoundIsPresent(t, id);
    FirstSame(t.objs, t.chains[HashId(id)], id);
  }

  lemma NamesFirst(objs: seq<StatObj>, chains: seq<seq<nat>>, statindex: seq<int>, index: int, id: Id, os: seq<nat>,
      o: nat)
    requires Registered(objs, chains, statindex, index, id, os) && Names(objs, chains, id, o)
    ensures o == os[0]
  {
  }

  /** Two pools in the same state, one stepped by index and the other by name: they stay the same when the id was
      registered for one policy, and at the last value index only then. */
  method OpIsStep0(a: CTStat, b: CTStat, id: Id, index: int, val: int, idx: int,
                   ghost os: seq<nat>, ghost policies: seq<nat>, ghost size: int)
    requires a != b && a.Valid() && b.Valid() && Tidy(a.objs, a.chains)
    requires a.objs == b.objs && a.vals == b.vals && a.chains == b.chains && a.statindex == b.statindex
    requires Registered(a.objs, a.chains, a.statindex, index, id, os) && Typed(a.objs, os, policies, size)
    requires Indexed(a.objs, a.chains[HashId(id)], id, idx)
    modifies a, b
    ensures |policies| == 1 ==> Stats(a.objs, a.vals) == Stats(b.objs, b.vals)
    ensures |policies| > 1 && idx == size ==> Stats(a.objs, a.vals) != Stats(b.objs, b.vals)
  {
    hide Pool, HashId, Indices, Tidy, Indexed, Same, Visited;
    ghost var s0 := Stats(a.objs, a.vals);
    AllFit(s0, a.Now(), id, idx);
    IndexedReaches(s0, b.Now(), id, idx);
    assert Fit(s0, os[0], idx);
    var _ := a.Op(index, val, idx);
    var _ := b.Step0(id, val, idx);
    if |policies| == 1 {
      assert os == [os[0]];
      SteppedOne(s0, Stats(b.objs, b.vals), os[0], val, idx);
    } else if |policies| > 1 && idx == size {
      assert os[0] != os[1];
      OpMissesOthers(s0, os, os[0], os[1], val, idx);
    }
  }

  /** One step, after others. */
  method StepOne(pool: CTStat, c: StepCall, ghost calls: seq<StepCall>)
    requires pool.Valid() && Tidy(pool.objs, pool.chains)
    modifies pool`objs, pool`vals
    ensures pool.Valid() && Tidy(pool.objs, pool.chains) && SameButCounts(old(pool.objs), pool.objs)
    ensures IndexedBy(old(pool.objs), pool.chains, c)
            && AllHolding(Stats(old(pool.objs), old(pool.vals)), pool.place, calls) ==>
              AllHolding(Stats(pool.objs, pool.vals), pool.place, calls + [c])
  {
    hide Pool, HashId, Indices, Tidy, Indexed, Same, Visited, AllHolding, Stepped, SteppedId, Reaches, SameButCounts;
    ghost var t, s0 := pool.Now(), Stats(pool.objs, pool.vals);
    if IndexedBy(pool.objs, pool.chains, c) {
      IndexedReaches(s0, t, c.id, c.idx);
    }
    var _ := pool.Step0(c.id, c.val, c.idx);
    if IndexedBy(s0.objs, pool.chains, c) && AllHolding(s0, pool.place, calls) {
      AllHoldingMore(s0, Stats(pool.objs, pool.vals), t, calls, c);
    }
  }

  /** step0 for one id after the other: where every index is in range, each value and each count is what the steps of
      its object come to. */
  method StepAll(pool: CTStat, calls: seq<StepCall>)
    requires pool.Valid() && Tidy(pool.objs, pool.chains) && AllHolding(Stats(pool.objs, pool.vals), pool.place, [])
    modifies pool`objs, pool`vals
    ensures pool.Valid() && Tidy(pool.objs, pool.chains) && SameButCounts(old(pool.objs), pool.objs)
    ensures AllIndexed(old(pool.objs), pool.chains, calls) ==>
              AllHolding(Stats(pool.objs, pool.vals), pool.place, calls)
  {
    hide Pool, HashId, Indices, Tidy, IndexedBy, AllHolding, SameButCounts;
    AlikeAtOnce(pool.objs);
    for k := 0 to |calls|
      invariant pool.Valid() && Tidy(pool.objs, pool.chains) && SameButCounts(old(pool.objs), pool.objs)
      invariant AllIndexed(old(pool.objs), pool.chains, calls) ==>
                  AllHolding(Stats(pool.objs, pool.vals), pool.place, calls[..k])
    {
      ghost var objs := pool.objs;
      if AllIndexed(old(pool.objs), pool.chains, calls) {
        IndexedAlike(old(pool.objs), objs, pool.chains, calls[k]);
      }
      StepOne(pool, calls[k], calls[..k]);
      AlikeTwice(old(pool.objs), objs, pool.objs);
      assert calls[..k + 1] == calls[..k] + [calls[k]];
    }
    assert calls[..|calls|] == calls;
  }

  /** The objects and the values that registrations take at most. */
  function Objects(inits: seq<Init>): nat
  {
    if inits == [] then 0
    else Objects(inits[..|inits| - 1]) + |Chosen(inits[|inits| - 1].types, STAT_TYPE_NUM)|
  }

  function Values(inits: seq<Init>): int
  {
    if inits == [] then 0
    else
      var init := inits[|inits| - 1];
      Values(inits[..|inits| - 1]) + |Chosen(init.types, STAT_TYPE_NUM)| * init.size
  }

  ghost predicate Roomy(inits: seq<Init>)
  {
    && (forall k :: 0 <= k < |inits| ==> inits[k].size >= 1)
    && Objects(inits) <= DEFAULT_STATOBJ_NUM && Values(inits) < DEFAULT_STATVAL_NUM
  }

  lemma {:induction false} NeedsGrow(inits: seq<Init>, k: nat)
    requires k <= |inits| && forall i :: 0 <= i < |inits| ==> inits[i].size >= 1
    ensures Objects(inits[..k]) <= Objects(inits) && Values(inits[..k]) <= Values(inits)
  {
    hide Chosen;
    if k == |inits| {
      assert inits[..k] == inits;
    } else {
      var init := inits[..|inits| - 1];
      assert init[..k] == inits[..k];
      NeedsGrow(init, k);
      assert |Chosen(inits[|inits| - 1].types, STAT_TYPE_NUM)| * inits[|inits| - 1].size >= 0;
    }
  }

  lemma NeedsNone(inits: seq<Init>)
    ensures Objects(inits[..0]) == 0 && Values(inits[..0]) == 0
  {
  }

  lemma NeedsNext(inits: seq<Init>, k: nat)
    requires k < |inits|
    ensures var n := |Chosen(inits[k].types, STAT_TYPE_NUM)|;
            && Objects(inits[..k + 1]) == Objects(inits[..k]) + n
            && Values(inits[..k + 1]) == Values(inits[..k]) + n * inits[k].size
  {
    hide Chosen;
    assert inits[..k + 1][..k] == inits[..k];
  }

  /** One registration, as long as there is room for all. */
  lemma StillRoom(inits: seq<Init>, k: nat, objsUsed: int, valsUsed: int)
    requires Roomy(inits) && k < |inits| && objsUsed <= Objects(inits[..k]) && valsUsed <= Values(inits[..k])
    ensures Room(objsUsed, valsUsed, |Chosen(inits[k].types, STAT_TYPE_NUM)|, inits[k].size)
  {
    hide Chosen, Objects, Values;
    NeedsGrow(inits, k + 1);
    NeedsNext(inits, k);
  }

  lemma Fewer(n: nat, m: nat, size: int)
    requires n <= m && size >= 1
    ensures n * size <= m * size
  {
  }

  /** Any registrations in a new pool, which all find room if there is room for all. */
  method RegisterAll(inits: seq<Init>) returns (alive: bool, pool: CTStat)
    requires forall k :: 0 <= k < |inits| ==> |inits[k].id| < STAT_ID_MAX_LEN
    ensures fresh(pool) && pool.Valid() && Tidy(pool.objs, pool.chains) && (Roomy(inits) ==> alive)
    ensures (forall c :: 0 <= c < |pool.vals| ==> pool.vals[c] == 0)
            && forall o :: 0 <= o < |pool.objs| ==> pool.objs[o].count == 0
  {
    hide Pool, HashId, Indices, Tidy, Grown, Typed, Chosen, Present, Room, Names, Objects, Values;
    pool := new CTStat();
    NeedsNone(inits);
    for k := 0 to |inits|
      invariant fresh(pool) && pool.Valid() && Tidy(pool.objs, pool.chains)
      invariant (forall c :: 0 <= c < |pool.vals| ==> pool.vals[c] == 0)
                && forall o :: 0 <= o < |pool.objs| ==> pool.objs[o].count == 0
      invariant Roomy(inits) ==> pool.objsUsed <= Objects(inits[..k]) && pool.valsUsed <= Values(inits[..k])
    {
      if Roomy(inits) {
        StillRoom(inits, k, pool.objsUsed, pool.valsUsed);
      }
      var r, added := pool.InitStatObjFrame(inits[k].id, inits[k].types, inits[k].index, inits[k].size);
      if r == Exited {
        return false, pool;
      }
      if Roomy(inits) {
        NeedsNext(inits, k);
        if r == Done(0) {
          TypedSize(pool.objs, added, Chosen(inits[k].types, STAT_TYPE_NUM), inits[k].size);
        }
        Fewer(|added|, |Chosen(inits[k].types, STAT_TYPE_NUM)|, inits[k].size);
      }
    }
    alive := true;
  }

  /** A new pool, any registrations and any steps. As long as the process has not ended for lack of room and every
      index is in range, every value of every object is what its policy promises of the values stepped into it, and
      every count is the number of steps at the last index, or under MIN of all. */
  method Statistics(inits: seq<Init>, calls: seq<StepCall>) returns (alive: bool, pool: CTStat)
    requires forall k :: 0 <= k < |inits| ==> |inits[k].id| < STAT_ID_MAX_LEN
    ensures fresh(pool) && pool.Valid() && (Roomy(inits) ==> alive)
    ensures alive && AllIndexed(pool.objs, pool.chains, calls) ==>
              AllHolding(Stats(pool.objs, pool.vals), pool.place, calls)
  {
    hide Pool, HashId, Indices, Tidy, IndexedBy, AllHolding, SameButCounts, Roomy;
    alive, pool := RegisterAll(inits);
    if !alive {
      return;
    }
    HoldingNone(Stats(pool.objs, pool.vals), pool.Now());
    ghost var objs := pool.objs;
    StepAll(pool, calls);
    if AllIndexed(pool.objs, pool.chains, calls) {
      AllIndexedBack(objs, pool.objs, pool.chains, calls);
    }
  }

  lemma AllIndexedBack(objs: seq<StatObj>, objs': seq<StatObj>, chains: seq<seq<nat>>, calls: seq<StepCall>)
    requires SameButCounts(objs, objs') && AllIndexed(objs', chains, calls)
    ensures AllIndexed(objs, chains, calls)
  {
    hide IndexedBy;
    forall k | 0 <= k < |calls|
      ensures IndexedBy(objs, chains, calls[k])
    {
      IndexedAlike(objs', objs, chains, calls[k]);
    }
  }

  lemma ChosenOne(p: nat)
    requires p < STAT_TYPE_NUM
    ensures Chosen({p}, STAT_TYPE_NUM) == [p]
  {
    ChosenAmong(p, STAT_TYPE_NUM);
  }

  lemma {:induction false} ChosenAmong(p: nat, n: nat)
    ensures Chosen({p}, n) == if p < n then [p] else []
  {
    hide Chosen;
    ChosenNext({p}, 0);
    if n > 0 {
      ChosenAmong(p, n - 1);
      ChosenNext({p}, n - 1);
    }
  }

  /** A chain of three whose ends have the id and whose middle has another. */
  lemma Scattered(objs: seq<StatObj>, chain: seq<nat>, id: Id)
    requires |chain| == 3 && forall k :: 0 <= k < |chain| ==> chain[k] < |objs|
    requires objs[chain[0]].id == id && objs[chain[1]].id != id && objs[chain[2]].id == id
    ensures Same(objs, chain, id) == [chain[0], chain[2]] && Visited(objs, chain, id) == [chain[0]]
  {
    var rest := chain[1..];
    assert rest[0] == chain[1] && rest[1..][0] == chain[2] && rest[1..][1..] == [];
    assert Same(objs, rest[1..], id) == [chain[2]] + [];
    assert Same(objs, rest, id) == [] + Same(objs, rest[1..], id);
    assert Run(objs, chain, id) == [chain[0]] + Run(objs, rest, id);
  }

  /** Entering under one id does not make another present. */
  lemma StillAbsent(t: Table, t': Table, entered: Id, added: seq<nat>, id: Id)
    requires Pool(t) && !Present(t.objs, t.chains, id)
    requires Grown(t, t', entered, added) && id != entered
    ensures !Present(t'.objs, t'.chains, id)
  {
    hide Pool, HashId, Same, From, Grown;
    GrownSame(t, t', entered, added, id);
    FoundIsPresent(t, id);
    FirstSame(t.objs, t.chains[HashId(id)], id);
    SameHolds(t'.objs, t'.chains[HashId(id)], id);
    assert Same(t'.objs, t'.chains[HashId(id)], id) == [];
  }

  /** One object of an id not in the pool enters at the front of its bucket. */
  method RegisterOne(pool: CTStat, id: Id) returns (ghost o: nat)
    requires pool.Valid() && pool.objsUsed < 100 && pool.valsUsed == pool.objsUsed
             && !Present(pool.objs, pool.chains, id)
    modifies pool
    ensures pool.Valid() && pool.valsUsed == pool.objsUsed == old(pool.objsUsed) + 1
    ensures Heads(old(pool.Now()), pool.Now(), Stored(id), o)
    ensures forall q: Id :: q != Stored(id) && !old(Present(pool.objs, pool.chains, q)) ==>
            !Present(pool.objs, pool.chains, q)
    ensures Tidy(old(pool.objs), old(pool.chains)) ==>
              (Tidy(pool.objs, pool.chains) <==> Fresh(old(pool.objs), old(pool.chains), Stored(id)))
    ensures Tidy(old(pool.objs), old(pool.chains)) && |id| < STAT_ID_MAX_LEN ==> Tidy(pool.objs, pool.chains)
  {
    hide Pool, HashId, Indices, Grown, Chosen, Tidy, Present, Fresh, Stored, Heads;
    ghost var t0 := pool.Now();
    ChosenOne(SUM);
    var r, found, last, added := pool.InitStatObj(id, {SUM}, 1);
    TypedSize(pool.objs, added, [SUM], 1);
    o := added[0];
    assert added == [o];
    GrownHeads(t0, pool.Now(), Stored(id), o);
    forall q: Id | q != Stored(id) && !Present(t0.objs, t0.chains, q)
      ensures !Present(pool.objs, pool.chains, q)
    {
      StillAbsent(t0, pool.Now(), Stored(id), added, q);
    }
  }

  /** An object of this id is in front of its bucket, and the bucket is as before behind it. */
  ghost predicate Heads(t: Table, t': Table, id: Id, o: nat)
  {
    && |t.chains| == |t'.chains| == BUCKET_NUM && |t'.objs| == |t.objs| && o < |t.objs| && t'.objs[o].id == id
    && t'.chains[HashId(id)] == [o] + t.chains[HashId(id)]
    && forall k :: 0 <= k < |t.chains[HashId(id)]| ==>
         t.chains[HashId(id)][k] < |t.objs| && t'.objs[t.chains[HashId(id)][k]] == t.objs[t.chains[HashId(id)][k]]
  }

  lemma GrownHeads(t: Table, t': Table, id: Id, o: nat)
    requires Pool(t)
    requires Grown(t, t', id, [o])
    ensures Heads(t, t', id, o)
  {
    hide HashId, AllLinked;
    var b := HashId(id);
    InTable(t, b);
    assert Members(t.chains[b], t.place, b);
    forall k | 0 <= k < |t.chains[b]|
      ensures t'.objs[t.chains[b][k]] == t.objs[t.chains[b][k]]
    {
      assert t.chains[b][k] in t.chains[b];
    }
    assert [o][0] == o;
  }

  lemma NoneYet(objs: seq<StatObj>, chains: seq<seq<nat>>, id: Id)
    requires |chains| == BUCKET_NUM && forall b :: 0 <= b < |chains| ==> chains[b] == []
    ensures !Present(objs, chains, id) && (Tidy(objs, chains) ==> Fresh(objs, chains, id))
  {
  }

  /** Three objects of one bucket, the first and the last of the same id. */
  lemma ThreeDeep(t0: Table, t1: Table, t2: Table, t3: Table, id: Id, other: Id, o1: nat, o2: nat, o3: nat)
    requires Heads(t0, t1, id, o1) && t0.chains[HashId(id)] == []
    requires Heads(t1, t2, other, o2) && HashId(other) == HashId(id) && other != id
    requires Heads(t2, t3, id, o3)
    ensures !Fresh(t2.objs, t2.chains, id) && |t3.chains| == BUCKET_NUM
    ensures forall k :: 0 <= k < |t3.chains[HashId(id)]| ==> t3.chains[HashId(id)][k] < |t3.objs|
    ensures |Same(t3.objs, t3.chains[HashId(id)], id)| == 2 && |Visited(t3.objs, t3.chains[HashId(id)], id)| == 1
  {
    hide HashId, Same, Visited;
    var b := HashId(id);
    assert t1.chains[b] == [o1] && t2.chains[b] == [o2, o1] && t3.chains[b] == [o3, o2, o1];
    assert t2.objs[o1].id == id by {
      assert t1.chains[b][0] == o1;
    }
    assert t2.chains[b][0] == o2 && t2.chains[b][1] == o1;
    Scattered(t3.objs, t3.chains[b], id);
    assert o1 in t2.chains[b];
    SameHolds(t2.objs, t2.chains[b], id);
  }

  /** An id too long to be stored whole, registered twice with another id of the same bucket in between: the search does
      not see the object it left, another one goes in front, and from then on a step of the stored id reaches one of its
      two objects. */
  method LongIdScatters(id: Id, other: Id) returns (pool: CTStat)
    requires |id| >= STAT_ID_MAX_LEN && other != Stored(id) && |other| < STAT_ID_MAX_LEN
    requires HashId(other) == HashId(Stored(id))
    ensures fresh(pool) && pool.Valid() && !Tidy(pool.objs, pool.chains) && |pool.chains| == BUCKET_NUM
    ensures var chain := pool.chains[HashId(Stored(id))];
            && (forall k :: 0 <= k < |chain| ==> chain[k] < |pool.objs|)
            && |Same(pool.objs, chain, Stored(id))| == 2 && |Visited(pool.objs, chain, Stored(id))| == 1
  {
    hide Pool, HashId, Indices, Grown, Tidy, Present, Fresh, Same, Visited, Heads;
    pool := new CTStat();
    ghost var t0 := pool.Now();
    NoneYet(t0.objs, t0.chains, id);
    NoneYet(t0.objs, t0.chains, other);
    NoneYet(t0.objs, t0.chains, Stored(id));
    var o1 := RegisterOne(pool, id);
    ghost var t1 := pool.Now();
    var o2 := RegisterOne(pool, other);
    ghost var t2 := pool.Now();
    assert Stored(other) == other && Stored(id) != id;
    var o3 := RegisterOne(pool, id);
    ThreeDeep(t0, t1, t2, pool.Now(), Stored(id), other, o1, o2, o3);
  }
}
