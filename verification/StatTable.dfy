/** The object table of a stat pool as values: the free chain and the hash chains over one array of objects, the
    value ranges the objects own, and what one statistics step does. */
module StatTable {

  import opened IndexChain
  import opened Seqs
  import opened StatHash

  const DEFAULT_STATOBJ_NUM: nat := 200
  const DEFAULT_STATVAL_NUM: nat := 200
  const STAT_ID_MAX_LEN: nat := 64
  const INVALID_HANDLE := -1

  /** The policies in the order of their type bits. */
  const SUM := 0
  const MAX := 2
  const MIN := 3
  const SET := 5
  const STAT_TYPE_NUM: nat := 6

  /** TStatObj; `policy` is the number of its one type bit. */
  datatype StatObj = StatObj(id: Id, policy: nat, valSize: int, count: int, valOffset: int, next: int)

  /** What OBJ_INIT keeps of an id. */
  function Stored(id: Id): (r: Id)
    ensures |r| < STAT_ID_MAX_LEN
    ensures r == id <==> |id| < STAT_ID_MAX_LEN
  {
    if |id| < STAT_ID_MAX_LEN then id else id[..STAT_ID_MAX_LEN - 1]
  }

  // ---- the table ----

  function Links(objs: seq<StatObj>): (r: seq<int>)
    ensures |r| == |objs| && forall i :: 0 <= i < |r| ==> r[i] == objs[i].next
  {
    seq(|objs|, i requires 0 <= i < |objs| => objs[i].next)
  }

  /** The chain holds exactly the objects placed at b. */
  ghost predicate Members(chain: seq<nat>, place: seq<int>, b: int)
  {
    forall i: nat :: i in chain <==> i < |place| && place[i] == b
  }

  /** place[i] is the bucket object i is chained in, -1 when it is free: the chains partition the table. */
  ghost predicate Placed(place: seq<int>, free: seq<nat>, chains: seq<seq<nat>>)
  {
    && |place| == DEFAULT_STATOBJ_NUM && |chains| == BUCKET_NUM
    && (forall i :: 0 <= i < |place| ==> -1 <= place[i] < BUCKET_NUM)
    && Members(free, place, -1)
    && forall b :: 0 <= b < |chains| ==> Members(chains[b], place, b)
  }

  ghost predicate AllLinked(links: seq<int>, head: int, free: seq<nat>, bucket: seq<int>, chains: seq<seq<nat>>)
  {
    && Linked(links, head, free) && |bucket| == |chains|
    && forall b :: 0 <= b < |chains| ==> Linked(links, bucket[b], chains[b])
  }

  /** A chained object is in the bucket of its id. */
  ghost predicate Hashed(objs: seq<StatObj>, place: seq<int>)
  {
    |objs| == |place| && forall i :: 0 <= i < |objs| && place[i] != -1 ==> HashId(objs[i].id) == place[i]
  }

  /** Chained objects own disjoint ranges of values, all handed out. */
  ghost predicate Ranges(objs: seq<StatObj>, place: seq<int>, valsUsed: int)
  {
    && |objs| == |place| && 0 <= valsUsed <= DEFAULT_STATVAL_NUM
    && (forall i :: 0 <= i < |objs| && place[i] != -1 ==>
          objs[i].valSize >= 1 && 0 <= objs[i].valOffset && objs[i].valOffset + objs[i].valSize <= valsUsed)
    && (forall i, j :: 0 <= i < |objs| && 0 <= j < |objs| && i != j && place[i] != -1 && place[j] != -1 ==>
          objs[i].valOffset + objs[i].valSize <= objs[j].valOffset
            || objs[j].valOffset + objs[j].valSize <= objs[i].valOffset)
  }

  /** The objects with their buckets and, as ghosts, the chains through them. */
  datatype Table = Table(objs: seq<StatObj>, bucket: seq<int>, head: int, objsUsed: int, valsUsed: int,
                         free: seq<nat>, chains: seq<seq<nat>>, place: seq<int>)

  ghost predicate Pool(t: Table)
  {
    && |t.objs| == DEFAULT_STATOBJ_NUM && |t.bucket| == BUCKET_NUM && t.objsUsed + |t.free| == DEFAULT_STATOBJ_NUM
    && Placed(t.place, t.free, t.chains) && AllLinked(Links(t.objs), t.head, t.free, t.bucket, t.chains)
    && Hashed(t.objs, t.place) && Ranges(t.objs, t.place, t.valsUsed)
  }

  /** newpool. */
  lemma NewPool(objs: seq<StatObj>, bucket: seq<int>, free: seq<nat>, chains: seq<seq<nat>>, place: seq<int>)
    requires |objs| == |free| == |place| == DEFAULT_STATOBJ_NUM && |bucket| == |chains| == BUCKET_NUM
    requires forall i :: 0 <= i < |objs| ==> objs[i].next == if i + 1 < |objs| then i + 1 else -1
    requires forall i :: 0 <= i < |free| ==> free[i] == i
    requires forall i :: 0 <= i < |place| ==> place[i] == -1
    requires forall b :: 0 <= b < |bucket| ==> bucket[b] == INVALID_HANDLE && chains[b] == []
    ensures Pool(Table(objs, bucket, 0, 0, 0, free, chains, place))
  {
    InOrder(Links(objs), free);
    assert forall b :: 0 <= b < |chains| ==> Linked(Links(objs), bucket[b], chains[b]);
    hide Linked;
    assert AllLinked(Links(objs), 0, free, bucket, chains);
    assert forall i :: i in free ==> i < |place|;
  }

  /** The object taken from the free chain and put at the front of its bucket. */
  function Entered(objs: seq<StatObj>, bucket: seq<int>, head: int, valsUsed: int, id: Id, policy: nat,
      size: int): StatObj
    requires 0 <= head < |objs| && |bucket| == BUCKET_NUM
  {
    StatObj(Stored(id), policy, size, objs[head].count, valsUsed, bucket[HashId(Stored(id))])
  }

  lemma LinksUpdate(objs: seq<StatObj>, i: nat, o: StatObj)
    requires i < |objs|
    ensures Links(objs[i := o]) == Links(objs)[i := o.next]
  {
  }

  lemma EnteredLinks(links: seq<int>, head: int, free: seq<nat>, bucket: seq<int>, chains: seq<seq<nat>>, b: nat)
    requires AllLinked(links, head, free, bucket, chains) && free != [] && b < |chains|
    requires forall c :: 0 <= c < |chains| ==> free[0] !in chains[c]
    ensures 0 <= head < |links| && head == free[0] && head !in free[1..]
    ensures AllLinked(links[head := bucket[b]], links[head], free[1..], bucket[b := head],
            chains[b := [free[0]] + chains[b]])
  {
    hide Linked;
    Popped(links, head, free, bucket[b]);
    Pushed(links, bucket[b], chains[b], head);
    forall c | 0 <= c < |chains| && c != b
      ensures Linked(links[head := bucket[b]], bucket[c], chains[c])
    {
      Beside(links, bucket[c], chains[c], head, bucket[b]);
    }
  }

  lemma EnteredPlaces(place: seq<int>, free: seq<nat>, chains: seq<seq<nat>>, b: nat)
    requires Placed(place, free, chains) && free != [] && b < |chains| && free[0] !in free[1..]
    ensures free[0] < |place|
    ensures Placed(place[free[0] := b], free[1..], chains[b := [free[0]] + chains[b]])
  {
    var o := free[0];
    assert o in free && free == [o] + free[1..] && Members(free, place, -1);
    var place' := place[o := b];
    assert Members(free[1..], place', -1) by {
      assert forall i: nat :: i in free[1..] <==> i in free && i != o;
    }
    assert Members([o] + chains[b], place', b) by {
      assert Members(chains[b], place, b);
      assert forall i: nat :: i in [o] + chains[b] <==> i == o || i in chains[b];
    }
    forall c | 0 <= c < |chains| && c != b
      ensures Members(chains[c], place', c)
    {
      assert Members(chains[c], place, c);
    }
  }

  lemma EnteredRanges(objs: seq<StatObj>, place: seq<int>, valsUsed: int, i: nat, o: StatObj, b: nat)
    requires Ranges(objs, place, valsUsed) && i < |objs| && place[i] == -1
    requires o.valSize >= 1 && o.valOffset == valsUsed && valsUsed + o.valSize <= DEFAULT_STATVAL_NUM
    ensures Ranges(objs[i := o], place[i := b], valsUsed + o.valSize)
  {
  }

  /** alloc_statobj, OBJ_INIT and insert_statobj together keep the pool. */
  lemma EnteredPool(t: Table, id: Id, policy: nat, size: int)
    requires Pool(t)
    requires size >= 1 && t.objsUsed < DEFAULT_STATOBJ_NUM && t.valsUsed + size <= DEFAULT_STATVAL_NUM
    ensures t.free != [] && t.head == t.free[0] < |t.objs| && |t.chains| == |t.bucket| == BUCKET_NUM
    ensures |t.place| == |t.objs| && t.place[t.head] == -1
    ensures var b := HashId(Stored(id));
            var o := Entered(t.objs, t.bucket, t.head, t.valsUsed, id, policy, size);
            Pool(Table(t.objs[t.head := o], t.bucket[b := t.head], t.objs[t.head].next, t.objsUsed + 1,
                       t.valsUsed + size, t.free[1..], t.chains[b := [t.free[0]] + t.chains[b]], t.place[t.head := b]))
  {
    hide Linked, HashId;
    var b := HashId(Stored(id));
    assert t.free[0] in t.free;
    assert forall c :: 0 <= c < |t.chains| ==> t.free[0] !in t.chains[c];
    EnteredLinks(Links(t.objs), t.head, t.free, t.bucket, t.chains, b);
    var o := Entered(t.objs, t.bucket, t.head, t.valsUsed, id, policy, size);
    LinksUpdate(t.objs, t.head, o);
    EnteredPlaces(t.place, t.free, t.chains, b);
    EnteredRanges(t.objs, t.place, t.valsUsed, t.head, o, b);
  }
}
