/** Which objects a statistics step visits, and what it does to them. */
module StatStep {

  import opened IndexChain
  import opened Seqs
  import opened StatHash
  import opened StatTable

  // ---- the objects of an id ----

  /** All the objects of a chain with this id. */
  function Same(objs: seq<StatObj>, chain: seq<nat>, id: Id): seq<nat>
    requires forall k :: 0 <= k < |chain| ==> chain[k] < |objs|
  {
    if chain == [] then []
    else (if objs[chain[0]].id == id then [chain[0]] else []) + Same(objs, chain[1..], id)
  }

  lemma {:induction false} SameHolds(objs: seq<StatObj>, chain: seq<nat>, id: Id)
    requires forall k :: 0 <= k < |chain| ==> chain[k] < |objs|
    ensures forall o :: o in Same(objs, chain, id) <==> o in chain && objs[o].id == id
  {
    if chain != [] {
      SameHolds(objs, chain[1..], id);
    }
  }

  /** The chain from the first object with this id on. */
  function From(objs: seq<StatObj>, chain: seq<nat>, id: Id): (r: seq<nat>)
    requires forall k :: 0 <= k < |chain| ==> chain[k] < |objs|
    ensures |r| <= |chain| && r == chain[|chain| - |r|..]
  {
    if chain == [] || objs[chain[0]].id == id then chain else From(objs, chain[1..], id)
  }

  /** The objects with this id at the front of a chain, up to the first other one. */
  function Run(objs: seq<StatObj>, chain: seq<nat>, id: Id): (r: seq<nat>)
    requires forall k :: 0 <= k < |chain| ==> chain[k] < |objs|
  {
    if chain == [] || objs[chain[0]].id != id then [] else [chain[0]] + Run(objs, chain[1..], id)
  }

  /** Objects with the same id are next to each other. */
  ghost predicate Contiguous(objs: seq<StatObj>, chain: seq<nat>)
  {
    forall i, j, k :: Between(objs, chain, i, j, k)
  }

  ghost predicate Between(objs: seq<StatObj>, chain: seq<nat>, i: int, j: int, k: int)
  {
    (0 <= i < j < k < |chain| && chain[i] < |objs| && chain[j] < |objs| && chain[k] < |objs|) ==>
      (objs[chain[i]].id == objs[chain[k]].id ==> objs[chain[j]].id == objs[chain[i]].id)
  }

  lemma ContiguousTail(objs: seq<StatObj>, chain: seq<nat>)
    requires Contiguous(objs, chain) && chain != []
    ensures Contiguous(objs, chain[1..])
  {
    var rest := chain[1..];
    forall i, j, k
      ensures Between(objs, rest, i, j, k)
    {
      assert Between(objs, chain, i + 1, j + 1, k + 1);
    }
  }

  /** In a contiguous chain that starts with the id, the run is all there is. */
  lemma {:induction false} RunIsAll(objs: seq<StatObj>, chain: seq<nat>, id: Id)
    requires forall k :: 0 <= k < |chain| ==> chain[k] < |objs|
    requires Contiguous(objs, chain) && chain != [] && objs[chain[0]].id == id
    ensures Run(objs, chain, id) == Same(objs, chain, id)
  {
    if |chain| > 1 {
      var rest := chain[1..];
      assert rest[0] == chain[1];
      if objs[rest[0]].id == id {
        ContiguousTail(objs, chain);
        RunIsAll(objs, rest, id);
      } else {
        forall k | 0 <= k < |rest|
          ensures objs[rest[k]].id != id
        {
          assert rest[k] == chain[k + 1] && Between(objs, chain, 0, 1, k + 1);
        }
        NoneSame(objs, rest, id);
      }
    }
  }

  lemma {:induction false} NoneSame(objs: seq<StatObj>, chain: seq<nat>, id: Id)
    requires forall k :: 0 <= k < |chain| ==> chain[k] < |objs| && objs[chain[k]].id != id
    ensures Same(objs, chain, id) == []
  {
    if chain != [] {
      assert forall k :: 0 <= k < |chain[1..]| ==> chain[1..][k] == chain[k + 1];
      NoneSame(objs, chain[1..], id);
    }
  }

  /** The early break visits every object of the id: what is found from the first one on is all there is. */
  lemma {:induction false} StepVisitsAll(objs: seq<StatObj>, chain: seq<nat>, id: Id)
    requires forall k :: 0 <= k < |chain| ==> chain[k] < |objs|
    requires Contiguous(objs, chain)
    ensures Run(objs, From(objs, chain, id), id) == Same(objs, chain, id)
  {
    if chain != [] {
      if objs[chain[0]].id == id {
        RunIsAll(objs, chain, id);
      } else {
        ContiguousTail(objs, chain);
        StepVisitsAll(objs, chain[1..], id);
      }
    }
  }

  /** What a step of this id visits: the objects with it from the first one found up to the first other one. */
  function Visited(objs: seq<StatObj>, chain: seq<nat>, id: Id): (r: seq<nat>)
    requires forall k :: 0 <= k < |chain| ==> chain[k] < |objs|
  {
    Run(objs, From(objs, chain, id), id)
  }

  /** A new object keeps its chain contiguous if its id is new there or is the one at the front. */
  lemma ContiguousFront(objs: seq<StatObj>, chain: seq<nat>, i: nat, o: StatObj)
    requires Contiguous(objs, chain) && i < |objs| && i !in chain
    requires forall k :: 0 <= k < |chain| ==> chain[k] < |objs|
    requires Same(objs, chain, o.id) == [] || objs[chain[0]].id == o.id
    ensures Contiguous(objs[i := o], [i] + chain)
  {
    hide Same;
    SameHolds(objs, chain, o.id);
    var more := [i] + chain;
    var objs' := objs[i := o];
    forall k | 1 <= k < |more|
      ensures more[k] == chain[k - 1] && objs'[more[k]] == objs[chain[k - 1]]
    {
      assert chain[k - 1] in chain;
    }
    forall a, b, c
      ensures Between(objs', more, a, b, c)
    {
      if 0 <= a < b < c < |more| && objs'[more[a]].id == objs'[more[c]].id {
        if a == 0 {
          assert chain[c - 1] in Same(objs, chain, o.id);
        }
        assert Between(objs, chain, if a > 0 then a - 1 else 0, b - 1, c - 1);
      }
    }
  }

  lemma ContiguousBeside(objs: seq<StatObj>, chain: seq<nat>, i: nat, o: StatObj)
    requires Contiguous(objs, chain) && i < |objs| && i !in chain
    ensures Contiguous(objs[i := o], chain)
  {
    var objs' := objs[i := o];
    forall a, b, c
      ensures Between(objs', chain, a, b, c)
    {
      assert Between(objs, chain, a, b, c);
      if 0 <= a < b < c < |chain| {
        assert chain[a] in chain && chain[b] in chain && chain[c] in chain;
      }
    }
  }

  // ---- one step ----

  /** Statistics are 32-bit. */
  function Wrap32(x: int): (r: int)
    ensures -0x8000_0000 <= r < 0x8000_0000
    ensures -0x8000_0000 <= x < 0x8000_0000 ==> r == x
  {
    (x + 0x8000_0000) % 0x1_0000_0000 - 0x8000_0000
  }

  datatype Stats = Stats(objs: seq<StatObj>, vals: seq<int>)

  /** The value a step of an object works on: MIN always takes the first. */
  function Cell(o: StatObj, idx: int): int
  {
    if o.policy == MIN then o.valOffset else o.valOffset + idx - 1
  }

  function NewValue(policy: nat, was: int, val: int): int
  {
    if policy == SET then Wrap32(val)
    else if policy == MAX then (if was < val then Wrap32(val) else was)
    else if policy == MIN then (if was > val || was == 0 then Wrap32(val) else was)
    else Wrap32(was + val)
  }

  function Counted(o: StatObj, idx: int): StatObj
  {
    if o.policy == MIN || idx == o.valSize then o.(count := Wrap32(o.count + 1)) else o
  }

  predicate Fit(s: Stats, o: nat, idx: int)
  {
    o < |s.objs| && 0 <= Cell(s.objs[o], idx) < |s.vals|
  }

  function Apply(s: Stats, o: nat, val: int, idx: int): (r: Stats)
    requires Fit(s, o, idx)
    ensures |r.objs| == |s.objs| && |r.vals| == |s.vals|
    ensures forall q :: 0 <= q < |s.objs| ==> Cell(r.objs[q], idx) == Cell(s.objs[q], idx)
  {
    var obj := s.objs[o];
    Stats(s.objs[o := Counted(obj, idx)], s.vals[Cell(obj, idx) := NewValue(obj.policy, s.vals[Cell(obj, idx)], val)])
  }

  function ApplyAll(s: Stats, os: seq<nat>, val: int, idx: int): (r: Stats)
    requires forall k :: 0 <= k < |os| ==> Fit(s, os[k], idx)
    decreases |os|
  {
    if os == [] then s
    else
      var s' := Apply(s, os[0], val, idx);
      var rest := os[1..];
      assert forall k :: 0 <= k < |rest| ==> rest[k] == os[k + 1] && Fit(s, rest[k], idx) && Fit(s', rest[k], idx);
      ApplyAll(s', rest, val, idx)
  }

  /** Every object stepped is counted once, no other object changes. */
  lemma {:induction false} StepCounts(s: Stats, os: seq<nat>, val: int, idx: int)
    requires Distinct(os) && forall k :: 0 <= k < |os| ==> Fit(s, os[k], idx)
    ensures var r := ApplyAll(s, os, val, idx);
            && |r.objs| == |s.objs| && |r.vals| == |s.vals|
            && forall i :: 0 <= i < |s.objs| ==> r.objs[i] == if i in os then Counted(s.objs[i], idx) else s.objs[i]
    decreases |os|
  {
    if os != [] {
      var rest := os[1..];
      assert forall k :: 0 <= k < |rest| ==> rest[k] == os[k + 1] && rest[k] != os[0];
      StepCounts(Apply(s, os[0], val, idx), rest, val, idx);
    }
  }

  /** The cells of some objects are all different. */
  ghost predicate CellsApart(objs: seq<StatObj>, os: seq<nat>, idx: int)
  {
    && (forall k :: 0 <= k < |os| ==> os[k] < |objs|)
    && forall i, j :: 0 <= i < j < |os| ==> Cell(objs[os[i]], idx) != Cell(objs[os[j]], idx)
  }

  /** Each object stepped has its own value updated by its own policy, once; no other value changes. */
  lemma {:induction false} StepValues(s: Stats, os: seq<nat>, val: int, idx: int)
    requires Distinct(os) && CellsApart(s.objs, os, idx) && forall k :: 0 <= k < |os| ==> Fit(s, os[k], idx)
    ensures var r := ApplyAll(s, os, val, idx);
            && |r.vals| == |s.vals|
            && (forall k :: 0 <= k < |os| ==>
                  var c := Cell(s.objs[os[k]], idx); r.vals[c] == NewValue(s.objs[os[k]].policy, s.vals[c], val))
            && (forall c :: 0 <= c < |s.vals| && (forall k :: 0 <= k < |os| ==> Cell(s.objs[os[k]], idx) != c) ==>
                  r.vals[c] == s.vals[c])
    decreases |os|
  {
    if os != [] {
      var rest := os[1..];
      var s' := Apply(s, os[0], val, idx);
      assert forall k :: 0 <= k < |rest| ==> rest[k] == os[k + 1] && s'.objs[rest[k]] == s.objs[rest[k]];
      StepValues(s', rest, val, idx);
      assert forall k :: 1 <= k < |os| ==> os[k] == rest[k - 1];
    }
  }

  // ---- keeping the pool ----

  ghost predicate Tidy(objs: seq<StatObj>, chains: seq<seq<nat>>)
  {
    forall b :: 0 <= b < |chains| ==> Contiguous(objs, chains[b])
  }

  lemma InTable(t: Table, b: nat)
    requires Pool(t) && b < BUCKET_NUM
    ensures |t.chains| == |t.bucket| == BUCKET_NUM && Linked(Links(t.objs), t.bucket[b], t.chains[b])
    ensures forall k :: 0 <= k < |t.chains[b]| ==> t.chains[b][k] < |t.objs|
    ensures forall o :: o in t.chains[b] ==> o < |t.objs| && HashId(t.objs[o].id) == b
  {
    assert Linked(Links(t.objs), t.bucket[b], t.chains[b]);
    hide Linked, HashId;
    assert Members(t.chains[b], t.place, b);
    assert forall k :: 0 <= k < |t.chains[b]| ==> t.chains[b][k] in t.chains[b];
  }

  /** insert_statobj keeps every chain contiguous when the id is new or at the front of its bucket. */
  lemma EnteredTidy(objs: seq<StatObj>, chains: seq<seq<nat>>, i: nat, o: StatObj, b: nat)
    requires Tidy(objs, chains) && i < |objs| && b < |chains|
    requires forall c, k :: 0 <= c < |chains| && 0 <= k < |chains[c]| ==> chains[c][k] < |objs|
    requires forall c :: 0 <= c < |chains| ==> i !in chains[c]
    requires Same(objs, chains[b], o.id) == [] || objs[chains[b][0]].id == o.id
    ensures Tidy(objs[i := o], chains[b := [i] + chains[b]])
  {
    hide Contiguous, Same;
    ContiguousFront(objs, chains[b], i, o);
    forall c | 0 <= c < |chains| && c != b
      ensures Contiguous(objs[i := o], chains[c])
    {
      ContiguousBeside(objs, chains[c], i, o);
    }
  }

  /** A search that finds nothing means that there is nothing. */
  lemma {:induction false} NotFound(objs: seq<StatObj>, chain: seq<nat>, id: Id)
    requires forall k :: 0 <= k < |chain| ==> chain[k] < |objs|
    ensures From(objs, chain, id) == [] <==> Same(objs, chain, id) == []
    ensures From(objs, chain, id) != [] ==> objs[From(objs, chain, id)[0]].id == id
  {
    if chain != [] && objs[chain[0]].id != id {
      NotFound(objs, chain[1..], id);
    }
  }

  /** Two tables that differ in counts only. */
  ghost predicate SameButCounts(objs: seq<StatObj>, objs': seq<StatObj>)
  {
    |objs'| == |objs| && forall i :: 0 <= i < |objs| ==> objs'[i] == objs[i].(count := objs'[i].count)
  }

  lemma CountsKeepPool(t: Table, objs': seq<StatObj>)
    requires Pool(t) && SameButCounts(t.objs, objs')
    ensures Pool(t.(objs := objs'))
    ensures Tidy(t.objs, t.chains) ==> Tidy(objs', t.chains)
  {
    hide Linked, HashId;
    assert Links(objs') == Links(t.objs);
    if Tidy(t.objs, t.chains) {
      forall b | 0 <= b < |t.chains|
        ensures Contiguous(objs', t.chains[b])
      {
        assert Contiguous(t.objs, t.chains[b]);
        assert forall i, j, k :: Between(t.objs, t.chains[b], i, j, k) ==> Between(objs', t.chains[b], i, j, k);
      }
    }
  }

  /** What an object may be stepped at: MIN takes any index, the others one of its values. */
  ghost predicate Indexed(objs: seq<StatObj>, chain: seq<nat>, id: Id, idx: int)
  {
    forall o :: o in chain && o < |objs| && objs[o].id == id && objs[o].policy != MIN ==> 1 <= idx <= objs[o].valSize
  }

  lemma AllFit(s: Stats, t: Table, id: Id, idx: int)
    requires Pool(t) && t.objs == s.objs && |s.vals| == DEFAULT_STATVAL_NUM
    requires |t.chains| == BUCKET_NUM && Indexed(s.objs, t.chains[HashId(id)], id, idx)
    ensures forall k :: 0 <= k < |t.chains[HashId(id)]| ==> t.chains[HashId(id)][k] < |s.objs|
    ensures var os := Same(s.objs, t.chains[HashId(id)], id);
            (forall k :: 0 <= k < |os| ==> Fit(s, os[k], idx)) && Distinct(os) && CellsApart(s.objs, os, idx)
  {
    hide HashId;
    var b := HashId(id);
    InTable(t, b);
    var chain := t.chains[b];
    assert Members(chain, t.place, b);
    DistinctSame(s.objs, chain, id);
    SameHolds(s.objs, chain, id);
    hide Same, Linked, Distinct;
    var os := Same(s.objs, chain, id);
    forall k | 0 <= k < |os|
      ensures os[k] < |s.objs| && t.place[os[k]] == b && Fit(s, os[k], idx)
    {
      assert os[k] in os;
    }
    forall i, j | 0 <= i < j < |os|
      ensures Cell(s.objs[os[i]], idx) != Cell(s.objs[os[j]], idx)
    {
      DistinctAt(os, i, j);
      assert os[i] in os && os[j] in os;
    }
  }

  lemma DistinctAt(os: seq<nat>, i: nat, j: nat)
    requires Distinct(os) && i < j < |os|
    ensures os[i] != os[j]
  {
  }

  lemma {:induction false} DistinctSame(objs: seq<StatObj>, chain: seq<nat>, id: Id)
    requires Distinct(chain) && forall k :: 0 <= k < |chain| ==> chain[k] < |objs|
    ensures Distinct(Same(objs, chain, id))
  {
    if chain != [] {
      assert forall k :: 0 <= k < |chain[1..]| ==> chain[1..][k] == chain[k + 1];
      DistinctSame(objs, chain[1..], id);
      SameHolds(objs, chain[1..], id);
      assert chain[0] !in Same(objs, chain[1..], id);
    }
  }

  /** When the id has more objects, the step at the last index counts them all, the indexed one only its own. */
  lemma OpMissesOthers(s: Stats, os: seq<nat>, o: nat, p: nat, val: int, idx: int)
    requires Distinct(os) && forall k :: 0 <= k < |os| ==> Fit(s, os[k], idx)
    requires o in os && p in os && o != p && Fit(s, o, idx) && p < |s.objs| && idx == s.objs[p].valSize
    ensures ApplyAll(s, os, val, idx) != Apply(s, o, val, idx)
  {
    StepCounts(s, os, val, idx);
    assert Wrap32(s.objs[p].count + 1) != s.objs[p].count;
  }

  lemma ChainAt(links: seq<int>, head: int, chain: seq<nat>, k: nat)
    requires Linked(links, head, chain) && k < |chain|
    ensures chain[k] < |links| && links[chain[k]] == After(chain, k) && links[chain[k]] != chain[k]
  {
  }

  /** One turn of the search: the object at k is the one, or the search goes on after it. */
  lemma FromAt(objs: seq<StatObj>, chain: seq<nat>, k: nat, id: Id)
    requires k < |chain| && forall j :: 0 <= j < |chain| ==> chain[j] < |objs|
    ensures From(objs, chain[k..], id) == if objs[chain[k]].id == id then chain[k..] else From(objs, chain[k + 1..], id)
  {
    assert chain[k..][1..] == chain[k + 1..];
  }

  lemma FromNothing(objs: seq<StatObj>, id: Id)
    ensures From(objs, [], id) == []
  {
  }

  lemma NewTidy(objs: seq<StatObj>, chains: seq<seq<nat>>)
    requires forall b :: 0 <= b < |chains| ==> chains[b] == []
    ensures Tidy(objs, chains)
  {
  }

  /** The chains are contiguous, and the id is not in its bucket or is at its front. */
  ghost predicate Fresh(objs: seq<StatObj>, chains: seq<seq<nat>>, id: Id)
  {
    && Tidy(objs, chains) && |chains| == BUCKET_NUM
    && (forall c, k :: 0 <= c < |chains| && 0 <= k < |chains[c]| ==> chains[c][k] < |objs|)
    && (Same(objs, chains[HashId(id)], id) == [] || objs[chains[HashId(id)][0]].id == id)
  }

  lemma FreshEntered(objs: seq<StatObj>, chains: seq<seq<nat>>, i: nat, o: StatObj)
    requires Fresh(objs, chains, o.id) && i < |objs| && forall c :: 0 <= c < |chains| ==> i !in chains[c]
    ensures var b := HashId(o.id); Fresh(objs[i := o], chains[b := [i] + chains[b]], o.id)
  {
    hide HashId, Same;
    EnteredTidy(objs, chains, i, o, HashId(o.id));
  }

  lemma Unchained(t: Table)
    requires Pool(t)
    ensures |t.chains| == BUCKET_NUM && |t.place| == |t.objs|
    ensures forall c, i: nat :: 0 <= c < |t.chains| && i < |t.place| && t.place[i] == -1 ==> i !in t.chains[c]
  {
    hide Linked, HashId;
    forall c, i: nat | 0 <= c < |t.chains| && i < |t.place| && t.place[i] == -1
      ensures i !in t.chains[c]
    {
      assert Members(t.chains[c], t.place, c);
    }
  }

  lemma PoolSizes(t: Table)
    requires Pool(t)
    ensures |t.chains| == BUCKET_NUM && |t.place| == |t.objs|
  {
  }

  lemma FreshIsTidy(objs: seq<StatObj>, chains: seq<seq<nat>>, id: Id)
    ensures Fresh(objs, chains, id) ==> Tidy(objs, chains)
  {
  }

  /** A tidy pool where the search found nothing is ready for the id. */
  lemma NotFoundIsFresh(t: Table, id: Id)
    requires Pool(t) && Tidy(t.objs, t.chains)
    requires |t.chains| == BUCKET_NUM && forall k :: 0 <= k < |t.chains[HashId(id)]| ==>
             t.chains[HashId(id)][k] < |t.objs|
    requires From(t.objs, t.chains[HashId(id)], id) == []
    ensures Fresh(t.objs, t.chains, id)
  {
    hide HashId, Tidy, Linked;
    NotFound(t.objs, t.chains[HashId(id)], id);
    forall c | 0 <= c < |t.chains|
      ensures forall k :: 0 <= k < |t.chains[c]| ==> t.chains[c][k] < |t.objs|
    {
      InTable(t, c);
    }
  }

  /** The objects `added`, free before and with this id now, are in front of its bucket; nothing else has changed. */
  ghost predicate Grown(t: Table, t': Table, id: Id, added: seq<nat>)
  {
    && |t.chains| == BUCKET_NUM && |t'.objs| == |t.objs| == |t'.place| == |t.place|
    && t'.chains == t.chains[HashId(id) := added + t.chains[HashId(id)]]
    && (forall k :: 0 <= k < |added| ==>
          added[k] < |t.objs| && t'.objs[added[k]].id == id && t.place[added[k]] == -1
            && t'.place[added[k]] == HashId(id))
    && (forall i: nat :: i < |t.objs| && i !in added ==> t'.objs[i] == t.objs[i] && t'.place[i] == t.place[i])
  }

  lemma GrownSizes(t: Table, t': Table, id: Id, added: seq<nat>)
    requires Grown(t, t', id, added)
    ensures |t'.objs| == |t.objs| == |t'.place| == |t.place|
  {
  }

  lemma GrownNothing(t: Table, id: Id)
    requires |t.chains| == BUCKET_NUM && |t.objs| == |t.place|
    ensures Grown(t, t, id, [])
  {
    assert [] + t.chains[HashId(id)] == t.chains[HashId(id)];
  }

  lemma GrownMore(t: Table, t1: Table, t2: Table, id: Id, added: seq<nat>, i: nat, o: StatObj)
    requires Grown(t, t1, id, added) && o.id == id && i < |t.objs| && t1.place[i] == -1 && |t1.chains| == BUCKET_NUM
    requires t2.objs == t1.objs[i := o] && t2.place == t1.place[i := HashId(id)]
    requires t2.chains == t1.chains[HashId(id) := [i] + t1.chains[HashId(id)]]
    ensures Grown(t, t2, id, [i] + added)
  {
    hide HashId;
    var more := [i] + added;
    assert forall k :: 0 <= k < |added| ==> added[k] in added && added[k] != i;
    assert i !in added;
    assert forall j :: j in more <==> j == i || j in added;
    assert [i] + (added + t.chains[HashId(id)]) == more + t.chains[HashId(id)];
  }

  lemma GrownFirst(t: Table, t': Table, id: Id, added: seq<nat>)
    requires Grown(t, t', id, added) && added != []
    ensures added[0] < |t'.objs| == |t'.place| && t'.objs[added[0]].id == id && t'.place[added[0]] != -1
  {
  }

  /** An object of the bucket has this id. */
  ghost predicate Present(objs: seq<StatObj>, chains: seq<seq<nat>>, id: Id)
  {
    |chains| == BUCKET_NUM && exists o :: o in chains[HashId(id)] && o < |objs| && objs[o].id == id
  }

  lemma FoundIsPresent(t: Table, id: Id)
    requires Pool(t)
    ensures |t.chains| == BUCKET_NUM && |t.place| == |t.objs|
    ensures forall k :: 0 <= k < |t.chains[HashId(id)]| ==> t.chains[HashId(id)][k] < |t.objs|
    ensures var found := From(t.objs, t.chains[HashId(id)], id);
            && (found != [] <==> Present(t.objs, t.chains, id))
            && (found != [] ==> found[0] < |t.objs| && t.objs[found[0]].id == id && t.place[found[0]] != -1)
  {
    hide HashId, Linked, From, Same;
    var b := HashId(id);
    InTable(t, b);
    NotFound(t.objs, t.chains[b], id);
    var found := From(t.objs, t.chains[b], id);
    assert Members(t.chains[b], t.place, b);
    if found != [] {
      assert found[0] in t.chains[b];
    }
    if Present(t.objs, t.chains, id) {
      var o :| o in t.chains[b] && o < |t.objs| && t.objs[o].id == id;
      SameHolds(t.objs, t.chains[b], id);
      assert o in Same(t.objs, t.chains[b], id);
    }
  }

  // ---- the loop of a step ----

  lemma {:induction false} RunPrefix(objs: seq<StatObj>, chain: seq<nat>, id: Id)
    requires forall k :: 0 <= k < |chain| ==> chain[k] < |objs|
    ensures var r := Run(objs, chain, id);
            && |r| <= |chain| && (forall k :: 0 <= k < |r| ==> r[k] == chain[k] && objs[chain[k]].id == id)
            && (|r| < |chain| ==> objs[chain[|r|]].id != id)
  {
    if chain != [] && objs[chain[0]].id == id {
      var rest := chain[1..];
      assert forall k :: 0 <= k < |rest| ==> rest[k] == chain[k + 1];
      RunPrefix(objs, rest, id);
      var r := Run(objs, rest, id);
      assert forall k :: 1 <= k < |r| + 1 ==> ([chain[0]] + r)[k] == r[k - 1] == rest[k - 1];
    }
  }

  /** After k of the objects have been stepped, stepping the rest gives what stepping all of them gives. */
  ghost predicate StepAt(s0: Stats, s: Stats, os: seq<nat>, k: nat, val: int, idx: int)
  {
    && SameButCounts(s0.objs, s.objs) && |s.vals| == |s0.vals| && k <= |os|
    && (forall j :: 0 <= j < |os| ==> Fit(s0, os[j], idx))
    && (forall j :: 0 <= j < |os[k..]| ==> Fit(s, os[k..][j], idx))
    && ApplyAll(s, os[k..], val, idx) == ApplyAll(s0, os, val, idx)
  }

  lemma StepAtStart(s: Stats, os: seq<nat>, val: int, idx: int)
    requires forall j :: 0 <= j < |os| ==> Fit(s, os[j], idx)
    ensures StepAt(s, s, os, 0, val, idx)
  {
    assert os[0..] == os;
  }

  lemma StepAtNext(s0: Stats, s: Stats, os: seq<nat>, k: nat, val: int, idx: int)
    requires StepAt(s0, s, os, k, val, idx) && k < |os|
    ensures Fit(s, os[k], idx) && StepAt(s0, Apply(s, os[k], val, idx), os, k + 1, val, idx)
  {
    var left := os[k..];
    var rest := os[k + 1..];
    assert left[0] == os[k] && left[1..] == rest && Fit(s, left[0], idx);
    var s' := Apply(s, os[k], val, idx);
    forall j | 0 <= j < |rest|
      ensures Fit(s', rest[j], idx)
    {
      assert rest[j] == left[j + 1] && Fit(s, left[j + 1], idx);
    }
  }

  lemma StepAtEnd(s0: Stats, s: Stats, os: seq<nat>, val: int, idx: int)
    requires StepAt(s0, s, os, |os|, val, idx)
    ensures (forall j :: 0 <= j < |os| ==> Fit(s0, os[j], idx)) && s == ApplyAll(s0, os, val, idx)
  {
    assert os[|os|..] == [];
  }

  /** The objects `os` are those with the id that `first` starts with. */
  ghost predicate Leading(objs: seq<StatObj>, first: seq<nat>, os: seq<nat>, id: Id)
  {
    && |os| <= |first| && (forall k :: 0 <= k < |first| ==> first[k] < |objs|)
    && (forall k :: 0 <= k < |os| ==> os[k] == first[k] && objs[first[k]].id == id)
    && (|os| < |first| ==> objs[first[|os|]].id != id)
  }

  lemma LeadingAt(objs: seq<StatObj>, first: seq<nat>, os: seq<nat>, id: Id, k: nat)
    requires Leading(objs, first, os, id) && k <= |os|
    ensures k == |first| ==> k == |os|
    ensures k < |first| ==>
            first[k] < |objs| && (objs[first[k]].id == id <==> k < |os|) && (k < |os| ==> os[k] == first[k])
  {
  }

  /** The objects up to the first whose value is not in the array: the index is not checked. */
  function Inside(s: Stats, os: seq<nat>, idx: int): seq<nat>
  {
    if os == [] || !Fit(s, os[0], idx) then [] else [os[0]] + Inside(s, os[1..], idx)
  }

  lemma {:induction false} InsideMeans(s: Stats, os: seq<nat>, idx: int)
    ensures var r := Inside(s, os, idx);
            && r <= os && (forall k :: 0 <= k < |r| ==> Fit(s, r[k], idx))
            && (|r| < |os| ==> !Fit(s, os[|r|], idx))
  {
    if os != [] && Fit(s, os[0], idx) {
      var rest := os[1..];
      InsideMeans(s, rest, idx);
      var r := Inside(s, rest, idx);
      assert forall k :: 0 < k < |r| + 1 ==> ([os[0]] + r)[k] == r[k - 1];
      assert |r| < |rest| ==> rest[|r|] == os[|r| + 1];
    }
  }

  /** The values of the objects visited are there. */
  ghost predicate Reaches(s: Stats, chain: seq<nat>, id: Id, idx: int)
  {
    && (forall k :: 0 <= k < |chain| ==> chain[k] < |s.objs|)
    && var os := Visited(s.objs, chain, id); forall k :: 0 <= k < |os| ==> Fit(s, os[k], idx)
  }

  lemma ReachesAll(s: Stats, chain: seq<nat>, id: Id, idx: int)
    requires forall k :: 0 <= k < |chain| ==> chain[k] < |s.objs|
    ensures var os := Visited(s.objs, chain, id);
            && (Reaches(s, chain, id, idx) <==> |Inside(s, os, idx)| == |os|)
            && (Reaches(s, chain, id, idx) ==> Inside(s, os, idx) == os)
  {
    hide Visited, Fit, Inside;
    InsideMeans(s, Visited(s.objs, chain, id), idx);
  }

  /** Where the loop starts: at the first object of the id. */
  lemma StepStart(s: Stats, chain: seq<nat>, id: Id, val: int, idx: int)
    requires forall k :: 0 <= k < |chain| ==> chain[k] < |s.objs|
    ensures var first := From(s.objs, chain, id);
            var os := Visited(s.objs, chain, id);
            && Leading(s.objs, first, os, id) && |first| <= |chain| && first == chain[|chain| - |first|..]
            && StepAt(s, s, Inside(s, os, idx), 0, val, idx)
  {
    hide From, Run, StepAt, Fit, Inside;
    var first := From(s.objs, chain, id);
    var os := Visited(s.objs, chain, id);
    assert forall k :: 0 <= k < |first| ==> first[k] == chain[|chain| - |first| + k];
    RunPrefix(s.objs, first, id);
    InsideMeans(s, os, idx);
    StepAtStart(s, Inside(s, os, idx), val, idx);
  }

  /** At the k-th object visited: its value is in the array as long as it is one of those. */
  lemma StillInside(s0: Stats, s: Stats, os: seq<nat>, k: nat, val: int, idx: int)
    requires StepAt(s0, s, Inside(s0, os, idx), k, val, idx) && k < |os|
    ensures Inside(s0, os, idx) <= os
    ensures Fit(s, os[k], idx) <==> k < |Inside(s0, os, idx)|
  {
    hide ApplyAll, Inside;
    InsideMeans(s0, os, idx);
    if k < |Inside(s0, os, idx)| {
      assert Inside(s0, os, idx)[k..][0] == os[k];
    }
  }

  /** An index in range for every object of the id is enough, on contiguous chains. */
  lemma IndexedReaches(s: Stats, t: Table, id: Id, idx: int)
    requires Pool(t) && t.objs == s.objs && |s.vals| == DEFAULT_STATVAL_NUM
    requires Tidy(s.objs, t.chains) && |t.chains| == BUCKET_NUM && Indexed(s.objs, t.chains[HashId(id)], id, idx)
    ensures Reaches(s, t.chains[HashId(id)], id, idx)
  {
    hide HashId, From, Same, Run, Pool, Indexed, Contiguous, Distinct, CellsApart, Fit;
    AllFit(s, t, id, idx);
    StepVisitsAll(s.objs, t.chains[HashId(id)], id);
  }

  /** The object after the k-th one from where the search stopped. */
  lemma NextOf(t: Table, b: nat, first: seq<nat>, k: nat)
    requires Pool(t) && b < |t.chains|
    requires |first| <= |t.chains[b]| && first == t.chains[b][|t.chains[b]| - |first|..] && k < |first|
    ensures first[k] < |t.objs| && t.objs[first[k]].next == After(first, k)
  {
    hide HashId, Linked;
    InTable(t, b);
    var d := |t.chains[b]| - |first|;
    ChainAt(Links(t.objs), t.bucket[b], t.chains[b], d + k);
    assert forall j :: 0 <= j < |first| ==> first[j] == t.chains[b][d + j];
  }

  /** The result of stepping each of these objects once. */
  ghost predicate Stepped(s0: Stats, s: Stats, os: seq<nat>, val: int, idx: int)
  {
    && (forall j :: 0 <= j < |os| ==> Fit(s0, os[j], idx))
    && s == ApplyAll(s0, os, val, idx)
  }

  /** The result of stepping each object of an id once. */
  ghost predicate SteppedId(s0: Stats, s: Stats, chains: seq<seq<nat>>, id: Id, val: int, idx: int)
  {
    && |chains| == BUCKET_NUM && (forall k :: 0 <= k < |chains[HashId(id)]| ==> chains[HashId(id)][k] < |s0.objs|)
    && Stepped(s0, s, Same(s0.objs, chains[HashId(id)], id), val, idx)
  }

  /** Stepping what is visited is stepping all of the id, on a contiguous chain. */
  lemma SteppedAll(s0: Stats, s: Stats, chains: seq<seq<nat>>, id: Id, val: int, idx: int)
    requires |chains| == BUCKET_NUM && forall k :: 0 <= k < |chains[HashId(id)]| ==> chains[HashId(id)][k] < |s0.objs|
    requires Stepped(s0, s, Visited(s0.objs, chains[HashId(id)], id), val, idx) && Tidy(s0.objs, chains)
    ensures SteppedId(s0, s, chains, id, val, idx)
  {
    hide HashId, From, Same, Run, Contiguous;
    StepVisitsAll(s0.objs, chains[HashId(id)], id);
  }

  lemma AlikeAt(s0: Stats, s: Stats, os: seq<nat>, k: nat, val: int, idx: int, i: nat)
    requires StepAt(s0, s, os, k, val, idx) && i < |s0.objs|
    ensures SameButCounts(s0.objs, s.objs) && |s.vals| == |s0.vals|
    ensures i < |s.objs| && s.objs[i].id == s0.objs[i].id && s.objs[i].next == s0.objs[i].next
  {
  }

  lemma {:induction false} AlikeAll(s: Stats, os: seq<nat>, val: int, idx: int)
    requires forall k :: 0 <= k < |os| ==> Fit(s, os[k], idx)
    ensures var r := ApplyAll(s, os, val, idx); SameButCounts(s.objs, r.objs) && |r.vals| == |s.vals|
    decreases |os|
  {
    if os != [] {
      var rest := os[1..];
      var s' := Apply(s, os[0], val, idx);
      assert forall k :: 0 <= k < |rest| ==> rest[k] == os[k + 1] && Fit(s, rest[k], idx) && Fit(s', rest[k], idx);
      AlikeAll(s', rest, val, idx);
    }
  }

  /** What a step by name does to a pool: each chained object with the id is counted once and has its own value
      updated by its own policy, and no other object and no other value changes. */
  lemma StepMeans(s0: Stats, s: Stats, t: Table, id: Id, val: int, idx: int)
    requires Pool(t) && t.objs == s0.objs && |s0.vals| == DEFAULT_STATVAL_NUM
    requires |t.chains| == BUCKET_NUM && Indexed(s0.objs, t.chains[HashId(id)], id, idx)
    requires SteppedId(s0, s, t.chains, id, val, idx)
    ensures |s.objs| == |s0.objs| == |t.place| && |s.vals| == |s0.vals|
    ensures forall i :: 0 <= i < |s0.objs| ==>
              s.objs[i] == if t.place[i] != -1 && s0.objs[i].id == id then Counted(s0.objs[i], idx) else s0.objs[i]
    ensures forall i :: 0 <= i < |s0.objs| && t.place[i] != -1 && s0.objs[i].id == id ==>
              var c := Cell(s0.objs[i], idx);
              0 <= c < |s0.vals| && s.vals[c] == NewValue(s0.objs[i].policy, s0.vals[c], val)
    ensures forall c :: 0 <= c < |s0.vals| && s.vals[c] != s0.vals[c] ==>
              exists i :: 0 <= i < |s0.objs| && t.place[i] != -1 && s0.objs[i].id == id && Cell(s0.objs[i], idx) == c
  {
    hide HashId, Linked, Same, ApplyAll, Indexed, CellsApart, Distinct;
    var b := HashId(id);
    var os := Same(s0.objs, t.chains[b], id);
    AllFit(s0, t, id, idx);
    StepCounts(s0, os, val, idx);
    StepValues(s0, os, val, idx);
    assert Members(t.chains[b], t.place, b);
    SameHolds(s0.objs, t.chains[b], id);
    forall i: nat | i < |s0.objs|
      ensures i in os <==> t.place[i] != -1 && s0.objs[i].id == id
    {
    }
    forall i: nat | i < |s0.objs| && i in os
      ensures var c := Cell(s0.objs[i], idx);
              0 <= c < |s0.vals| && s.vals[c] == NewValue(s0.objs[i].policy, s0.vals[c], val)
    {
      var k :| 0 <= k < |os| && os[k] == i;
    }
    forall c | 0 <= c < |s0.vals| && s.vals[c] != s0.vals[c]
      ensures exists i :: 0 <= i < |s0.objs| && t.place[i] != -1 && s0.objs[i].id == id && Cell(s0.objs[i], idx) == c
    {
      var k :| 0 <= k < |os| && Cell(s0.objs[os[k]], idx) == c;
      assert os[k] in os;
    }
  }

  /** Exactly the objects `os` of the table have this id, and the index names the first of them. */
  ghost predicate Registered(objs: seq<StatObj>, chains: seq<seq<nat>>, statindex: seq<int>, index: int, id: Id,
      os: seq<nat>)
  {
    && |chains| == BUCKET_NUM && (forall k :: 0 <= k < |chains[HashId(id)]| ==> chains[HashId(id)][k] < |objs|)
    && os != [] && Same(objs, chains[HashId(id)], id) == os
    && 0 <= index < |statindex| && statindex[index] == os[0]
  }

  /** One object of a table is stepped, or all of these: the same for one. */
  lemma SteppedOne(s0: Stats, s: Stats, o: nat, val: int, idx: int)
    requires Stepped(s0, s, [o], val, idx)
    ensures Fit(s0, o, idx) && s == Apply(s0, o, val, idx)
  {
    var os := [o];
    assert os[0] == o && os[1..] == [] && Fit(s0, os[0], idx);
    assert ApplyAll(s0, os, val, idx) == ApplyAll(Apply(s0, o, val, idx), [], val, idx);
  }

  lemma SameNext(objs: seq<StatObj>, first: nat, rest: seq<nat>, id: Id)
    requires first < |objs| && forall k :: 0 <= k < |rest| ==> rest[k] < |objs|
    ensures forall k :: 0 <= k < |[first] + rest| ==> ([first] + rest)[k] < |objs|
    ensures Same(objs, [first] + rest, id) == (if objs[first].id == id then [first] else []) + Same(objs, rest, id)
  {
    assert ([first] + rest)[1..] == rest;
  }

  /** Objects in front of a chain that all have the id, or all have another. */
  lemma {:induction false} SameInFront(objs: seq<StatObj>, added: seq<nat>, chain: seq<nat>, id: Id, yes: bool)
    requires forall k :: 0 <= k < |chain| ==> chain[k] < |objs|
    requires forall k :: 0 <= k < |added| ==> added[k] < |objs| && (objs[added[k]].id == id <==> yes)
    ensures forall k :: 0 <= k < |added + chain| ==> (added + chain)[k] < |objs|
    ensures Same(objs, added + chain, id) == (if yes then added else []) + Same(objs, chain, id)
    decreases |added|
  {
    hide Same;
    if added == [] {
      assert added + chain == chain && [] + Same(objs, chain, id) == Same(objs, chain, id);
    } else {
      var rest := added[1..];
      assert forall k :: 0 <= k < |rest| ==> rest[k] == added[k + 1];
      SameInFront(objs, rest, chain, id, yes);
      SameNext(objs, added[0], rest + chain, id);
      assert added + chain == [added[0]] + (rest + chain);
      if yes {
        assert [added[0]] + (rest + Same(objs, chain, id)) == added + Same(objs, chain, id);
      } else {
        assert [] + ([] + Same(objs, chain, id)) == [] + Same(objs, chain, id);
      }
    }
  }

  lemma {:induction false} SameAlike(objs: seq<StatObj>, objs': seq<StatObj>, chain: seq<nat>, id: Id)
    requires |objs'| == |objs|
    requires forall k :: 0 <= k < |chain| ==> chain[k] < |objs| && objs'[chain[k]].id == objs[chain[k]].id
    ensures Same(objs', chain, id) == Same(objs, chain, id)
  {
    if chain != [] {
      assert forall k :: 0 <= k < |chain[1..]| ==> chain[1..][k] == chain[k + 1];
      SameAlike(objs, objs', chain[1..], id);
    }
  }

  /** The search stops at the first of them. */
  lemma {:induction false} FirstSame(objs: seq<StatObj>, chain: seq<nat>, id: Id)
    requires forall k :: 0 <= k < |chain| ==> chain[k] < |objs|
    ensures (From(objs, chain, id) == [] <==> Same(objs, chain, id) == [])
    ensures From(objs, chain, id) != [] ==> From(objs, chain, id)[0] == Same(objs, chain, id)[0]
  {
    if chain != [] && objs[chain[0]].id != id {
      FirstSame(objs, chain[1..], id);
    }
  }

  /** The objects of an id in its bucket once some have entered, under this id or another. */
  lemma GrownSame(t: Table, t': Table, entered: Id, added: seq<nat>, id: Id)
    requires Pool(t)
    requires Grown(t, t', entered, added)
    ensures |t'.chains| == |t.chains| == BUCKET_NUM
    ensures forall k :: 0 <= k < |t.chains[HashId(id)]| ==> t.chains[HashId(id)][k] < |t.objs|
    ensures forall k :: 0 <= k < |t'.chains[HashId(id)]| ==> t'.chains[HashId(id)][k] < |t'.objs|
    ensures Same(t'.objs, t'.chains[HashId(id)], id) ==
              (if id == entered then added else []) + Same(t.objs, t.chains[HashId(id)], id)
  {
    hide HashId, Linked, Same;
    var b := HashId(id);
    InTable(t, b);
    var chain := t.chains[b];
    assert Members(chain, t.place, b);
    forall k | 0 <= k < |chain|
      ensures t'.objs[chain[k]] == t.objs[chain[k]]
    {
      assert chain[k] in chain;
    }
    SameAlike(t.objs, t'.objs, chain, id);
    if b == HashId(entered) {
      assert forall k :: 0 <= k < |added + chain| ==> (added + chain)[k] < |t'.objs|;
      SameInFront(t'.objs, added, chain, id, id == entered);
    } else {
      assert [] + Same(t.objs, chain, id) == Same(t.objs, chain, id);
    }
  }

  /** The objects have these policies and this size. */
  ghost predicate Typed(objs: seq<StatObj>, added: seq<nat>, policies: seq<nat>, size: int)
  {
    && |added| == |policies|
    && forall k :: 0 <= k < |added| ==>
         added[k] < |objs| && objs[added[k]].policy == policies[k] && objs[added[k]].valSize == size
  }

  lemma TypedMore(t: Table, t1: Table, id: Id, added: seq<nat>,
                  policies: seq<nat>, size: int, i: nat, o: StatObj)
    requires Grown(t, t1, id, added) && Typed(t1.objs, added, policies, size)
    requires i < |t1.objs| && i < |t1.place| && t1.place[i] == -1 && o.valSize == size
    ensures Typed(t1.objs[i := o], [i] + added, [o.policy] + policies, size)
  {
    hide HashId;
    var objs2, more, all := t1.objs[i := o], [i] + added, [o.policy] + policies;
    forall k | 0 <= k < |more|
      ensures more[k] < |objs2| && objs2[more[k]].policy == all[k] && objs2[more[k]].valSize == size
    {
      if k > 0 {
        assert more[k] == added[k - 1] && added[k - 1] != i;
      }
    }
  }

  /** Objects entering in front of a bucket that has the id further back leave its objects in two places. */
  lemma GrownUntidy(t: Table, t': Table, id: Id, added: seq<nat>)
    requires Pool(t)
    requires Grown(t, t', id, added) && added != []
    requires forall k :: 0 <= k < |t.chains[HashId(id)]| ==> t.chains[HashId(id)][k] < |t.objs|
    requires Same(t.objs, t.chains[HashId(id)], id) != [] && t.objs[t.chains[HashId(id)][0]].id != id
    ensures !Tidy(t'.objs, t'.chains)
  {
    hide HashId, Linked, Same;
    var b := HashId(id);
    var chain := t.chains[b];
    SameHolds(t.objs, chain, id);
    var p := Same(t.objs, chain, id)[0];
    assert p in Same(t.objs, chain, id);
    var c :| 0 <= c < |chain| && chain[c] == p;
    assert Members(chain, t.place, b);
    assert chain[0] in chain && chain[c] in chain;
    var more := added + chain;
    assert more[0] == added[0] && more[|added|] == chain[0] && more[|added| + c] == p;
    assert !Between(t'.objs, more, 0, |added|, |added| + c);
    assert t'.chains[b] == more;
  }

  /** Ready for the id, or not because it is in its bucket but not in front. */
  lemma FreshOrBehind(t: Table, id: Id)
    requires Pool(t) && Tidy(t.objs, t.chains)
    ensures |t.chains| == BUCKET_NUM && forall k :: 0 <= k < |t.chains[HashId(id)]| ==>
            t.chains[HashId(id)][k] < |t.objs|
    ensures Fresh(t.objs, t.chains, id) <==>
              Same(t.objs, t.chains[HashId(id)], id) == [] || t.objs[t.chains[HashId(id)][0]].id == id
  {
    hide HashId, Tidy, Linked, Same;
    forall c | 0 <= c < BUCKET_NUM
      ensures forall k :: 0 <= k < |t.chains[c]| ==> t.chains[c][k] < |t.objs|
    {
      InTable(t, c);
    }
  }

  /** The first registration of an id makes its objects all there are. */
  lemma RegisteredNow(t: Table, t': Table,
                      id: Id, added: seq<nat>, statindex: seq<int>, index: int)
    requires Pool(t) && !Present(t.objs, t.chains, id)
    requires Grown(t, t', id, added) && added != []
    requires 0 <= index < |statindex| && statindex[index] == added[0]
    ensures Registered(t'.objs, t'.chains, statindex, index, id, added)
  {
    hide HashId, Same, From, Linked;
    GrownSame(t, t', id, added, id);
    FoundIsPresent(t, id);
    FirstSame(t.objs, t.chains[HashId(id)], id);
    assert added + [] == added;
  }

  /** What enters later under another id leaves it registered. */
  lemma RegisteredStill(t: Table, t': Table,
                        entered: Id, added: seq<nat>, statindex: seq<int>, statindex': seq<int>, index: int, id: Id,
                        os: seq<nat>, policies: seq<nat>, size: int)
    requires Pool(t)
    requires Grown(t, t', entered, added) && (id == entered ==> added == [])
    requires Registered(t.objs, t.chains, statindex, index, id, os) && Typed(t.objs, os, policies, size)
    requires |statindex'| == |statindex| && statindex'[index] == statindex[index]
    ensures Registered(t'.objs, t'.chains, statindex', index, id, os) && Typed(t'.objs, os, policies, size)
  {
    hide HashId, Same, Linked;
    GrownSame(t, t', entered, added, id);
    assert [] + os == os;
    var b := HashId(id);
    SameHolds(t.objs, t.chains[b], id);
    assert Members(t.chains[b], t.place, b);
    forall k | 0 <= k < |os|
      ensures t'.objs[os[k]] == t.objs[os[k]]
    {
      assert os[k] in os;
    }
  }
}
