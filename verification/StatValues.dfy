/** What the value and the count of a statistics object come to over a run of steps. */
module StatValues {

  import opened IndexChain
  import opened StatHash
  import opened StatTable
  import opened StatStep

  /** step0 for one id. */
  datatype StepCall = StepCall(id: Id, val: int, idx: int)

  /** The values stepped into an object of this id at this index; MIN keeps one value for every index. */
  function At(calls: seq<StepCall>, id: Id, policy: nat, idx: int): seq<int>
  {
    if calls == [] then []
    else
      var c := calls[|calls| - 1];
      At(calls[..|calls| - 1], id, policy, idx) + if c.id == id && (policy == MIN || c.idx == idx) then [c.val] else []
  }

  predicate Fits32(vals: seq<int>)
  {
    forall k :: 0 <= k < |vals| ==> -0x8000_0000 <= vals[k] < 0x8000_0000
  }

  function Total(vals: seq<int>): int
  {
    if vals == [] then 0 else Total(vals[..|vals| - 1]) + vals[|vals| - 1]
  }

  ghost predicate Largest(r: int, vals: seq<int>)
  {
    r in vals && forall v :: v in vals ==> v <= r
  }

  ghost predicate Smallest(r: int, vals: seq<int>)
  {
    r in vals && forall v :: v in vals ==> r <= v
  }

  /** No value is negative, and these are the ones after the last zero. */
  ghost predicate SinceZero(vals: seq<int>, tail: seq<int>)
  {
    && |tail| <= |vals| && tail == vals[|vals| - |tail|..] && (forall v :: v in vals ==> v >= 0)
    && 0 !in tail && (|tail| < |vals| ==> vals[|vals| - |tail| - 1] == 0)
  }

  /** What a value that was zero is after these steps: SET has the last, MAX the largest of them and zero, MIN the
      smallest if one is negative and else the smallest after the last zero, and the others the sum, in 32 bits. */
  ghost predicate Means(policy: nat, r: int, vals: seq<int>)
  {
    if policy == SET then r == if vals == [] then 0 else Wrap32(vals[|vals| - 1])
    else if policy == MAX then Fits32(vals) ==> Largest(r, [0] + vals)
    else if policy == MIN then
      Fits32(vals) ==>
        && ((exists v :: v in vals && v < 0) ==> Smallest(r, vals))
        && (forall tail :: SinceZero(vals, tail) ==> if tail == [] then r == 0 else Smallest(r, tail))
    else r == Wrap32(Total(vals))
  }

  lemma WrapTwice(a: int, b: int)
    ensures Wrap32(Wrap32(a) + b) == Wrap32(a + b)
  {
    var m := 0x1_0000_0000;
    var x := a + 0x8000_0000;
    assert Wrap32(a) + b + 0x8000_0000 == x % m + b;
    assert x == m * (x / m) + x % m;
    ModShift(x % m + b, x / m, m);
  }

  lemma ModShift(y: int, k: int, m: int)
    requires m == 0x1_0000_0000
    ensures (y + m * k) % m == y % m
  {
  }

  lemma MeansNone(policy: nat)
    ensures Means(policy, 0, [])
  {
  }

  lemma MaxMore(was: int, vals: seq<int>, val: int)
    requires Means(MAX, was, vals)
    ensures Means(MAX, NewValue(MAX, was, val), vals + [val])
  {
    if Fits32(vals + [val]) {
      assert forall k :: 0 <= k < |vals| ==> vals[k] == (vals + [val])[k];
      assert (vals + [val])[|vals|] == val;
      assert forall v :: v in [0] + (vals + [val]) <==> v in [0] + vals || v == val;
    }
  }

  lemma SumMore(policy: nat, was: int, vals: seq<int>, val: int)
    requires policy !in {SET, MAX, MIN} && Means(policy, was, vals)
    ensures Means(policy, NewValue(policy, was, val), vals + [val])
  {
    assert (vals + [val])[..|vals|] == vals;
    WrapTwice(Total(vals), val);
  }

  /** The values after the last zero, for values that are not negative. */
  lemma {:induction false} SomeTail(vals: seq<int>) returns (tail: seq<int>)
    requires forall v :: v in vals ==> v >= 0
    ensures SinceZero(vals, tail)
  {
    hide SinceZero;
    if vals == [] {
      tail := [];
      TailNone();
    } else {
      var init, last := vals[..|vals| - 1], vals[|vals| - 1];
      assert forall v :: v in init ==> v in vals;
      assert last in vals;
      var before := SomeTail(init);
      TailMore(init, last, before);
      assert vals == init + [last];
      tail := if last == 0 then [] else before + [last];
    }
  }

  lemma TailNone()
    ensures SinceZero([], [])
  {
  }

  lemma TailMore(vals: seq<int>, val: int, tail: seq<int>)
    requires SinceZero(vals, tail) && val >= 0
    ensures SinceZero(vals + [val], if val == 0 then [] else tail + [val])
  {
    var more := vals + [val];
    assert forall v :: v in more ==> v in vals || v == val;
    if val != 0 {
      assert more[|vals| - |tail|..] == tail + [val];
    }
  }

  lemma TailUnique(vals: seq<int>, a: seq<int>, b: seq<int>)
    requires SinceZero(vals, a) && SinceZero(vals, b) && |a| <= |b|
    ensures a == b
  {
    assert forall k :: 0 <= k < |b| ==> b[k] in b && b[k] == vals[|vals| - |b| + k];
  }

  lemma MinMore(was: int, vals: seq<int>, val: int)
    requires Means(MIN, was, vals)
    ensures Means(MIN, NewValue(MIN, was, val), vals + [val])
  {
    var more := vals + [val];
    if Fits32(more) {
      assert forall k :: 0 <= k < |vals| ==> vals[k] == more[k];
      assert more[|vals|] == val;
      assert forall v :: v in more <==> v in vals || v == val;
      if exists v :: v in vals && v < 0 {
        MinMoreNegative(was, vals, val);
      } else {
        MinMorePositive(was, vals, val);
      }
    }
  }

  lemma MinMoreNegative(was: int, vals: seq<int>, val: int)
    requires Smallest(was, vals) && (exists v :: v in vals && v < 0) && -0x8000_0000 <= val < 0x8000_0000
    requires forall v :: v in vals + [val] <==> v in vals || v == val
    ensures Smallest(NewValue(MIN, was, val), vals + [val])
    ensures exists v :: v in vals + [val] && v < 0
  {
  }

  lemma MinMorePositive(was: int, vals: seq<int>, val: int)
    requires Means(MIN, was, vals) && Fits32(vals) && -0x8000_0000 <= val < 0x8000_0000
    requires forall v :: v in vals ==> v >= 0
    ensures Means(MIN, NewValue(MIN, was, val), vals + [val])
  {
    var tail := SomeTail(vals);
    assert if tail == [] then was == 0 else Smallest(was, tail);
    if val < 0 {
      MinFalls(was, vals, tail, val);
    } else {
      assert forall v :: v in tail ==> v in vals && v != 0;
      var more, tail' := vals + [val], if val == 0 then [] else tail + [val];
      TailMore(vals, val, tail);
      MinOfTail(was, tail, val);
      assert forall v :: v in more ==> v in vals || v == val;
      forall other | SinceZero(more, other)
        ensures other == tail'
      {
        if |other| <= |tail'| { TailUnique(more, other, tail'); } else { TailUnique(more, tail', other); }
      }
    }
  }

  lemma MinFalls(was: int, vals: seq<int>, tail: seq<int>, val: int)
    requires SinceZero(vals, tail) && (if tail == [] then was == 0 else Smallest(was, tail))
    requires -0x8000_0000 <= val < 0
    ensures Means(MIN, NewValue(MIN, was, val), vals + [val])
  {
    var more := vals + [val];
    assert forall v :: v in tail ==> v in vals;
    assert forall v :: v in more <==> v in vals || v == val;
    assert Smallest(NewValue(MIN, was, val), more);
    assert val in more;
  }

  lemma MinOfTail(was: int, tail: seq<int>, val: int)
    requires (if tail == [] then was == 0 else Smallest(was, tail)) && (forall v :: v in tail ==> v > 0)
    requires 0 <= val < 0x8000_0000
    ensures var r := NewValue(MIN, was, val); if val == 0 then r == 0 else Smallest(r, tail + [val])
  {
    assert forall v :: v in tail + [val] <==> v in tail || v == val;
  }

  /** One more step of an object. */
  lemma MeansMore(policy: nat, was: int, vals: seq<int>, val: int)
    requires Means(policy, was, vals)
    ensures Means(policy, NewValue(policy, was, val), vals + [val])
  {
    hide Means, NewValue;
    if policy == MAX {
      MaxMore(was, vals, val);
    } else if policy == MIN {
      MinMore(was, vals, val);
    } else if policy == SET {
      SetMore(was, vals, val);
    } else {
      SumMore(policy, was, vals, val);
    }
  }

  lemma SetMore(was: int, vals: seq<int>, val: int)
    ensures Means(SET, NewValue(SET, was, val), vals + [val])
  {
  }

  /** MIN is not the minimum of its values in every run: it is, if and only if one is negative, none is zero or the last
      one is. */
  lemma MinIsMinimum(r: int, vals: seq<int>)
    requires Means(MIN, r, vals) && Fits32(vals) && vals != []
    ensures Smallest(r, vals) <==> (exists v :: v in vals && v < 0) || 0 !in vals || vals[|vals| - 1] == 0
  {
    if !(exists v :: v in vals && v < 0) {
      var tail := SomeTail(vals);
      MinSinceZero(r, vals, tail);
    }
  }

  lemma MinSinceZero(r: int, vals: seq<int>, tail: seq<int>)
    requires SinceZero(vals, tail) && vals != [] && (if tail == [] then r == 0 else Smallest(r, tail))
    ensures Smallest(r, vals) <==> 0 !in vals || vals[|vals| - 1] == 0
  {
    assert forall k :: 0 <= k < |tail| ==> tail[k] == vals[|vals| - |tail| + k] && tail[k] in tail;
    assert forall k :: 0 <= k < |vals| ==> vals[k] in vals;
    if |tail| == |vals| {
      assert tail == vals;
    }
  }

  // ---- a run of steps ----

  /** How often the steps count an object. */
  function Counts(calls: seq<StepCall>, o: StatObj): nat
  {
    if calls == [] then 0
    else
      var c := calls[|calls| - 1];
      Counts(calls[..|calls| - 1], o) + if c.id == o.id && (o.policy == MIN || c.idx == o.valSize) then 1 else 0
  }

  /** The index is one of those its id was registered with. */
  ghost predicate IndexedBy(objs: seq<StatObj>, chains: seq<seq<nat>>, c: StepCall)
  {
    |chains| == BUCKET_NUM && Indexed(objs, chains[HashId(c.id)], c.id, c.idx)
  }

  ghost predicate AllIndexed(objs: seq<StatObj>, chains: seq<seq<nat>>, calls: seq<StepCall>)
  {
    forall k :: 0 <= k < |calls| ==> IndexedBy(objs, chains, calls[k])
  }

  lemma IndexedAlike(objs: seq<StatObj>, objs': seq<StatObj>, chains: seq<seq<nat>>, c: StepCall)
    requires SameButCounts(objs, objs') && IndexedBy(objs, chains, c)
    ensures IndexedBy(objs', chains, c)
  {
    hide HashId;
  }

  lemma AlikeTwice(a: seq<StatObj>, b: seq<StatObj>, c: seq<StatObj>)
    requires SameButCounts(a, b) && SameButCounts(b, c)
    ensures SameButCounts(a, c)
  {
  }

  lemma AlikeAtOnce(objs: seq<StatObj>)
    ensures SameButCounts(objs, objs)
  {
  }

  /** The value of object o at index j, and its count, after these steps from zero. */
  ghost predicate Holding(s: Stats, calls: seq<StepCall>, o: nat, j: int)
  {
    && Fit(s, o, j) && Means(s.objs[o].policy, s.vals[Cell(s.objs[o], j)], At(calls, s.objs[o].id, s.objs[o].policy, j))
    && s.objs[o].count == Wrap32(Counts(calls, s.objs[o]))
  }

  /** Of every object in use. */
  ghost predicate AllHolding(s: Stats, place: seq<int>, calls: seq<StepCall>)
  {
    && |place| == |s.objs|
    && forall o, j :: 0 <= o < |place| && place[o] != -1 && 1 <= j <= s.objs[o].valSize ==> Holding(s, calls, o, j)
  }

  lemma HoldingNone(s: Stats, t: Table)
    requires Pool(t) && t.objs == s.objs && |s.vals| == DEFAULT_STATVAL_NUM
    requires (forall c :: 0 <= c < |s.vals| ==> s.vals[c] == 0) &&
             forall o :: 0 <= o < |s.objs| ==> s.objs[o].count == 0
    ensures AllHolding(s, t.place, [])
  {
    hide Means, Linked, HashId;
    forall o: nat, j | o < |t.place| && t.place[o] != -1 && 1 <= j <= s.objs[o].valSize
      ensures Holding(s, [], o, j)
    {
      MeansNone(s.objs[o].policy);
    }
  }

  lemma AtMore(calls: seq<StepCall>, c: StepCall, id: Id, policy: nat, idx: int)
    ensures At(calls + [c], id, policy, idx) ==
            At(calls, id, policy, idx) + if c.id == id && (policy == MIN || c.idx == idx) then [c.val] else []
  {
    assert (calls + [c])[..|calls|] == calls;
  }

  lemma CountsMore(calls: seq<StepCall>, c: StepCall, o: StatObj, o': StatObj)
    requires o' == o.(count := o'.count)
    ensures Counts(calls + [c], o') ==
            Counts(calls, o) + if c.id == o.id && (o.policy == MIN || c.idx == o.valSize) then 1 else 0
  {
    assert (calls + [c])[..|calls|] == calls;
    CountsAlike(calls, o, o');
  }

  lemma {:induction false} CountsAlike(calls: seq<StepCall>, o: StatObj, o': StatObj)
    requires o' == o.(count := o'.count)
    ensures Counts(calls, o') == Counts(calls, o)
  {
    if calls != [] {
      CountsAlike(calls[..|calls| - 1], o, o');
    }
  }

  /** The cells of two objects in use are different, and so are those of one at different indices. */
  lemma CellsDiffer(t: Table, o: nat, j: int, i: nat, idx: int)
    requires Pool(t) && o < |t.place| && t.place[o] != -1 && 1 <= j <= t.objs[o].valSize
    requires i < |t.place| && t.place[i] != -1 && (t.objs[i].policy != MIN ==> 1 <= idx <= t.objs[i].valSize)
    ensures Cell(t.objs[o], j) == Cell(t.objs[i], idx) ==> i == o && (t.objs[o].policy == MIN || idx == j)
  {
    hide Linked, HashId, AllLinked, Placed, Hashed;
  }

  /** One step of an id, seen from any object in use. */
  lemma HoldingMore(s0: Stats, s: Stats, t: Table, calls: seq<StepCall>, c: StepCall, o: nat, j: int)
    requires Pool(t) && t.objs == s0.objs && |s0.vals| == DEFAULT_STATVAL_NUM && |t.chains| == BUCKET_NUM
    requires Indexed(s0.objs, t.chains[HashId(c.id)], c.id, c.idx)
    requires SteppedId(s0, s, t.chains, c.id, c.val, c.idx)
    requires o < |t.place| && t.place[o] != -1 && 1 <= j <= t.objs[o].valSize && Holding(s0, calls, o, j)
    ensures |s.objs| == |s0.objs| && Holding(s, calls + [c], o, j)
  {
    hide Pool, HashId, SteppedId, Indexed, Means, At, Counts, NewValue, Wrap32;
    StepMeans(s0, s, t, c.id, c.val, c.idx);
    var obj := s0.objs[o];
    var cell := Cell(obj, j);
    AtMore(calls, c, obj.id, obj.policy, j);
    CountsMore(calls, c, obj, s.objs[o]);
    WrapTwice(Counts(calls, obj), 1);
    if obj.id == c.id && (obj.policy == MIN || c.idx == j) {
      MeansMore(obj.policy, s0.vals[cell], At(calls, obj.id, obj.policy, j), c.val);
    } else {
      CellKept(s0, s, t, c, o, j);
      assert At(calls, obj.id, obj.policy, j) + [] == At(calls, obj.id, obj.policy, j);
    }
  }

  lemma CellKept(s0: Stats, s: Stats, t: Table, c: StepCall, o: nat, j: int)
    requires Pool(t) && t.objs == s0.objs && |s0.vals| == DEFAULT_STATVAL_NUM && |t.chains| == BUCKET_NUM
    requires Indexed(s0.objs, t.chains[HashId(c.id)], c.id, c.idx)
    requires SteppedId(s0, s, t.chains, c.id, c.val, c.idx)
    requires o < |t.place| && t.place[o] != -1 && 1 <= j <= t.objs[o].valSize && Fit(s0, o, j)
    requires !(s0.objs[o].id == c.id && (s0.objs[o].policy == MIN || c.idx == j))
    ensures |s.vals| == |s0.vals| && s.vals[Cell(s0.objs[o], j)] == s0.vals[Cell(s0.objs[o], j)]
  {
    hide Pool, HashId, SteppedId, Indexed, NewValue, Counted;
    StepMeans(s0, s, t, c.id, c.val, c.idx);
    var cell := Cell(s0.objs[o], j);
    if s.vals[cell] != s0.vals[cell] {
      var i :| 0 <= i < |s0.objs| && t.place[i] != -1 && s0.objs[i].id == c.id && Cell(s0.objs[i], c.idx) == cell;
      IndexedAt(t, c.id, c.idx, i);
      CellsDiffer(t, o, j, i, c.idx);
    }
  }

  lemma IndexedAt(t: Table, id: Id, idx: int, i: nat)
    requires Pool(t) && |t.chains| == BUCKET_NUM && Indexed(t.objs, t.chains[HashId(id)], id, idx)
    requires i < |t.objs| && i < |t.place| && t.place[i] != -1 && t.objs[i].id == id
    ensures t.objs[i].policy != MIN ==> 1 <= idx <= t.objs[i].valSize
  {
    hide HashId, Linked;
    assert Members(t.chains[HashId(id)], t.place, HashId(id));
  }

  lemma AllHoldingMore(s0: Stats, s: Stats, t: Table, calls: seq<StepCall>, c: StepCall)
    requires Pool(t) && t.objs == s0.objs && |s0.vals| == DEFAULT_STATVAL_NUM && |t.chains| == BUCKET_NUM
    requires Indexed(s0.objs, t.chains[HashId(c.id)], c.id, c.idx)
    requires SteppedId(s0, s, t.chains, c.id, c.val, c.idx) && SameButCounts(s0.objs, s.objs)
    requires AllHolding(s0, t.place, calls)
    ensures AllHolding(s, t.place, calls + [c])
  {
    hide Pool, HashId, SteppedId, Indexed, Holding;
    forall o: nat, j | o < |t.place| && t.place[o] != -1 && 1 <= j <= s.objs[o].valSize
      ensures Holding(s, calls + [c], o, j)
    {
      HoldingMore(s0, s, t, calls, c, o, j);
    }
  }
}
