/** CTimerUnit and its lists: one list per timeout, objects appended at the tail as they are armed, so that each
    list is in order of expiry and both the expiry check and the sleep computation look only at heads. */
module TimerList {

  import opened Seqs

  /** CTimerList: objects are known by number. */
  datatype TList = TList(timeout: int, objs: seq<nat>)

  type Expiries = map<nat, int>

  lemma TailIn(s: seq<nat>)
    requires s != []
    ensures s[0] in s && forall y :: y in s[1..] ==> y in s
  {
  }

  function Without(s: seq<nat>, x: nat): (r: seq<nat>)
    ensures x !in r && |r| <= |s|
    ensures forall y :: y in r <==> y in s && y != x
  {
    if s == [] then []
    else if s[0] == x then Without(s[1..], x)
    else [s[0]] + Without(s[1..], x)
  }

  ghost predicate Ordered(objs: seq<nat>, exp: Expiries)
  {
    && (forall i :: 0 <= i < |objs| ==> objs[i] in exp)
    && (forall i, j :: 0 <= i < j < |objs| ==> objs[i] in exp && objs[j] in exp && exp[objs[i]] <= exp[objs[j]])
  }

  /** A list armed with a positive timeout: in order, and nobody expires later than someone armed now would. */
  ghost predicate InOrder(l: TList, exp: Expiries, clock: int)
  {
    l.timeout > 0 ==>
      Ordered(l.objs, exp) && forall i :: 0 <= i < |l.objs| ==> exp[l.objs[i]] <= clock + l.timeout
  }

  lemma {:induction false} OrderedWithout(objs: seq<nat>, exp: Expiries, x: nat)
    requires Ordered(objs, exp)
    ensures Ordered(Without(objs, x), exp)
  {
    if objs != [] {
      assert forall i :: 0 <= i < |objs[1..]| ==> objs[1..][i] == objs[i + 1];
      OrderedWithout(objs[1..], exp, x);
      var rest := Without(objs[1..], x);
      forall i | 0 <= i < |rest|
        ensures rest[i] in exp && exp[objs[0]] <= exp[rest[i]]
      {
        assert rest[i] in objs[1..];
      }
    }
  }

  lemma InOrderWithout(l: TList, exp: Expiries, clock: int, x: nat)
    requires InOrder(l, exp, clock)
    ensures InOrder(l.(objs := Without(l.objs, x)), exp, clock)
  {
    if l.timeout > 0 {
      OrderedWithout(l.objs, exp, x);
      var r := Without(l.objs, x);
      forall i | 0 <= i < |r|
        ensures exp[r[i]] <= clock + l.timeout
      {
        assert r[i] in l.objs;
      }
    }
  }

  /** Time passing and the re-arming of an object that is not in the list leave it in order. */
  lemma InOrderStays(l: TList, exp: Expiries, clock: int, x: nat, t: int, clock': int)
    requires InOrder(l, exp, clock) && x !in l.objs && clock <= clock'
    ensures InOrder(l, exp[x := t], clock')
  {
    assert forall i :: 0 <= i < |l.objs| ==> l.objs[i] != x;
  }

  /** An object armed now goes to the tail. */
  lemma InOrderArmed(l: TList, exp: Expiries, clock: int, x: nat)
    requires InOrder(l, exp, clock) && x !in l.objs && l.timeout > 0
    ensures InOrder(l.(objs := l.objs + [x]), exp[x := clock + l.timeout], clock)
  {
    assert forall i :: 0 <= i < |l.objs| ==> l.objs[i] != x;
  }

  /** The expired objects of a list, in list order. */
  function Expired(objs: seq<nat>, exp: Expiries, now: int): (r: seq<nat>)
    ensures forall x :: x in r <==> x in objs && x in exp && exp[x] <= now
  {
    if objs == [] then []
    else (if objs[0] in exp && exp[objs[0]] <= now then [objs[0]] else []) + Expired(objs[1..], exp, now)
  }

  /** In an ordered list whose head has not expired nobody has. */
  lemma HeadTells(objs: seq<nat>, exp: Expiries, now: int)
    requires Ordered(objs, exp) && objs != [] && exp[objs[0]] > now
    ensures forall i :: 0 <= i < |objs| ==> exp[objs[i]] > now
    ensures Expired(objs, exp, now) == []
  {
    NoneExpired(objs, exp, now);
  }

  lemma {:induction false} NoneExpired(objs: seq<nat>, exp: Expiries, now: int)
    requires forall i :: 0 <= i < |objs| ==> objs[i] in exp && exp[objs[i]] > now
    ensures Expired(objs, exp, now) == []
  {
    if objs != [] {
      assert forall i :: 0 <= i < |objs[1..]| ==> objs[1..][i] == objs[i + 1];
      NoneExpired(objs[1..], exp, now);
    }
  }

  /** The sequence without some of its objects. */
  function Minus(s: seq<nat>, gone: set<nat>): (r: seq<nat>)
    ensures forall y :: y in r <==> y in s && y !in gone
  {
    if s == [] then [] else (if s[0] in gone then [] else [s[0]]) + Minus(s[1..], gone)
  }

  lemma {:induction false} MinusNone(s: seq<nat>, gone: set<nat>)
    requires forall x :: x in s ==> x !in gone
    ensures Minus(s, gone) == s
  {
    if s != [] {
      TailIn(s);
      MinusNone(s[1..], gone);
    }
  }

  lemma {:induction false} MinusTwice(s: seq<nat>, a: set<nat>, b: set<nat>)
    ensures Minus(Minus(s, a), b) == Minus(s, a + b)
  {
    if s != [] {
      MinusTwice(s[1..], a, b);
      MinusBoth(if s[0] in a then [] else [s[0]], Minus(s[1..], a), b);
    }
  }

  lemma {:induction false} MinusBoth(s: seq<nat>, t: seq<nat>, gone: set<nat>)
    ensures Minus(s + t, gone) == Minus(s, gone) + Minus(t, gone)
  {
    if s == [] {
      assert s + t == t;
    } else {
      assert (s + t)[1..] == s[1..] + t;
      MinusBoth(s[1..], t, gone);
    }
  }

  lemma {:induction false} MinusShrinks(s: seq<nat>, gone: set<nat>)
    ensures |Minus(s, gone)| <= |s| && (s != [] && s[0] in gone ==> |Minus(s, gone)| < |s|)
  {
    if s != [] {
      MinusShrinks(s[1..], gone);
    }
  }

  lemma {:induction false} WithoutIsMinus(s: seq<nat>, x: nat)
    ensures Without(s, x) == Minus(s, {x})
  {
    if s != [] {
      WithoutIsMinus(s[1..], x);
    }
  }

  lemma {:induction false} ExpiredWithout(objs: seq<nat>, exp: Expiries, now: int, x: nat)
    ensures Expired(Without(objs, x), exp, now) == Minus(Expired(objs, exp, now), {x})
  {
    if objs != [] {
      ExpiredWithout(objs[1..], exp, now, x);
      if objs[0] != x {
        assert Without(objs, x)[1..] == Without(objs[1..], x);
      }
      MinusBoth(if objs[0] in exp && exp[objs[0]] <= now then [objs[0]] else [], Expired(objs[1..], exp, now), {x});
    }
  }

  lemma {:induction false} ExpiredStays(objs: seq<nat>, exp: Expiries, now: int, x: nat, t: int)
    requires x !in objs
    ensures Expired(objs, exp[x := t], now) == Expired(objs, exp, now)
  {
    if objs != [] {
      TailIn(objs);
      ExpiredStays(objs[1..], exp, now, x, t);
    }
  }

  lemma {:induction false} ExpiredArmed(objs: seq<nat>, exp: Expiries, now: int, x: nat)
    requires x in exp && exp[x] > now
    ensures Expired(objs + [x], exp, now) == Expired(objs, exp, now)
  {
    if objs == [] {
      assert (objs + [x])[1..] == [];
    } else {
      assert (objs + [x])[1..] == objs[1..] + [x];
      ExpiredArmed(objs[1..], exp, now, x);
    }
  }

  lemma {:induction false} WithoutAbsent(s: seq<nat>, x: nat)
    requires x !in s
    ensures Without(s, x) == s
  {
    if s != [] {
      TailIn(s);
      WithoutAbsent(s[1..], x);
    }
  }

  // ---- all the lists of a unit: lists[0] is `pending`, lists[1..] the chain, oldest first ----

  /** What every list keeps. */
  ghost predicate Sound(l: TList, exp: Expiries, clock: int)
  {
    InOrder(l, exp, clock) && Distinct(l.objs) && forall x :: x in l.objs ==> x in exp
  }

  /** An object is in one list at most. */
  ghost predicate Apart(lists: seq<TList>)
  {
    forall i, j, x :: 0 <= i < j < |lists| && x in lists[i].objs ==> x !in lists[j].objs
  }

  ghost predicate Lists(lists: seq<TList>, exp: Expiries, clock: int)
  {
    && |lists| >= 1 && lists[0].timeout == 0
    && Apart(lists)
    && forall i :: 0 <= i < |lists| ==> Sound(lists[i], exp, clock)
  }

  /** The expired objects of a list are those of before without `x`, in the same order. */
  ghost predicate OnlyLeaves(l: TList, exp: Expiries, l': TList, exp': Expiries, now: int, x: nat)
  {
    l'.timeout == l.timeout && Expired(l'.objs, exp', now) == Minus(Expired(l.objs, exp, now), {x})
  }

  /** What moving `x` to the tail of list k does to one list: it leaves wherever it is, and joins list k. */
  function Moved(l: TList, x: nat, here: bool): TList
  {
    l.(objs := Without(l.objs, x) + if here then [x] else [])
  }

  function Armed(exp: Expiries, x: nat, timeout: int, clock: int): Expiries
  {
    if timeout > 0 then exp[x := clock + timeout] else exp
  }

  lemma {:induction false} DistinctWithout(objs: seq<nat>, x: nat)
    requires Distinct(objs)
    ensures Distinct(Without(objs, x))
  {
    if objs != [] {
      assert forall i :: 0 <= i < |objs[1..]| ==> objs[1..][i] == objs[i + 1];
      DistinctWithout(objs[1..], x);
      assert objs[0] !in Without(objs[1..], x);
    }
  }

  /** The object leaves: no order is lost. */
  lemma LeftList(l: TList, exp: Expiries, clock: int, x: nat, now: int)
    requires Sound(l, exp, clock)
    ensures Sound(Moved(l, x, false), exp, clock) && OnlyLeaves(l, exp, Moved(l, x, false), exp, now, x)
  {
    assert Without(l.objs, x) + [] == Without(l.objs, x);
    InOrderWithout(l, exp, clock, x);
    DistinctWithout(l.objs, x);
    ExpiredWithout(l.objs, exp, now, x);
  }

  /** The object has left, and is armed elsewhere. */
  lemma OtherArmed(l: TList, exp: Expiries, clock: int, x: nat, t: int, now: int)
    requires Sound(l, exp, clock) && x !in l.objs
    ensures Sound(l, exp[x := t], clock) && Expired(l.objs, exp[x := t], now) == Expired(l.objs, exp, now)
  {
    InOrderStays(l, exp, clock, x, t, clock);
    ExpiredStays(l.objs, exp, now, x, t);
  }

  /** The object has left, and joins this list. */
  lemma JoinedList(l: TList, exp: Expiries, clock: int, x: nat, now: int)
    requires Sound(l, exp, clock) && x !in l.objs && l.timeout > 0 && now <= clock
    ensures var l' := l.(objs := l.objs + [x]);
            var exp' := exp[x := clock + l.timeout];
            Sound(l', exp', clock) && Expired(l'.objs, exp', now) == Expired(l.objs, exp, now)
  {
    hide InOrder, Expired;
    InOrderArmed(l, exp, clock, x);
    ExpiredStays(l.objs, exp, now, x, clock + l.timeout);
    ExpiredArmed(l.objs, exp[x := clock + l.timeout], now, x);
  }

  /** The object has left, and joins this list, whose timeout sets no expiry. */
  lemma JoinedUntimed(l: TList, exp: Expiries, clock: int, x: nat)
    requires Sound(l, exp, clock) && x !in l.objs && l.timeout <= 0 && x in exp
    ensures Sound(l.(objs := l.objs + [x]), exp, clock)
  {
  }

  /** AttachTimer seen from one list of the unit. */
  lemma MovedList(l: TList, exp: Expiries, clock: int, x: nat, here: bool, timeout: int, now: int)
    requires Sound(l, exp, clock) && x in exp && now <= clock && (here ==> l.timeout == timeout)
    ensures Sound(Moved(l, x, here), Armed(exp, x, timeout, clock), clock)
    ensures !here || timeout > 0 ==> OnlyLeaves(l, exp, Moved(l, x, here), Armed(exp, x, timeout, clock), now, x)
  {
    hide Sound, Expired, Without;
    LeftList(l, exp, clock, x, now);
    var m := Moved(l, x, false);
    assert m.objs == Without(l.objs, x);
    assert here ==> Moved(l, x, here) == m.(objs := m.objs + [x]);
    if here {
      if timeout > 0 {
        JoinedList(m, exp, clock, x, now);
      } else {
        JoinedUntimed(m, exp, clock, x);
      }
    } else if timeout > 0 {
      OtherArmed(m, exp, clock, x, clock + timeout, now);
    }
  }

  function MovedAll(lists: seq<TList>, x: nat, k: int): (r: seq<TList>)
    ensures |r| == |lists| && forall i :: 0 <= i < |r| ==> r[i] == Moved(lists[i], x, i == k)
  {
    seq(|lists|, i requires 0 <= i < |lists| => Moved(lists[i], x, i == k))
  }

  /** The expired objects of list i, in list order. */
  function Due(lists: seq<TList>, exp: Expiries, i: nat, now: int): seq<nat>
  {
    if i < |lists| then Expired(lists[i].objs, exp, now) else []
  }

  /** What became of the unit while the objects `touched` were attached or disabled, and no others: the expired objects
      of every list of the chain are those of before without the touched ones, in the same order, and so are the
      pending ones, but for those attached to `pending` again. */
  ghost predicate Settles(lists: seq<TList>, exp: Expiries, lists': seq<TList>, exp': Expiries, now: int,
                          touched: set<nat>, zeroed: seq<nat>)
  {
    && 1 <= |lists| <= |lists'|
    && (forall i :: 0 <= i < |lists| ==> lists'[i].timeout == lists[i].timeout)
    && (forall i :: 1 <= i < |lists'| ==>
          lists'[i].timeout > 0 && Due(lists', exp', i, now) == Minus(Due(lists, exp, i, now), touched))
    && lists'[0].objs == Minus(lists[0].objs, touched) + zeroed
    && forall x :: x in zeroed ==> x in touched
  }

  lemma SettlesAtOnce(lists: seq<TList>, exp: Expiries, now: int)
    requires Positive(lists) && |lists| >= 1
    ensures Settles(lists, exp, lists, exp, now, {}, [])
  {
    forall i | 0 <= i < |lists|
      ensures Minus(lists[i].objs, {}) == lists[i].objs && Minus(Due(lists, exp, i, now), {}) == Due(lists, exp, i, now)
    {
      MinusNone(lists[i].objs, {});
      MinusNone(Due(lists, exp, i, now), {});
    }
  }

  lemma SettlesTwice(l1: seq<TList>, e1: Expiries, l2: seq<TList>, e2: Expiries, l3: seq<TList>, e3: Expiries, now: int,
                     a: set<nat>, y: seq<nat>, b: set<nat>, z: seq<nat>)
    requires Settles(l1, e1, l2, e2, now, a, y) && Settles(l2, e2, l3, e3, now, b, z)
    ensures Settles(l1, e1, l3, e3, now, a + b, Minus(y, b) + z) && |l2| <= |l3| && Positive(l3)
  {
    hide Due, Minus;
    forall i | 1 <= i < |l3|
      ensures l3[i].timeout > 0 && Due(l3, e3, i, now) == Minus(Due(l1, e1, i, now), a + b)
    {
      MinusTwice(Due(l1, e1, i, now), a, b);
      if i >= |l2| {
        DueBeyond(l1, e1, i, now, a + b);
        DueBeyond(l2, e2, i, now, b);
      }
    }
    MinusBoth(Minus(l1[0].objs, a), y, b);
    MinusTwice(l1[0].objs, a, b);
  }

  lemma DueBeyond(lists: seq<TList>, exp: Expiries, i: nat, now: int, gone: set<nat>)
    requires |lists| <= i
    ensures Due(lists, exp, i, now) == Minus(Due(lists, exp, i, now), gone) == []
  {
  }

  lemma SettlesPositive(l1: seq<TList>, e1: Expiries, l2: seq<TList>, e2: Expiries, now: int, a: set<nat>, y: seq<nat>)
    requires Settles(l1, e1, l2, e2, now, a, y)
    ensures Positive(l2)
  {
  }

  ghost predicate Positive(lists: seq<TList>)
  {
    forall i :: 1 <= i < |lists| ==> lists[i].timeout > 0
  }

  /** AttachTimer and DisableTimer (k outside the lists) over the whole unit. */
  lemma MovedLists(lists: seq<TList>, exp: Expiries, clock: int, x: nat, k: int, now: int)
    requires Lists(lists, exp, clock) && x in exp && now <= clock && k < |lists|
    ensures var timeout := if k >= 0 then lists[k].timeout else 0;
            var exp' := Armed(exp, x, timeout, clock);
            && Lists(MovedAll(lists, x, k), exp', clock)
            && (Positive(lists) ==>
               Settles(lists, exp, MovedAll(lists, x, k), exp', now, {x}, if k == 0 then [x] else []))
  {
    hide Sound, Expired, Without, Armed, Minus;
    var timeout := if k >= 0 then lists[k].timeout else 0;
    forall i | 0 <= i < |lists|
      ensures Sound(MovedAll(lists, x, k)[i], Armed(exp, x, timeout, clock), clock)
      ensures i != k || timeout > 0 ==>
                OnlyLeaves(lists[i], exp, MovedAll(lists, x, k)[i], Armed(exp, x, timeout, clock), now, x)
    {
      MovedList(lists[i], exp, clock, x, i == k, timeout, now);
    }
    WithoutIsMinus(lists[0].objs, x);
  }

  /** Taking the head off a list leaves its tail, with one expired object less if the head had expired. */
  lemma HeadGone(l: TList, exp: Expiries, now: int)
    requires l.objs != [] && Distinct(l.objs)
    ensures Moved(l, l.objs[0], false).objs == l.objs[1..]
    ensures l.objs[0] in exp && exp[l.objs[0]] <= now ==>
              Expired(l.objs, exp, now) == [l.objs[0]] + Expired(l.objs[1..], exp, now)
  {
    assert l.objs[0] !in l.objs[1..];
    WithoutAbsent(l.objs[1..], l.objs[0]);
    assert Without(l.objs, l.objs[0]) == l.objs[1..];
  }

  lemma TimePasses(lists: seq<TList>, exp: Expiries, clock: int, clock': int)
    requires Lists(lists, exp, clock) && clock <= clock'
    ensures Lists(lists, exp, clock')
  {
    assert forall i :: 0 <= i < |lists| ==> Sound(lists[i], exp, clock) ==> Sound(lists[i], exp, clock');
  }

  lemma ListAdded(lists: seq<TList>, exp: Expiries, clock: int, timeout: int, now: int)
    requires Lists(lists, exp, clock)
    ensures Lists(lists + [TList(timeout, [])], exp, clock)
    ensures Positive(lists) && timeout > 0 ==> Settles(lists, exp, lists + [TList(timeout, [])], exp, now, {}, [])
  {
    var l := TList(timeout, []);
    assert Sound(l, exp, clock);
    if Positive(lists) && timeout > 0 {
      ListSettles(lists, exp, timeout, now);
    }
  }

  lemma ListSettles(lists: seq<TList>, exp: Expiries, timeout: int, now: int)
    requires Positive(lists) && |lists| >= 1 && timeout > 0
    ensures Settles(lists, exp, lists + [TList(timeout, [])], exp, now, {}, [])
  {
    hide Expired, Minus;
    SettlesAtOnce(lists, exp, now);
    MinusNone([], {});
    assert Expired([], exp, now) == [] by {
      NoneExpired([], exp, now);
    }
  }

  lemma ObjectMade(lists: seq<TList>, exp: Expiries, clock: int, x: nat, t: int, now: int)
    requires Lists(lists, exp, clock) && x !in exp
    ensures Lists(lists, exp[x := t], clock)
    ensures Positive(lists) ==> Settles(lists, exp, lists, exp[x := t], now, {}, [])
  {
    hide InOrder, Expired;
    forall i | 0 <= i < |lists|
      ensures Sound(lists[i], exp[x := t], clock)
      ensures Expired(lists[i].objs, exp[x := t], now) == Expired(lists[i].objs, exp, now)
    {
      assert Sound(lists[i], exp, clock);
      OtherArmed(lists[i], exp, clock, x, t, now);
    }
    if Positive(lists) {
      SettlesAtOnce(lists, exp, now);
    }
  }

  /** The earliest of `bound` and the expiries of the objects in the chain. */
  ghost predicate Soonest(e: int, lists: seq<TList>, exp: Expiries, bound: int)
  {
    && e <= bound
    && (forall i, x :: 1 <= i < |lists| && x in lists[i].objs ==> x in exp && e <= exp[x])
    && (e == bound || exists i, x :: 1 <= i < |lists| && x in lists[i].objs && x in exp && e == exp[x])
  }

  /** The running minimum over the heads of the chain. */
  function HeadMin(lists: seq<TList>, exp: Expiries, bound: int): (e: int)
    ensures e <= bound
    decreases |lists|
  {
    if |lists| <= 1 then bound
    else
      var l := lists[|lists| - 1];
      var b := if l.objs != [] && l.objs[0] in exp && exp[l.objs[0]] < bound then exp[l.objs[0]] else bound;
      HeadMin(lists[..|lists| - 1], exp, b)
  }

  /** A head is its list's earliest, when the list is in order. */
  lemma HeadIsSoonest(l: TList, exp: Expiries, clock: int, x: nat)
    requires Sound(l, exp, clock) && l.timeout > 0 && x in l.objs
    ensures x in exp && l.objs[0] in exp && exp[l.objs[0]] <= exp[x]
  {
    var i :| 0 <= i < |l.objs| && l.objs[i] == x;
    assert Ordered(l.objs, exp);
  }

  /** Looking only at the heads gives the minimum over every object, when all the timeouts are positive. */
  lemma {:induction false} HeadMinIsSoonest(lists: seq<TList>, exp: Expiries, clock: int, bound: int)
    requires forall i :: 0 <= i < |lists| ==> Sound(lists[i], exp, clock)
    requires Positive(lists)
    ensures Soonest(HeadMin(lists, exp, bound), lists, exp, bound)
    decreases |lists|
  {
    hide Sound;
    if |lists| > 1 {
      var l := lists[|lists| - 1];
      var rest := lists[..|lists| - 1];
      var b := if l.objs != [] && l.objs[0] in exp && exp[l.objs[0]] < bound then exp[l.objs[0]] else bound;
      HeadMinIsSoonest(rest, exp, clock, b);
      var e := HeadMin(rest, exp, b);
      forall x | x in l.objs
        ensures x in exp && e <= exp[x]
      {
        HeadIsSoonest(l, exp, clock, x);
      }
      if e != b {
        var i, x :| 1 <= i < |rest| && x in rest[i].objs && x in exp && e == exp[x];
        assert x in lists[i].objs;
      } else if b != bound {
        assert l.objs[0] in lists[|lists| - 1].objs;
      }
    }
  }

  lemma {:induction false} HeadMinAtLeast(lists: seq<TList>, exp: Expiries, bound: int, low: int)
    requires low <= bound
    requires forall i :: 0 <= i < |lists| && lists[i].objs != [] ==>
             lists[i].objs[0] in exp && low <= exp[lists[i].objs[0]]
    ensures low <= HeadMin(lists, exp, bound)
    decreases |lists|
  {
    if |lists| > 1 {
      var l := lists[|lists| - 1];
      var b := if l.objs != [] && l.objs[0] in exp && exp[l.objs[0]] < bound then exp[l.objs[0]] else bound;
      HeadMinAtLeast(lists[..|lists| - 1], exp, b, low);
    }
  }

  /** Only list k has objects, and these. */
  ghost predicate OnlyIn(lists: seq<TList>, k: nat, objs: seq<nat>)
  {
    forall i :: 0 <= i < |lists| ==> lists[i].objs == if i == k then objs else []
  }

  /** Two objects in a list, the one armed first with the later expiry: the heads do not tell the minimum. */
  lemma HeadsMislead(lists: seq<TList>, exp: Expiries, k: nat, x: nat, y: nat, bound: int)
    requires 1 <= k < |lists| && OnlyIn(lists, k, [x, y])
    requires x in exp && y in exp && exp[y] < exp[x] <= bound
    ensures !Soonest(HeadMin(lists, exp, bound), lists, exp, bound)
  {
    hide HeadMin;
    HeadMinAtLeast(lists, exp, bound, exp[x]);
    assert lists[k].objs == [x, y] && [x, y][1] == y && y in lists[k].objs;
  }

  /** What an expiry loop learns from a list's head: the whole list is idle, or its head is a known object. */
  lemma HeadDecides(lists: seq<TList>, exp: Expiries, clock: int, k: nat, now: int)
    requires Lists(lists, exp, clock) && Positive(lists) && 1 <= k < |lists|
    ensures lists[k].objs != [] ==> lists[k].objs[0] in exp && Distinct(lists[k].objs)
    ensures if lists[k].objs == [] || exp[lists[k].objs[0]] > now then Due(lists, exp, k, now) == []
            else Due(lists, exp, k, now) != [] && Due(lists, exp, k, now)[0] == lists[k].objs[0]
  {
    var l := lists[k];
    assert Sound(l, exp, clock);
    if l.objs != [] {
      assert l.objs[0] in l.objs;
      if exp[l.objs[0]] > now {
        HeadTells(l.objs, exp, now);
      }
    }
  }

  lemma FirstLeaves(lists: seq<TList>, exp: Expiries, clock: int, k: nat)
    requires Lists(lists, exp, clock) && k < |lists| && lists[k].objs != []
    ensures lists[k].objs[0] in exp
    ensures MovedAll(lists, lists[k].objs[0], -1)[k].objs == lists[k].objs[1..]
  {
    assert Sound(lists[k], exp, clock);
    assert lists[k].objs[0] in lists[k].objs;
    HeadGone(lists[k], exp, clock);
  }

  /** The head of a list is disabled: the other lists stay as they are. */
  lemma HeadOnly(lists: seq<TList>, exp: Expiries, clock: int, k: nat)
    requires Lists(lists, exp, clock) && k < |lists| && lists[k].objs != []
    ensures lists[k].objs[0] in exp
    ensures MovedAll(lists, lists[k].objs[0], -1) == lists[k := TList(lists[k].timeout, lists[k].objs[1..])]
  {
    var x := lists[k].objs[0];
    FirstLeaves(lists, exp, clock, k);
    forall i | 0 <= i < |lists| && i != k
      ensures MovedAll(lists, x, -1)[i] == lists[i]
    {
      assert x in lists[k].objs;
      assert x !in lists[i].objs;
      WithoutAbsent(lists[i].objs, x);
    }
  }

  /** And attached to the same list again, it goes to the tail. */
  lemma TurnedOver(lists: seq<TList>, exp: Expiries, clock: int, k: nat)
    requires Lists(lists, exp, clock) && k < |lists| && lists[k].objs != []
    ensures var x := lists[k].objs[0];
            MovedAll(MovedAll(lists, x, -1), x, k) == lists[k := TList(lists[k].timeout, lists[k].objs[1..] + [x])]
  {
    var x := lists[k].objs[0];
    HeadOnly(lists, exp, clock, k);
    var once := MovedAll(lists, x, -1);
    forall i | 0 <= i < |lists|
      ensures Without(once[i].objs, x) == once[i].objs
    {
      assert once[i].objs == Without(lists[i].objs, x);
      WithoutAbsent(once[i].objs, x);
    }
  }

  /** The expired objects a list starts with. */
  function Leads(objs: seq<nat>, exp: Expiries, now: int): seq<nat>
  {
    if objs == [] || objs[0] !in exp || exp[objs[0]] > now then []
    else [objs[0]] + Leads(objs[1..], exp, now)
  }

  /** Nobody who has expired is behind somebody who has not. */
  ghost predicate ExpiredFirst(objs: seq<nat>, exp: Expiries, now: int)
  {
    forall i, j :: 0 <= i < j < |objs| && objs[j] in exp && exp[objs[j]] <= now ==>
      objs[i] in exp && exp[objs[i]] <= now
  }

  lemma {:induction false} LeadsPrefix(objs: seq<nat>, exp: Expiries, now: int)
    ensures Leads(objs, exp, now) <= objs
  {
    if objs != [] {
      LeadsPrefix(objs[1..], exp, now);
    }
  }

  lemma LeadsNext(objs: seq<nat>, exp: Expiries, now: int)
    ensures objs == [] || objs[0] !in exp || exp[objs[0]] > now ==> Leads(objs, exp, now) == []
    ensures objs != [] && objs[0] in exp && exp[objs[0]] <= now ==>
              Leads(objs, exp, now) == [objs[0]] + Leads(objs[1..], exp, now)
  {
  }

  lemma ExpiredFirstNext(objs: seq<nat>, exp: Expiries, now: int)
    requires objs != [] && objs[0] in exp && exp[objs[0]] <= now
    ensures ExpiredFirst(objs, exp, now) <==> ExpiredFirst(objs[1..], exp, now)
  {
    var rest := objs[1..];
    assert forall i :: 0 <= i < |rest| ==> rest[i] == objs[i + 1];
    assert forall i :: 1 <= i < |objs| ==> objs[i] == rest[i - 1];
  }

  lemma ExpiredFirstNone(objs: seq<nat>, exp: Expiries, now: int)
    requires objs == [] || objs[0] !in exp || exp[objs[0]] > now
    ensures ExpiredFirst(objs, exp, now) <==> Expired(objs, exp, now) == []
  {
    if Expired(objs, exp, now) != [] {
      var x := Expired(objs, exp, now)[0];
      assert x in Expired(objs, exp, now);
      var j :| 0 <= j < |objs| && objs[j] == x;
      assert 0 < j;
    } else {
      forall j | 0 <= j < |objs|
        ensures !(objs[j] in exp && exp[objs[j]] <= now)
      {
        assert objs[j] !in Expired(objs, exp, now) && objs[j] in objs;
      }
    }
  }

  /** What is behind them has no expired object if and only if they come first. */
  lemma {:induction false} LeadsAll(objs: seq<nat>, exp: Expiries, now: int)
    ensures Leads(objs, exp, now) <= objs
    ensures Expired(objs[|Leads(objs, exp, now)|..], exp, now) == [] <==> ExpiredFirst(objs, exp, now)
  {
    hide Leads, ExpiredFirst, Expired;
    LeadsPrefix(objs, exp, now);
    LeadsNext(objs, exp, now);
    if objs != [] && objs[0] in exp && exp[objs[0]] <= now {
      var rest := objs[1..];
      LeadsAll(rest, exp, now);
      ExpiredFirstNext(objs, exp, now);
      assert objs[|Leads(objs, exp, now)|..] == rest[|Leads(rest, exp, now)|..];
    } else {
      assert objs[0..] == objs;
      ExpiredFirstNone(objs, exp, now);
    }
  }

  lemma OrderedFirst(objs: seq<nat>, exp: Expiries, now: int)
    requires Ordered(objs, exp)
    ensures ExpiredFirst(objs, exp, now)
  {
  }

  /** One object of a transfer: the head of list a becomes the tail of list b, the rest of both stays. */
  lemma TransferOne(lists: seq<TList>, exp: Expiries, clock: int, a: nat, b: nat)
    requires Lists(lists, exp, clock) && a < |lists| && b < |lists| && a != b && lists[a].objs != []
    ensures lists[a].objs[0] in exp
    ensures var x := lists[a].objs[0];
            var lists' := MovedAll(MovedAll(lists, x, -1), x, b);
            && lists'[a].objs == lists[a].objs[1..] && lists'[b].objs == lists[b].objs + [x]
            && (forall i :: 0 <= i < |lists| && i != a && i != b ==> lists'[i] == lists[i])
            && (forall i :: 0 <= i < |lists| ==> lists'[i].timeout == lists[i].timeout)
            && MovedAll(lists, x, -1)[b].timeout == lists[b].timeout
  {
    var x := lists[a].objs[0];
    FirstLeaves(lists, exp, clock, a);
    var once := MovedAll(lists, x, -1);
    forall i | 0 <= i < |lists|
      ensures x !in once[i].objs && Without(once[i].objs, x) == once[i].objs
      ensures i != a ==> once[i] == lists[i]
    {
      assert once[i].objs == Without(lists[i].objs, x);
      WithoutAbsent(once[i].objs, x);
      if i != a {
        assert x in lists[a].objs;
        assert x !in lists[i].objs;
        WithoutAbsent(lists[i].objs, x);
      }
    }
  }
}
