/** The operations of CTimerUnit, CTimerList and CTimerObject on the lists of module TimerList. A callback may
    arm, disarm and create objects and lists, and time passes while it runs. */
module TimerUnit {

  import opened Seqs
  import opened TimerCalls
  import opened TimerList

  class CTimerUnit {

    // lists[0] is `pending`; lists[1..] is the chain from its oldest list to its newest.
    var lists: seq<TList>
    var exp: Expiries
    var clock: int
    var timeoutInf: int

    ghost predicate Valid()
      reads this
    {
      Lists(lists, exp, clock)
    }

    constructor (now: int)
      ensures Valid() && Positive(lists)
      ensures lists == [TList(0, [])] && exp == map[] && clock == now && timeoutInf == 0
    {
      lists := [TList(0, [])];
      exp := map[];
      clock := now;
      timeoutInf := 0;
    }

    method Tick()
      requires Valid()
      modifies this`clock
      ensures Valid() && clock >= old(clock)
    {
      var later: nat :| true;
      TimePasses(lists, exp, clock, clock + later);
      clock := clock + later;
    }

    /** Arms `x` in list `k`; with a positive timeout it expires one timeout from now. */
    method AttachTimer(x: nat, k: nat, ghost now: int)
      requires Valid() && x in exp && k < |lists| && now <= clock
      modifies this`lists, this`exp
      ensures Valid()
      ensures lists == MovedAll(old(lists), x, k)
      ensures exp == Armed(old(exp), x, old(lists[k].timeout), clock)
      ensures Positive(old(lists)) ==> Settles(old(lists), old(exp), lists, exp, now, {x}, if k == 0 then [x] else [])
    {
      hide Lists, Settles, Positive, Moved, Expired;
      MovedLists(lists, exp, clock, x, k, now);
      if lists[k].timeout > 0 {
        exp := exp[x := clock + lists[k].timeout];
      }
      lists := MovedAll(lists, x, k);
    }

    method DisableTimer(x: nat, ghost now: int)
      requires Valid() && x in exp && now <= clock
      modifies this`lists
      ensures Valid()
      ensures lists == MovedAll(old(lists), x, -1)
      ensures Positive(old(lists)) ==> Settles(old(lists), exp, lists, exp, now, {x}, [])
    {
      hide Lists, Settles, Positive, Moved, Expired;
      MovedLists(lists, exp, clock, x, -1, now);
      lists := MovedAll(lists, x, -1);
    }

    /** The chain's newest list with this timeout, or a new one. */
    method GetTimerList(timeout: int, ghost now: int) returns (k: nat)
      requires Valid()
      modifies this`lists, this`timeoutInf
      ensures Valid()
      ensures 1 <= k < |lists| && lists[k].timeout == timeout
      ensures lists == old(lists) || lists == old(lists) + [TList(timeout, [])]
      ensures lists == old(lists) <==> exists i :: 1 <= i < |old(lists)| && old(lists)[i].timeout == timeout
      ensures timeoutInf == if lists != old(lists) && (timeout < old(timeoutInf) || old(timeoutInf) == 0)
                            then timeout else old(timeoutInf)
      ensures Positive(old(lists)) && timeout > 0 ==> Settles(old(lists), exp, lists, exp, now, {}, [])
    {
      if Positive(lists) {
        SettlesAtOnce(lists, exp, now);
      }
      k := |lists|;
      while k > 1
        invariant 1 <= k <= |lists|
        invariant forall i :: k <= i < |lists| ==> lists[i].timeout != timeout
      {
        k := k - 1;
        if lists[k].timeout == timeout {
          return;
        }
      }
      ListAdded(lists, exp, clock, timeout, now);
      k := |lists|;
      lists := lists + [TList(timeout, [])];
      if timeout < timeoutInf || timeoutInf == 0 {
        timeoutInf := timeout;
      }
    }

    /** TimerNotify of one object: anything a callback may do to the unit. It attaches to `pending` no more than
        `zeros - left` times. */
    method TimerNotify(zeros: nat, ghost now: int) returns (left: nat, ghost touched: set<nat>, ghost zeroed: seq<nat>)
      requires Valid() && Positive(lists) && now <= clock
      modifies this
      ensures Valid() && Positive(lists) && clock >= old(clock)
      ensures Settles(old(lists), old(exp), lists, exp, now, touched, zeroed) && |zeroed| + left <= zeros
    {
      hide Sound, Apart, Expired, Settles, Positive;
      SettlesAtOnce(lists, exp, now);
      left, touched, zeroed := zeros, {}, [];
      var steps: nat :| true;
      while steps > 0
        invariant Valid() && Positive(lists) && clock >= old(clock)
        invariant Settles(old(lists), old(exp), lists, exp, now, touched, zeroed) && |zeroed| + left <= zeros
        decreases steps
      {
        ghost var lists0, exp0 := lists, exp;
        ghost var more, again;
        left, more, again := OneOp(left, now);
        SettlesTwice(old(lists), old(exp), lists0, exp0, lists, exp, now, touched, zeroed, more, again);
        MinusShrinks(zeroed, more);
        touched, zeroed := touched + more, Minus(zeroed, more) + again;
        steps := steps - 1;
      }
    }

    method OneOp(zeros: nat, ghost now: int) returns (left: nat, ghost touched: set<nat>, ghost zeroed: seq<nat>)
      requires Valid() && Positive(lists) && now <= clock
      modifies this
      ensures Valid() && Positive(lists) && clock >= old(clock)
      ensures Settles(old(lists), old(exp), lists, exp, now, touched, zeroed) && |zeroed| + left <= zeros
    {
      hide Sound, Expired, Settles, Apart, Moved;
      SettlesAtOnce(lists, exp, now);
      left, touched, zeroed := zeros, {}, [];
      var op: nat :| true;
      var x: nat :| true;
      if op == 0 {
        Tick();
      } else if op == 1 {
        var timeout: int :| timeout > 0;
        var _ := GetTimerList(timeout, now);
      } else if x !in exp {
        var t: int :| true;
        ObjectMade(lists, exp, clock, x, t, now);
        exp := exp[x := t];
      } else if op == 2 {
        DisableTimer(x, now);
        touched := {x};
      } else {
        var k: nat :| k < |lists|;
        if k > 0 || zeros > 0 {
          AttachTimer(x, k, now);
          touched, zeroed := {x}, if k == 0 then [x] else [];
          left := if k == 0 then zeros - 1 else zeros;
        }
      }
      SettlesPositive(old(lists), old(exp), lists, exp, now, touched, zeroed);
    }

    /** One turn of an expiry loop: the head leaves its list before its callback runs. */
    method FireHead(k: nat, zeros: nat, ghost now: int) returns (left: nat, x: nat, ghost c: Call)
      requires Valid() && Positive(lists) && now <= clock && k < |lists| && lists[k].objs != []
      modifies this
      ensures Valid() && Positive(lists) && clock >= old(clock)
      ensures x == c.obj == old(lists[k].objs[0]) && |c.zeroed| + left <= zeros
      ensures Settles(old(lists), old(exp), lists, exp, now, {c.obj} + c.touched, c.zeroed)
    {
      hide Sound, Expired, Settles, Apart, Moved, Positive;
      FirstLeaves(lists, exp, clock, k);
      x := lists[k].objs[0];
      DisableTimer(x, now);
      SettlesPositive(old(lists), old(exp), lists, exp, now, {x}, []);
      ghost var lists0, touched, zeroed := lists, {}, [];
      left, touched, zeroed := TimerNotify(zeros, now);
      SettlesTwice(old(lists), old(exp), lists0, old(exp), lists, exp, now, {x}, [], touched, zeroed);
      assert Minus([], touched) + zeroed == zeroed;
      c := Call(x, touched, zeroed);
    }

    /** CTimerList::CheckExpired. Whatever the callbacks do, it ends, nobody in the list is left expired, and each
        object notified is the first of the list that was expired from the beginning and that no callback has touched.
        */
    method CheckList(k: nat, now: int) returns (n: nat, told: seq<nat>, ghost calls: seq<Call>, ghost zeroed: seq<nat>)
      requires Valid() && Positive(lists) && now <= clock && 1 <= k < |lists|
      modifies this
      ensures Valid() && Positive(lists) && clock >= old(clock) && n == |calls| && told == Told(calls)
      ensures Settles(old(lists), old(exp), lists, exp, now, Gone(calls), zeroed)
      ensures Fires(old(Due(lists, exp, k, now)), calls) && Due(lists, exp, k, now) == []
    {
      hide Lists, Expired, Distinct, Settles, Positive, Gone, Minus, Due;
      SettlesAtOnce(lists, exp, now);
      n, told, calls, zeroed := 0, [], [], [];
      ghost var due := Due(lists, exp, k, now);
      HeadDecides(lists, exp, clock, k, now);
      GoneNone();
      while lists[k].objs != [] && exp[lists[k].objs[0]] <= now
        invariant k < |lists| && (lists[k].objs != [] ==> lists[k].objs[0] in exp)
        invariant if lists[k].objs == [] || exp[lists[k].objs[0]] > now then Due(lists, exp, k, now) == []
                  else Due(lists, exp, k, now) != [] && Due(lists, exp, k, now)[0] == lists[k].objs[0]
        invariant Valid() && Positive(lists) && clock >= old(clock) && n == |calls| && told == Told(calls)
        invariant Settles(old(lists), old(exp), lists, exp, now, Gone(calls), zeroed) && FiresSoFar(due, calls)
        decreases |Due(lists, exp, k, now)|
      {
        ghost var lists0, exp0 := lists, exp;
        var zeros: nat :| true;
        var _, x, c := FireHead(k, zeros, now);
        ghost var gone := {c.obj} + c.touched;
        SettlesTwice(old(lists), old(exp), lists0, exp0, lists, exp, now, Gone(calls), zeroed, gone, c.zeroed);
        DueAfter(lists0, exp0, lists, exp, now, gone, c.zeroed, k);
        DueAfter(old(lists), old(exp), lists0, exp0, now, Gone(calls), zeroed, k);
        FiresMore(due, calls, c);
        MinusShrinks(Due(lists0, exp0, k, now), gone);
        GoneMore(calls, c);
        zeroed := Minus(zeroed, gone) + c.zeroed;
        told, calls, n := told + [x], calls + [c], n + 1;
        HeadDecides(lists, exp, clock, k, now);
      }
      DueAfter(old(lists), old(exp), lists, exp, now, Gone(calls), zeroed, k);
    }

    /** CTimerUnit::CheckPending: each object notified is the first pending one, until none is. The callbacks may attach
        objects to `pending` again, but finitely often. */
    method CheckPending(ghost now: int) returns (n: nat, told: seq<nat>, ghost calls: seq<Call>, ghost zeroed: seq<nat>)
      requires Valid() && Positive(lists) && now <= clock
      modifies this
      ensures Valid() && Positive(lists) && clock >= old(clock) && n == |calls| && told == Told(calls)
      ensures Settles(old(lists), old(exp), lists, exp, now, Gone(calls), zeroed)
      ensures Drains(old(lists[0].objs), calls) && Pending(old(lists[0].objs), calls) == lists[0].objs == []
    {
      hide Sound, Expired, Distinct, Settles, Positive, Apart, Gone, Minus, Due, Pending;
      SettlesAtOnce(lists, exp, now);
      n, told, calls, zeroed := 0, [], [], [];
      GoneNone();
      PendingNone(lists[0].objs);
      var zeros: nat :| true;
      while lists[0].objs != []
        invariant Valid() && Positive(lists) && clock >= old(clock) && n == |calls| && told == Told(calls)
        invariant Settles(old(lists), old(exp), lists, exp, now, Gone(calls), zeroed)
        invariant Drains(old(lists[0].objs), calls) && Pending(old(lists[0].objs), calls) == lists[0].objs
        decreases |lists[0].objs| + zeros
      {
        ghost var lists0, exp0 := lists, exp;
        var left, x, c := FireHead(0, zeros, now);
        ghost var gone := {c.obj} + c.touched;
        PendingAfter(lists0, exp0, lists, exp, now, gone, c.zeroed);
        DrainsMore(old(lists[0].objs), calls, c);
        PendingMore(old(lists[0].objs), calls, c);
        MinusShrinks(lists0[0].objs, gone);
        SettlesTwice(old(lists), old(exp), lists0, exp0, lists, exp, now, Gone(calls), zeroed, gone, c.zeroed);
        GoneMore(calls, c);
        zeroed := Minus(zeroed, gone) + c.zeroed;
        told, calls, n, zeros := told + [x], calls + [c], n + 1, left;
      }
    }

    /** CTimerUnit::CheckExpired, whatever the callbacks do and however many lists they add: once it is over nobody in
        the chain has expired by `now`; each object of the chain that is notified had expired from the beginning and had
        not been notified or touched, and an object that had expired is notified unless a callback touched it. */
    method CheckExpired(when: int) returns (n: nat, now: int, ghost pend: seq<Call>, ghost calls: seq<Call>)
      requires Valid() && Positive(lists) && when <= clock
      modifies this
      ensures Valid() && Positive(lists) && clock >= old(clock) && n == |pend| + |calls|
      ensures now == if when == 0 then old(clock) else when
      ensures forall i :: 1 <= i < |lists| ==> Due(lists, exp, i, now) == []
      ensures Drains(old(lists[0].objs), pend) && Pending(old(lists[0].objs), pend) == []
      ensures Sweeps(old(lists), old(exp), now, Gone(pend), calls) && Distinct(Told(calls))
      ensures forall i, x :: 1 <= i < |old(lists)| && x in old(Due(lists, exp, i, now)) ==>
              x in Gone(pend) + Gone(calls)
    {
      hide Lists, Expired, Settles, Gone, Minus, Due, Pending, Sweeps, Distinct;
      now := if when == 0 then clock else when;
      ghost var zeroed;
      var told;
      n, told, pend, zeroed := CheckPending(now);
      calls := [];
      GoneNone();
      SweepsNone(old(lists), old(exp), now, Gone(pend));
      assert Gone(pend) + {} == Gone(pend);
      var k := |lists|;
      while k > 1
        invariant 0 <= k <= |lists| && Valid() && Positive(lists) && clock >= old(clock) && n == |pend| + |calls|
        invariant Settles(old(lists), old(exp), lists, exp, now, Gone(pend) + Gone(calls), zeroed)
        invariant Sweeps(old(lists), old(exp), now, Gone(pend), calls)
        invariant forall i :: 1 <= i < |lists| && k <= i ==> Due(lists, exp, i, now) == []
      {
        k := k - 1;
        ghost var lists0, exp0 := lists, exp;
        ghost var more, again;
        var m;
        m, told, more, again := CheckList(k, now);
        n := n + m;
        DueAfter(old(lists), old(exp), lists0, exp0, now, Gone(pend) + Gone(calls), zeroed, k);
        SweepsMore(old(lists), old(exp), now, Gone(pend), calls, k, more);
        StillNone(lists0, exp0, lists, exp, now, Gone(more), again);
        SettlesTwice(old(lists), old(exp), lists0, exp0, lists, exp, now, Gone(pend) + Gone(calls), zeroed, Gone(more),
          again);
        GoneBoth(calls, more);
        assert Gone(pend) + Gone(calls) + Gone(more) == Gone(pend) + Gone(calls + more);
        zeroed, calls := Minus(zeroed, Gone(more)) + again, calls + more;
      }
      SweepsDistinct(old(lists), old(exp), now, Gone(pend), calls);
      NoneMissed(old(lists), old(exp), lists, exp, now, Gone(pend) + Gone(calls), zeroed);
    }

    /** The loop of CheckPending when the callbacks leave the unit alone. */
    method QuietPending() returns (told: seq<nat>)
      requires Valid()
      modifies this`lists, this`clock
      ensures Valid() && clock >= old(clock) && told == old(lists[0].objs)
      ensures lists == old(lists)[0 := TList(old(lists[0].timeout), [])]
    {
      hide Sound, Expired, Settles, Moved, Apart, Positive, MovedAll;
      told := [];
      while lists[0].objs != []
        invariant Valid() && clock >= old(clock) && told + lists[0].objs == old(lists[0].objs)
        invariant lists == old(lists)[0 := TList(old(lists[0].timeout), lists[0].objs)]
        decreases |lists[0].objs|
      {
        HeadOnly(lists, exp, clock, 0);
        var x := lists[0].objs[0];
        DisableTimer(x, clock);
        Tick();
        told := told + [x];
      }
    }

    /** The loop of CTimerList::CheckExpired when they do. */
    method QuietList(k: nat, now: int) returns (told: seq<nat>)
      requires Valid() && 1 <= k < |lists|
      modifies this`lists, this`clock
      ensures Valid() && clock >= old(clock) && told == old(Leads(lists[k].objs, exp, now)) <= old(lists[k].objs)
      ensures lists == old(lists)[k := TList(old(lists[k].timeout), old(lists[k].objs)[|told|..])]
    {
      hide Lists, Expired, Settles, Moved, Positive, MovedAll, Leads, Quiet;
      told := [];
      QuietNone(lists, exp, now, k);
      QuietHead(lists, lists, exp, clock, now, k, told);
      while lists[k].objs != [] && exp[lists[k].objs[0]] <= now
        invariant Valid() && clock >= old(clock) && Quiet(old(lists), lists, exp, now, k, told)
        invariant k < |lists| && (lists[k].objs != [] ==> lists[k].objs[0] in exp)
        decreases |lists[k].objs|
      {
        var x := lists[k].objs[0];
        HeadOnly(lists, exp, clock, k);
        QuietMore(old(lists), lists, exp, now, k, told);
        DisableTimer(x, clock);
        Tick();
        told := told + [x];
        QuietHead(old(lists), lists, exp, clock, now, k, told);
      }
      QuietEnd(old(lists), lists, exp, now, k, told);
    }

    /** CTimerUnit::CheckExpired on any chain, with timeouts that set no expiry too, when the callbacks leave the unit
        alone: of each list the expired objects it starts with are notified, and nobody else. Nobody expired is left if
        and only if none was behind an unexpired one, as in every list with a positive timeout. */
    method CheckQuietly(when: int) returns (told: seq<nat>, now: int)
      requires Valid() && when <= clock
      modifies this`lists, this`clock
      ensures Valid() && clock >= old(clock) && now == (if when == 0 then old(clock) else when)
      ensures told == old(lists[0].objs) + ChainLeads(old(lists), exp, now, 1)
      ensures lists == AfterLeads(old(lists), exp, now, 1)
      ensures (forall i :: 1 <= i < |lists| ==> Due(lists, exp, i, now) == []) <==>
                forall i :: 1 <= i < |old(lists)| ==> ExpiredFirst(old(lists)[i].objs, exp, now)
      ensures forall i :: 1 <= i < |old(lists)| && old(lists)[i].timeout > 0 ==>
                ExpiredFirst(old(lists)[i].objs, exp, now)
    {
      hide Sound, Expired, Settles, Moved, Apart, Positive, MovedAll, ChainLeads, Leads, ExpiredFirst;
      now := if when == 0 then clock else when;
      OrderedExpire(lists, exp, clock, now);
      told := QuietPending();
      ghost var pend := told;
      var k := |lists|;
      ChainEnd(old(lists), exp, now);
      while k > 1
        invariant 1 <= k <= |lists| || |lists| == 1
        invariant Valid() && clock >= old(clock) && k >= 1
        invariant told == pend + ChainLeads(old(lists), exp, now, k)
        invariant lists == AfterLeads(old(lists), exp, now, k)
      {
        k := k - 1;
        var more := QuietList(k, now);
        ChainMore(old(lists), exp, now, k);
        told := told + more;
      }
      LeadsLeft(old(lists), exp, now);
    }

    /** How long to sleep: until the earliest expiry of any object in the chain, at most `msec`, never negative. */
    method ExpireMicroSeconds(msec: int) returns (r: int)
      requires Valid()
      ensures var e := HeadMin(lists, exp, clock + msec);
              && r == (if e <= clock then 0 else e - clock)
              && (Positive(lists) ==> Soonest(e, lists, exp, clock + msec))
    {
      hide Sound, Apart, Soonest;
      var e, k := clock + msec, |lists|;
      assert lists[..k] == lists;
      while k > 1
        invariant 1 <= k <= |lists|
        invariant HeadMin(lists, exp, clock + msec) == HeadMin(lists[..k], exp, e)
      {
        k := k - 1;
        assert lists[..k + 1][..k] == lists[..k];
        if lists[k].objs != [] {
          FirstLeaves(lists, exp, clock, k);
          if exp[lists[k].objs[0]] < e {
            e := exp[lists[k].objs[0]];
          }
        }
      }
      if Positive(lists) {
        HeadMinIsSoonest(lists, exp, clock, clock + msec);
      }
      r := if e <= clock then 0 else e - clock;
    }

    /** Moves every object of list a to list b, in order, each armed anew with b's timeout. */
    method TransforTimer(a: nat, b: nat)
      requires Valid() && a < |lists| && b < |lists| && (a != b || lists[a].objs == [])
      modifies this
      ensures Valid() && |lists| == old(|lists|) && clock >= old(clock)
      ensures lists[a].objs == [] && lists[b].objs == old(lists[b].objs) + old(lists[a].objs)
      ensures forall i :: 0 <= i < |lists| ==> lists[i].timeout == old(lists)[i].timeout
      ensures forall i :: 0 <= i < |lists| && i != a && i != b ==> lists[i] == old(lists)[i]
      ensures lists[b].timeout > 0 ==>
                forall x :: x in old(lists[a].objs) ==> x in exp && old(clock) + lists[b].timeout <= exp[x]
    {
      hide Sound, Expired, Settles, Moved, Apart, Positive;
      ghost var n: nat := 0;
      while lists[a].objs != []
        invariant Valid() && |lists| == old(|lists|) && clock >= old(clock)
        invariant n <= old(|lists[a].objs|) && lists[a].objs == old(lists[a].objs)[n..]
        invariant lists[b].objs == old(lists[b].objs) + old(lists[a].objs)[..n]
        invariant forall i :: 0 <= i < |lists| ==> lists[i].timeout == old(lists)[i].timeout
        invariant forall i :: 0 <= i < |lists| && i != a && i != b ==> lists[i] == old(lists)[i]
        invariant lists[b].timeout > 0 ==> forall j :: 0 <= j < n ==>
                    old(lists[a].objs)[j] in exp && old(clock) + lists[b].timeout <= exp[old(lists[a].objs)[j]]
        decreases |lists[a].objs|
      {
        TransferOne(lists, exp, clock, a, b);
        var x := lists[a].objs[0];
        DisableTimer(x, clock);
        Tick();
        AttachTimer(x, b, clock);
        n := n + 1;
      }
    }
  }

  /** `x` goes through another list to the only one in use. */
  lemma MovedThrough(lists: seq<TList>, k: nat, objs: seq<nat>, x: nat, j: nat)
    requires OnlyIn(lists, k, objs) && k < |lists| && j < |lists| && j != k && x !in objs
    ensures OnlyIn(MovedAll(MovedAll(lists, x, j), x, k), k, objs + [x])
  {
    WithoutAbsent(objs, x);
    var once := MovedAll(lists, x, j);
    forall i | 0 <= i < |lists|
      ensures Without(once[i].objs, x) == if i == k then objs else []
    {
      assert once[i].objs == if i == k then objs else if i == j then [x] else [];
    }
  }

  lemma OnlyMore(lists: seq<TList>, lists': seq<TList>, k: nat, objs: seq<nat>, timeout: int)
    requires OnlyIn(lists, k, objs) && k < |lists|
    requires lists' == lists || lists' == lists + [TList(timeout, [])]
    ensures OnlyIn(lists', k, objs) && |lists| <= |lists'| && lists'[k] == lists[k]
  {
  }

  lemma MovedTimeouts(lists: seq<TList>, x: nat, j: nat, k: nat)
    requires j < |lists| && k < |lists|
    ensures |MovedAll(lists, x, j)| == |lists| && MovedAll(lists, x, j)[k].timeout == lists[k].timeout
    ensures MovedAll(MovedAll(lists, x, j), x, k)[k].timeout == lists[k].timeout
  {
  }

  /** A new object, armed with a timeout and then attached to a list that sets none. */
  method MakeAndMove(u: CTimerUnit, k: nat, x: nat, timeout: int, ghost objs: seq<nat>)
    requires u.Valid() && 1 <= k < |u.lists| && u.lists[k].timeout <= 0 < timeout && OnlyIn(u.lists, k, objs)
    requires x !in u.exp && x !in objs
    modifies u
    ensures u.Valid() && u.clock == old(u.clock) && old(|u.lists|) <= |u.lists| && OnlyIn(u.lists, k, objs + [x])
    ensures u.lists[k].timeout == old(u.lists[k].timeout) && u.exp == old(u.exp)[x := u.clock + timeout]
  {
    hide Lists, Settles, Positive, Without, Expired, OnlyIn, Moved, MovedAll;
    ObjectMade(u.lists, u.exp, u.clock, x, 0, u.clock);
    u.exp := u.exp[x := 0];
    ghost var before := u.lists;
    var j := u.GetTimerList(timeout, u.clock);
    OnlyMore(before, u.lists, k, objs, timeout);
    MovedThrough(u.lists, k, objs, x, j);
    MovedTimeouts(u.lists, x, j, k);
    u.AttachTimer(x, j, u.clock);
    u.AttachTimer(x, k, u.clock);
  }

  // ---- what quiet callbacks leave ----

  /** So many of the expired objects that list k starts with have been notified, and nothing else has changed. */
  ghost predicate Quiet(lists0: seq<TList>, lists: seq<TList>, exp: Expiries, now: int, k: nat, told: seq<nat>)
  {
    && k < |lists0| && told <= lists0[k].objs
    && lists == lists0[k := TList(lists0[k].timeout, lists0[k].objs[|told|..])]
    && told + Leads(lists0[k].objs[|told|..], exp, now) == Leads(lists0[k].objs, exp, now)
  }

  lemma QuietNone(lists: seq<TList>, exp: Expiries, now: int, k: nat)
    requires k < |lists|
    ensures Quiet(lists, lists, exp, now, k, [])
  {
    hide Leads;
    assert lists[k].objs[0..] == lists[k].objs;
  }

  lemma QuietHead(lists0: seq<TList>, lists: seq<TList>, exp: Expiries, clock: int, now: int, k: nat, told: seq<nat>)
    requires Lists(lists, exp, clock) && Quiet(lists0, lists, exp, now, k, told)
    ensures k < |lists| && (lists[k].objs != [] ==> lists[k].objs[0] in exp)
  {
    hide Lists, Leads, MovedAll;
    if lists[k].objs != [] {
      HeadOnly(lists, exp, clock, k);
    }
  }

  lemma QuietMore(lists0: seq<TList>, lists: seq<TList>, exp: Expiries, now: int, k: nat, told: seq<nat>)
    requires Quiet(lists0, lists, exp, now, k, told) && lists[k].objs != []
    requires lists[k].objs[0] in exp && exp[lists[k].objs[0]] <= now
    ensures var x := lists[k].objs[0];
            Quiet(lists0, lists[k := TList(lists[k].timeout, lists[k].objs[1..])], exp, now, k, told + [x])
  {
    hide Leads;
    var objs := lists0[k].objs;
    LeadsNext(objs[|told|..], exp, now);
    assert objs[|told|..][1..] == objs[|told| + 1..];
    assert told + [objs[|told|]] <= objs;
  }

  lemma QuietEnd(lists0: seq<TList>, lists: seq<TList>, exp: Expiries, now: int, k: nat, told: seq<nat>)
    requires Quiet(lists0, lists, exp, now, k, told)
    requires lists[k].objs == [] || lists[k].objs[0] !in exp || exp[lists[k].objs[0]] > now
    ensures told == Leads(lists0[k].objs, exp, now) <= lists0[k].objs
    ensures lists == lists0[k := TList(lists0[k].timeout, lists0[k].objs[|told|..])]
  {
    hide Leads;
    LeadsNext(lists[k].objs, exp, now);
  }

  /** The expired objects the lists from the newest down to k start with. */
  function ChainLeads(lists: seq<TList>, exp: Expiries, now: int, k: nat): seq<nat>
    decreases |lists| - k
  {
    if k >= |lists| then []
    else ChainLeads(lists, exp, now, k + 1) + Leads(lists[k].objs, exp, now)
  }

  /** The lists without them, `pending` drained. */
  function AfterLeads(lists: seq<TList>, exp: Expiries, now: int, k: nat): (r: seq<TList>)
  {
    seq(|lists|, i requires 0 <= i < |lists| =>
      TList(lists[i].timeout,
        if i == 0 then [] else if i < k then lists[i].objs else Behind(lists[i].objs, exp, now)))
  }

  function Behind(objs: seq<nat>, exp: Expiries, now: int): seq<nat>
  {
    LeadsPrefix(objs, exp, now);
    objs[|Leads(objs, exp, now)|..]
  }

  lemma ChainEnd(lists: seq<TList>, exp: Expiries, now: int)
    requires lists != []
    ensures ChainLeads(lists, exp, now, |lists|) == []
    ensures AfterLeads(lists, exp, now, |lists|) == lists[0 := TList(lists[0].timeout, [])]
  {
  }

  lemma ChainMore(lists: seq<TList>, exp: Expiries, now: int, k: nat)
    requires 1 <= k < |lists|
    ensures ChainLeads(lists, exp, now, k) == ChainLeads(lists, exp, now, k + 1) + Leads(lists[k].objs, exp, now)
    ensures AfterLeads(lists, exp, now, k + 1)[k] == lists[k]
    ensures AfterLeads(lists, exp, now, k) ==
            AfterLeads(lists, exp, now, k + 1)[k := TList(lists[k].timeout, Behind(lists[k].objs, exp, now))]
  {
    hide Leads, Behind;
  }

  lemma LeadsLeft(lists: seq<TList>, exp: Expiries, now: int)
    ensures var r := AfterLeads(lists, exp, now, 1);
            (forall i :: 1 <= i < |r| ==> Due(r, exp, i, now) == []) <==>
              forall i :: 1 <= i < |lists| ==> ExpiredFirst(lists[i].objs, exp, now)
  {
    hide Leads, ExpiredFirst, Expired;
    var r := AfterLeads(lists, exp, now, 1);
    forall i | 1 <= i < |lists|
      ensures Due(r, exp, i, now) == [] <==> ExpiredFirst(lists[i].objs, exp, now)
    {
      LeadsAll(lists[i].objs, exp, now);
      assert r[i].objs == Behind(lists[i].objs, exp, now);
    }
  }

  lemma OrderedExpire(lists: seq<TList>, exp: Expiries, clock: int, now: int)
    requires Lists(lists, exp, clock)
    ensures forall i :: 1 <= i < |lists| && lists[i].timeout > 0 ==> ExpiredFirst(lists[i].objs, exp, now)
  {
    hide Leads, ExpiredFirst, Expired, Ordered;
    forall i | 1 <= i < |lists| && lists[i].timeout > 0
      ensures ExpiredFirst(lists[i].objs, exp, now)
    {
      assert Sound(lists[i], exp, clock);
      OrderedFirst(lists[i].objs, exp, now);
    }
  }

  // ---- loops that do not end ----

  /** The head of a list goes to its tail: a callback that attaches its own object again, or one turn of a transfer of
      a list to itself. */
  method TurnOver(u: CTimerUnit, k: nat)
    requires u.Valid() && k < |u.lists| && u.lists[k].objs != []
    modifies u
    ensures u.Valid() && |u.lists| == old(|u.lists|) && u.clock == old(u.clock)
    ensures var objs := old(u.lists[k].objs);
            u.lists == old(u.lists)[k := TList(old(u.lists[k].timeout), objs[1..] + [objs[0]])]
    ensures old(u.lists[k].timeout) <= 0 ==> u.exp == old(u.exp)
  {
    hide Sound, Expired, Settles, Moved, Apart, Positive, MovedAll;
    HeadOnly(u.lists, u.exp, u.clock, k);
    TurnedOver(u.lists, u.exp, u.clock, k);
    var x := u.lists[k].objs[0];
    u.DisableTimer(x, u.clock);
    u.AttachTimer(x, k, u.clock);
  }

  /** A list with objects transferred to itself: after any number of turns there is an object to transfer. */
  method TransferToItself(u: CTimerUnit, a: nat, turns: nat)
    requires u.Valid() && a < |u.lists| && u.lists[a].objs != []
    modifies u
    ensures u.Valid() && |u.lists| == old(|u.lists|)
    ensures u.lists[a].objs == Turned(old(u.lists[a].objs), turns) != []
  {
    for i := 0 to turns
      invariant u.Valid() && |u.lists| == old(|u.lists|) && u.lists[a].objs != []
      invariant u.lists[a].objs == Turned(old(u.lists[a].objs), i)
    {
      TurnOver(u, a);
    }
  }

  /** A list whose head has gone to the tail n times. */
  function Turned(objs: seq<nat>, n: nat): (r: seq<nat>)
    ensures multiset(r) == multiset(objs)
  {
    if n == 0 || objs == [] then objs
    else
      var before := Turned(objs, n - 1);
      assert objs[0] in multiset(before);
      assert before == [before[0]] + before[1..];
      before[1..] + [before[0]]
  }

  /** In any unit, over any list whose timeout sets no expiry, `pending` among them, the loop that notifies need not
      end: a new object, which has expired, is attached there, and its callback attaches it there again. After any
      number of turns the head has expired. */
  method Endless(u: CTimerUnit, k: nat, x: nat, now: int, turns: nat)
    requires u.Valid() && k < |u.lists| && u.lists[k].timeout <= 0 && x !in u.exp && 0 <= now <= u.clock
    modifies u
    ensures u.Valid() && |u.lists| == old(|u.lists|) && u.lists[k].objs == [x] && x in u.exp && u.exp[x] <= now
  {
    hide Sound, Expired, Settles, Apart, Positive;
    DisableAll(u);
    ObjectMade(u.lists, u.exp, u.clock, x, 0, u.clock);
    u.exp := u.exp[x := 0];
    u.AttachTimer(x, k, u.clock);
    for i := 0 to turns
      invariant u.Valid() && |u.lists| == old(|u.lists|) && u.lists[k] == TList(old(u.lists[k].timeout), [x])
      invariant x in u.exp && u.exp[x] <= now
    {
      TurnOver(u, k);
      assert [x][1..] + [x] == [x];
    }
  }

  /** Every object is disabled. */
  method DisableAll(u: CTimerUnit)
    requires u.Valid()
    modifies u
    ensures u.Valid() && u.clock == old(u.clock) && u.exp == old(u.exp) && |u.lists| == old(|u.lists|)
    ensures forall i :: 0 <= i < |u.lists| ==> u.lists[i] == TList(old(u.lists)[i].timeout, [])
  {
    hide Lists, Settles, Positive, Without, Expired;
    var k := 0;
    while k < |u.lists|
      invariant u.Valid() && 0 <= k <= |u.lists| == old(|u.lists|) && u.clock == old(u.clock) && u.exp == old(u.exp)
      invariant forall i :: 0 <= i < |u.lists| ==> u.lists[i].timeout == old(u.lists)[i].timeout
      invariant forall i :: 0 <= i < k ==> u.lists[i].objs == []
      decreases |u.lists| - k, if k < |u.lists| then |u.lists[k].objs| else 0
    {
      if u.lists[k].objs == [] {
        k := k + 1;
      } else {
        var x := u.lists[k].objs[0];
        FirstLeaves(u.lists, u.exp, u.clock, k);
        StillEmpty(u.lists, k, x);
        u.DisableTimer(x, u.clock);
      }
    }
  }

  lemma StillEmpty(lists: seq<TList>, k: nat, x: nat)
    requires k <= |lists| && forall i :: 0 <= i < k ==> lists[i].objs == []
    ensures |MovedAll(lists, x, -1)| == |lists|
    ensures forall i :: 0 <= i < k ==> MovedAll(lists, x, -1)[i].objs == []
    ensures forall i :: 0 <= i < |lists| ==> MovedAll(lists, x, -1)[i].timeout == lists[i].timeout
  {
  }

  /** Any unit whose chain has a list whose timeout sets no expiry can be brought to sleep too long: with the objects
      there disabled, two new ones are armed in timed lists and then moved to that one, the later to expire first. */
  method UntimedListMisleads(u: CTimerUnit, k: nat, x: nat, y: nat)
    requires u.Valid() && 1 <= k < |u.lists| && u.lists[k].timeout <= 0
    requires x !in u.exp && y !in u.exp && x != y
    modifies u
    ensures u.Valid() && old(|u.lists|) <= |u.lists| && u.lists[k].timeout == old(u.lists[k].timeout)
    ensures !Soonest(HeadMin(u.lists, u.exp, u.clock + 100), u.lists, u.exp, u.clock + 100)
  {
    hide Lists, HeadMin, Soonest;
    DisableAll(u);
    hide OnlyIn;
    MakeAndMove(u, k, x, 20, []);
    assert [] + [x] == [x] && [x] + [y] == [x, y];
    MakeAndMove(u, k, y, 10, [x]);
    HeadsMislead(u.lists, u.exp, k, x, y, u.clock + 100);
  }
}
