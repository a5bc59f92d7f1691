/** The callbacks an expiry loop makes, and what they leave of the objects that were due. */
module TimerCalls {

  import opened Seqs
  import opened TimerList

  /** TimerNotify of `obj`, which attached or disabled the objects `touched`, and left `zeroed` in `pending`. */
  datatype Call = Call(obj: nat, touched: set<nat>, zeroed: seq<nat>)

  function Told(calls: seq<Call>): (r: seq<nat>)
    ensures |r| == |calls| && forall j :: 0 <= j < |r| ==> r[j] == calls[j].obj
  {
    seq(|calls|, j requires 0 <= j < |calls| => calls[j].obj)
  }

  /** The objects that have been notified or touched. */
  function Gone(calls: seq<Call>): set<nat>
  {
    if calls == [] then {}
    else Gone(calls[..|calls| - 1]) + ({calls[|calls| - 1].obj} + calls[|calls| - 1].touched)
  }

  lemma GoneMore(calls: seq<Call>, c: Call)
    ensures Gone(calls + [c]) == Gone(calls) + ({c.obj} + c.touched)
  {
    assert (calls + [c])[..|calls|] == calls;
  }

  lemma {:induction false} GoneBoth(a: seq<Call>, b: seq<Call>)
    ensures Gone(a + b) == Gone(a) + Gone(b)
    decreases |b|
  {
    if b == [] {
      assert a + b == a;
    } else {
      var n := |b| - 1;
      GoneBoth(a, b[..n]);
      assert a + b == (a + b[..n]) + [b[n]];
      GoneMore(a + b[..n], b[n]);
    }
  }

  /** An object is gone because it was notified or because a callback touched it. */
  lemma {:induction false} GoneMeans(calls: seq<Call>, x: nat)
    ensures x in Gone(calls) <==> x in Told(calls) || exists j :: 0 <= j < |calls| && x in calls[j].touched
    decreases |calls|
  {
    if calls != [] {
      var n := |calls| - 1;
      var init := calls[..n];
      GoneMeans(init, x);
      assert forall j :: 0 <= j < n ==> init[j] == calls[j] && Told(init)[j] == Told(calls)[j];
      if x in Told(init) {
        var j :| 0 <= j < n && Told(init)[j] == x;
        assert Told(calls)[j] == x;
      }
      if x == calls[n].obj {
        assert Told(calls)[n] == x;
      }
    }
  }

  /** Each object notified is the first due one not notified or touched before. */
  ghost predicate FiresSoFar(due: seq<nat>, calls: seq<Call>)
  {
    forall j :: 0 <= j < |calls| ==>
      var left := Minus(due, Gone(calls[..j])); left != [] && left[0] == calls[j].obj
  }

  /** And in the end none is left. */
  ghost predicate Fires(due: seq<nat>, calls: seq<Call>)
  {
    FiresSoFar(due, calls) && Minus(due, Gone(calls)) == []
  }

  lemma FiresMore(due: seq<nat>, calls: seq<Call>, c: Call)
    requires FiresSoFar(due, calls) && Minus(due, Gone(calls)) != [] && c.obj == Minus(due, Gone(calls))[0]
    ensures FiresSoFar(due, calls + [c])
  {
    hide Gone, Minus;
    forall j | 0 <= j < |calls + [c]|
      ensures var left := Minus(due, Gone((calls + [c])[..j])); left != [] && left[0] == (calls + [c])[j].obj
    {
      assert (calls + [c])[..j] == calls[..j];
      if j == |calls| {
        assert calls[..j] == calls;
      }
    }
  }

  lemma {:induction false} GoneEarlier(calls: seq<Call>, i: nat, j: nat)
    requires i < j <= |calls|
    ensures calls[i].obj in Gone(calls[..j])
    decreases j
  {
    assert calls[..j][..j - 1] == calls[..j - 1];
    if i < j - 1 {
      GoneEarlier(calls, i, j - 1);
    }
  }

  /** Whatever the callbacks do: nobody is notified twice, only objects that were due are, and a due object is notified
      unless an earlier callback attached or disabled it. */
  lemma FiresMeans(due: seq<nat>, calls: seq<Call>)
    requires Fires(due, calls)
    ensures Distinct(Told(calls))
    ensures forall x :: x in Told(calls) ==> x in due
    ensures forall x :: x in due ==> x in Told(calls) || exists j :: 0 <= j < |calls| && x in calls[j].touched
  {
    hide Gone, Minus;
    forall i, j | 0 <= i < j < |calls|
      ensures calls[i].obj != calls[j].obj
    {
      GoneEarlier(calls, i, j);
      assert Minus(due, Gone(calls[..j]))[0] in Minus(due, Gone(calls[..j]));
    }
    forall j | 0 <= j < |calls|
      ensures calls[j].obj in due
    {
      assert Minus(due, Gone(calls[..j]))[0] in Minus(due, Gone(calls[..j]));
    }
    forall x | x in due
      ensures x in Told(calls) || exists j :: 0 <= j < |calls| && x in calls[j].touched
    {
      assert x !in Minus(due, Gone(calls));
      GoneMeans(calls, x);
    }
  }

  lemma {:induction false} MinusFront(s: seq<nat>, n: nat, gone: set<nat>)
    requires Distinct(s) && n <= |s| && forall x :: x in s ==> (x in gone <==> x in s[..n])
    ensures Minus(s, gone) == s[n..]
    decreases n
  {
    if n == 0 {
      MinusNone(s, gone);
    } else {
      var rest := s[1..];
      assert forall i :: 0 <= i < |rest| ==> rest[i] == s[i + 1];
      assert s[..n] == [s[0]] + rest[..n - 1];
      assert s[0] in s && s[0] in s[..n];
      assert s[0] !in rest;
      MinusFront(rest, n - 1, gone);
      assert rest[n - 1..] == s[n..];
    }
  }

  lemma {:induction false} QuietGone(calls: seq<Call>)
    requires forall j :: 0 <= j < |calls| ==> calls[j].touched == {}
    ensures forall x :: x in Gone(calls) <==> x in Told(calls)
  {
    forall x: nat
      ensures x in Gone(calls) <==> x in Told(calls)
    {
      GoneMeans(calls, x);
    }
  }

  /** Callbacks that leave the unit alone: exactly the due objects are notified, in list order. */
  lemma FiresQuietly(due: seq<nat>, calls: seq<Call>)
    requires Fires(due, calls) && Distinct(due) && forall j :: 0 <= j < |calls| ==> calls[j].touched == {}
    ensures Told(calls) == due
  {
    hide Gone, Minus;
    FiresUpTo(due, calls, |calls|);
    assert calls[..|calls|] == calls && Told(calls)[..|calls|] == Told(calls);
    QuietGone(calls);
    MinusFront(due, |calls|, Gone(calls));
    assert due == due[..|calls|] + due[|calls|..];
  }

  lemma {:induction false} FiresUpTo(due: seq<nat>, calls: seq<Call>, n: nat)
    requires FiresSoFar(due, calls) && Distinct(due) && forall j :: 0 <= j < |calls| ==> calls[j].touched == {}
    requires n <= |calls|
    ensures n <= |due| && Told(calls)[..n] == due[..n]
  {
    hide Gone, Minus;
    if n > 0 {
      var m := n - 1;
      FiresUpTo(due, calls, m);
      assert Told(calls[..m]) == Told(calls)[..m];
      QuietGone(calls[..m]);
      MinusFront(due, m, Gone(calls[..m]));
      assert due[m..] != [] && due[m..][0] == due[m];
      assert Told(calls)[..n] == Told(calls)[..m] + [Told(calls)[m]] && due[..n] == due[..m] + [due[m]];
    }
  }

  /** What is left of `pending` after these callbacks. */
  function Pending(objs: seq<nat>, calls: seq<Call>): seq<nat>
  {
    if calls == [] then objs
    else
      var c := calls[|calls| - 1];
      Minus(Pending(objs, calls[..|calls| - 1]), {c.obj} + c.touched) + c.zeroed
  }

  lemma PendingMore(objs: seq<nat>, calls: seq<Call>, c: Call)
    ensures Pending(objs, calls + [c]) == Minus(Pending(objs, calls), {c.obj} + c.touched) + c.zeroed
  {
    assert (calls + [c])[..|calls|] == calls;
  }

  /** Each object notified is the first pending one. */
  ghost predicate Drains(objs: seq<nat>, calls: seq<Call>)
  {
    forall j :: 0 <= j < |calls| ==>
      var left := Pending(objs, calls[..j]); left != [] && left[0] == calls[j].obj
  }

  lemma DrainsMore(objs: seq<nat>, calls: seq<Call>, c: Call)
    requires Drains(objs, calls) && Pending(objs, calls) != [] && c.obj == Pending(objs, calls)[0]
    ensures Drains(objs, calls + [c])
  {
    hide Pending;
    forall j | 0 <= j < |calls + [c]|
      ensures var left := Pending(objs, (calls + [c])[..j]); left != [] && left[0] == (calls + [c])[j].obj
    {
      assert (calls + [c])[..j] == calls[..j];
      if j == |calls| {
        assert calls[..j] == calls;
      }
    }
  }

  lemma {:induction false} PendingHolds(objs: seq<nat>, calls: seq<Call>, x: nat)
    ensures x in Pending(objs, calls) ==> x in objs || exists j :: 0 <= j < |calls| && x in calls[j].zeroed
    ensures x in objs && x !in Gone(calls) ==> x in Pending(objs, calls)
    decreases |calls|
  {
    if calls != [] {
      var init := calls[..|calls| - 1];
      PendingHolds(objs, init, x);
      assert forall j :: 0 <= j < |init| ==> init[j] == calls[j];
    }
  }

  /** A drained `pending`: an object notified was pending at the start or attached by an earlier callback, and one
      pending at the start is notified unless an earlier callback attached or disabled it. */
  lemma DrainsMeans(objs: seq<nat>, calls: seq<Call>)
    requires Drains(objs, calls) && Pending(objs, calls) == []
    ensures forall j :: 0 <= j < |calls| ==>
              calls[j].obj in objs || exists i :: 0 <= i < j && calls[j].obj in calls[i].zeroed
    ensures forall x :: x in objs ==> x in Told(calls) || exists j :: 0 <= j < |calls| && x in calls[j].touched
  {
    hide Gone, Pending;
    forall j | 0 <= j < |calls|
      ensures calls[j].obj in objs || exists i :: 0 <= i < j && calls[j].obj in calls[i].zeroed
    {
      var x := calls[j].obj;
      assert Pending(objs, calls[..j])[0] in Pending(objs, calls[..j]);
      PendingHolds(objs, calls[..j], x);
      if x !in objs {
        var i :| 0 <= i < j && x in calls[..j][i].zeroed;
        assert x in calls[i].zeroed;
      }
    }
    forall x | x in objs
      ensures x in Told(calls) || exists j :: 0 <= j < |calls| && x in calls[j].touched
    {
      PendingHolds(objs, calls, x);
      GoneMeans(calls, x);
    }
  }

  /** Each object notified was due in some list of the chain to begin with, and had not been notified or touched. */
  ghost predicate Sweeps(lists: seq<TList>, exp: Expiries, now: int, before: set<nat>, calls: seq<Call>)
  {
    forall j :: 0 <= j < |calls| ==>
      && calls[j].obj !in before + Gone(calls[..j])
      && exists i :: 1 <= i < |lists| && calls[j].obj in Due(lists, exp, i, now)
  }

  /** Going on with a list of what is left. */
  lemma SweepsMore(lists: seq<TList>, exp: Expiries, now: int, before: set<nat>, calls: seq<Call>, k: nat,
      more: seq<Call>)
    requires Sweeps(lists, exp, now, before, calls) && k >= 1
    requires FiresSoFar(Minus(Due(lists, exp, k, now), before + Gone(calls)), more)
    ensures Sweeps(lists, exp, now, before, calls + more)
  {
    hide Gone, Minus, Due;
    var due := Minus(Due(lists, exp, k, now), before + Gone(calls));
    forall j | 0 <= j < |calls + more|
      ensures (calls + more)[j].obj !in before + Gone((calls + more)[..j])
      ensures exists i :: 1 <= i < |lists| && (calls + more)[j].obj in Due(lists, exp, i, now)
    {
      if j < |calls| {
        assert (calls + more)[..j] == calls[..j];
      } else {
        var m := j - |calls|;
        assert (calls + more)[..j] == calls + more[..m];
        GoneBoth(calls, more[..m]);
        var x := more[m].obj;
        assert Minus(due, Gone(more[..m]))[0] in Minus(due, Gone(more[..m]));
        assert x in Due(lists, exp, k, now);
        DueInside(lists, exp, k, now, x);
      }
    }
  }

  lemma DueInside(lists: seq<TList>, exp: Expiries, i: nat, now: int, x: nat)
    requires x in Due(lists, exp, i, now)
    ensures i < |lists|
  {
  }

  /** Nobody is notified twice. */
  lemma SweepsDistinct(lists: seq<TList>, exp: Expiries, now: int, before: set<nat>, calls: seq<Call>)
    requires Sweeps(lists, exp, now, before, calls)
    ensures Distinct(Told(calls))
  {
    hide Gone, Due;
    forall i, j | 0 <= i < j < |calls|
      ensures calls[i].obj != calls[j].obj
    {
      GoneEarlier(calls, i, j);
    }
  }

  lemma GoneNone()
    ensures Gone([]) == {}
  {
  }

  lemma PendingNone(objs: seq<nat>)
    ensures Pending(objs, []) == objs
  {
  }

  lemma SweepsNone(lists: seq<TList>, exp: Expiries, now: int, before: set<nat>)
    ensures Sweeps(lists, exp, now, before, [])
  {
  }

  lemma DueAfter(lists: seq<TList>, exp: Expiries, lists': seq<TList>, exp': Expiries, now: int,
                 touched: set<nat>, zeroed: seq<nat>, k: nat)
    requires Settles(lists, exp, lists', exp', now, touched, zeroed) && 1 <= k < |lists'|
    ensures Due(lists', exp', k, now) == Minus(Due(lists, exp, k, now), touched)
    ensures |lists| <= |lists'|
  {
  }

  lemma PendingAfter(lists: seq<TList>, exp: Expiries, lists': seq<TList>, exp': Expiries, now: int,
                     touched: set<nat>, zeroed: seq<nat>)
    requires Settles(lists, exp, lists', exp', now, touched, zeroed)
    ensures lists'[0].objs == Minus(lists[0].objs, touched) + zeroed
  {
  }

  /** A list without expired objects gets none. */
  lemma StillNone(lists: seq<TList>, exp: Expiries, lists': seq<TList>, exp': Expiries, now: int,
                  touched: set<nat>, zeroed: seq<nat>)
    requires Settles(lists, exp, lists', exp', now, touched, zeroed)
    ensures |lists| <= |lists'|
    ensures forall i :: 1 <= i < |lists'| && (i < |lists| ==> Due(lists, exp, i, now) == []) ==>
            Due(lists', exp', i, now) == []
  {
    hide Expired;
  }

  /** Where no expired object is left, those of before have been touched. */
  lemma NoneMissed(lists: seq<TList>, exp: Expiries, lists': seq<TList>, exp': Expiries, now: int,
                   touched: set<nat>, zeroed: seq<nat>)
    requires Settles(lists, exp, lists', exp', now, touched, zeroed)
    requires forall i :: 1 <= i < |lists'| ==> Due(lists', exp', i, now) == []
    ensures forall i, x :: 1 <= i < |lists| && x in Due(lists, exp, i, now) ==> x in touched
  {
    hide Expired, Due;
    forall i, x | 1 <= i < |lists| && x in Due(lists, exp, i, now)
      ensures x in touched
    {
      assert Due(lists', exp', i, now) == Minus(Due(lists, exp, i, now), touched);
      assert x !in Minus(Due(lists, exp, i, now), touched);
    }
  }
}
