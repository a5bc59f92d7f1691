/** CNetMgr: who holds which handler, and the collection of those idle for too long. */
module NetMgr {
  import opened Connections
  import opened NetHandler
  import opened Seqs

  /** How many places are taken. */
  function Count(places: seq<CNetHandler?>): nat
  {
    if places == [] then 0 else (if places[0] == null then 0 else 1) + Count(places[1..])
  }

  lemma {:induction false} CountSplit(a: seq<CNetHandler?>, b: seq<CNetHandler?>)
    ensures Count(a + b) == Count(a) + Count(b)
  {
    if a == [] {
      assert a + b == b;
    } else {
      CountSplit(a[1..], b);
      assert (a + b)[1..] == a[1..] + b;
    }
  }

  lemma CountSet(places: seq<CNetHandler?>, i: nat, h: CNetHandler?)
    requires i < |places|
    ensures Count(places[i := h]) == Count(places) - (if places[i] == null then 0 else 1) + (if h == null then 0 else 1)
  {
    CountSplit(places[..i], [places[i]] + places[i + 1..]);
    CountSplit(places[..i], [h] + places[i + 1..]);
    assert places == places[..i] + ([places[i]] + places[i + 1..]);
    assert places[i := h] == places[..i] + ([h] + places[i + 1..]);
  }

  lemma {:induction false} CountZero(places: seq<CNetHandler?>)
    requires Count(places) == 0
    ensures forall i :: 0 <= i < |places| ==> places[i] == null
  {
    if places != [] {
      CountZero(places[1..]);
      assert forall i :: 0 < i < |places| ==> places[i] == places[1..][i - 1];
    }
  }

  /** `idle` are the handlers in `free`, each under its own destination. */
  ghost predicate FreeTable(free: map<string, set<CNetHandler>>, idle: set<CNetHandler>)
  {
    && (forall k, h :: k in free && h in free[k] ==> h.key == k && h in idle)
    && (forall h :: h in idle ==> h.key in free && h in free[h.key])
  }

  /** `queueing` are the handlers in `shared`, each under its own destination, and the numbers are right. */
  ghost predicate SharedTable(shared: map<string, seq<CNetHandler?>>, queueing: set<CNetHandler>,
                              curNum: map<string, nat>, size: nat)
  {
    && (forall k, i :: k in shared && 0 <= i < |shared[k]| && shared[k][i] != null ==>
          shared[k][i].key == k && shared[k][i] in queueing)
    && (forall h :: h in queueing ==> h.key in shared && h in shared[h.key])
    && (forall k, i, j :: k in shared && 0 <= i < j < |shared[k]| && shared[k][i] != null ==>
       shared[k][i] != shared[k][j])
    && shared.Keys == curNum.Keys
    && (forall k :: k in shared ==> |shared[k]| == size && curNum[k] == Count(shared[k]))
  }

  lemma FreeChanges(free: map<string, set<CNetHandler>>, idle: set<CNetHandler>, h: CNetHandler)
    requires FreeTable(free, idle)
    ensures var others := if h.key in free then free[h.key] else {};
            && FreeTable(free[h.key := others + {h}], idle + {h})
            && FreeTable(free[h.key := others - {h}], idle - {h})
  {
  }

  lemma SharedFilled(shared: map<string, seq<CNetHandler?>>, queueing: set<CNetHandler>, curNum: map<string, nat>,
                     size: nat, places: seq<CNetHandler?>, i: nat, n: nat, h: CNetHandler)
    requires SharedTable(shared, queueing, curNum, size) && h !in queueing && i < |places| == size && places[i] == null
    requires if h.key in shared then places == shared[h.key] && n == curNum[h.key]
             else n == 0 && forall j :: 0 <= j < |places| ==> places[j] == null
    ensures SharedTable(shared[h.key := places[i := h]], queueing + {h}, curNum[h.key := n + 1], size)
  {
    if h.key !in shared {
      CountNone(places);
    }
    CountSet(places, i, h);
    KeepsOthers(places, i, h);
  }

  lemma SharedCleared(shared: map<string, seq<CNetHandler?>>, queueing: set<CNetHandler>, curNum: map<string, nat>,
                      size: nat, k: string, i: nat)
    requires SharedTable(shared, queueing, curNum, size) && k in shared && i < |shared[k]| && shared[k][i] != null
    ensures k in curNum && curNum[k] > 0 && shared[k][i] in queueing
    ensures SharedTable(shared[k := shared[k][i := null]], queueing - {shared[k][i]}, curNum[k := curNum[k] - 1], size)
  {
    var places, h := shared[k], shared[k][i];
    CountSet(places, i, null);
    forall g: CNetHandler | g in places && g != h
      ensures g in places[i := null]
    {
      var j :| 0 <= j < |places| && places[j] == g;
      assert places[i := null][j] == g;
    }
  }

  class CNetMgr {
    const maxPending: nat
    /** _mapHandler: handlers nobody is using, by destination. */
    var free: map<string, set<CNetHandler>>
    /** _nhptr_mgr: handlers given out. */
    var lent: set<CNetHandler>
    /** _mapPendingHandler: handlers that queue requests, shared by everyone. */
    var shared: map<string, seq<CNetHandler?>>
    var curNum: map<string, nat>

    /** All handlers in `free`, and all in `shared`. */
    ghost var idle: set<CNetHandler>
    ghost var queueing: set<CNetHandler>

    ghost function All(): set<CNetHandler>
      reads this
    {
      idle + lent + queueing
    }

    ghost predicate Valid()
      reads this, All()
    {
      Linked() && forall k :: k in curNum ==> curNum[k] > 0
    }

    ghost predicate Linked()
      reads this, All()
    {
      && maxPending >= 1 && idle !! lent && FreeTable(free, idle) && SharedTable(shared, queueing, curNum, maxPending)
      && (forall h :: h in idle ==> h.Valid() && h.NoWork() && h.connType != LongWithPending)
      && (forall h :: h in lent ==> h.Valid() && h.connType != LongWithPending)
      && (forall h :: h in queueing ==> h.Valid() && h.connType == LongWithPending)
    }

    constructor (pendingConnNum: int)
      ensures Valid() && All() == {}
    {
      maxPending := if pendingConnNum < 1 then 10 else pendingConnNum;
      free, lent, shared, curNum := map[], {}, map[], map[];
      idle, queueing := {}, {};
    }

    /** A handler given out for exclusive use has no work, so it accepts the request it was fetched for. One that is
        idle is used again, if there is one for the destination. */
    method GetHandler(key: string, connType: ConnType, isTcp: bool) returns (h: CNetHandler)
      requires Valid() && connType != LongWithPending
      modifies this
      ensures Valid() && h in lent && h.Valid() && h.NoWork() && h.key == key
      ensures fresh(h) || h in old(idle)
      ensures fresh(h) ==> h.connType == connType && forall g :: g in old(idle) ==> g.key != key
      ensures lent == old(lent) + {h} && idle == old(idle) - {h} && queueing == old(queueing)
    {
      hide CNetHandler.Good, SharedTable;
      if key in free && free[key] != {} {
        h :| h in free[key];
        FreeChanges(free, idle, h);
        free := free[key := free[key] - {h}];
        idle := idle - {h};
      } else {
        h := new CNetHandler(key, connType, isTcp);
      }
      lent := lent + {h};
    }

    /** A handler whose action has been told comes back: its action was the only one, so it has no work. */
    method RecycleHandler(h: CNetHandler)
      requires Valid() && h in All() && (h in lent ==> h.action.Nobody?)
      modifies this
      ensures Valid() && queueing == old(queueing)
      ensures h.connType == LongWithPending ==> unchanged(this)
      ensures h in old(lent) ==> lent == old(lent) - {h} && idle == old(idle) + {h}
    {
      hide CNetHandler.Good, FreeTable, SharedTable;
      if h.connType != LongWithPending {
        ValidMeans(h);
        FreeChanges(free, idle, h);
        lent := lent - {h};
        var others := if h.key in free then free[h.key] else {};
        free := free[h.key := others + {h}];
        idle := idle + {h};
      }
    }

    /** A queueing handler for this destination: the place that is drawn, filled on first use. */
    method GetQueueing(key: string, isTcp: bool, choice: nat) returns (h: CNetHandler)
      requires Valid() && choice < maxPending
      modifies this
      ensures Valid() && h in queueing && h.Valid() && h.key == key && h.connType == LongWithPending
      ensures queueing == old(queueing) + {h} && (fresh(h) || h in old(queueing))
      ensures key in shared && choice < |shared[key]| && shared[key][if key in old(shared) then choice else 0] == h
      ensures key in old(shared) ==> choice < |old(shared)[key]|
      ensures fresh(h) <==> key in old(shared) ==> old(shared)[key][choice] == null
      ensures idle == old(idle) && lent == old(lent)
    {
      hide CNetHandler.Good, FreeTable, SharedTable;
      Places(shared, queueing, curNum, maxPending, key);
      if key !in shared {
        h := FillPlace(key, isTcp, seq(maxPending, _ => null), 0, 0);
      } else {
        if shared[key][choice] == null {
          h := FillPlace(key, isTcp, shared[key], choice, curNum[key]);
        } else {
          h := shared[key][choice];
        }
      }
    }

    method FillPlace(key: string, isTcp: bool, places: seq<CNetHandler?>, i: nat, n: nat) returns (h: CNetHandler)
      requires Valid() && i < |places| == maxPending && places[i] == null
      requires if key in shared then places == shared[key] && n == curNum[key]
               else n == 0 && forall j :: 0 <= j < |places| ==> places[j] == null
      modifies this
      ensures Valid() && fresh(h) && h.Valid() && h.key == key && h.connType == LongWithPending
              && queueing == old(queueing) + {h}
      ensures idle == old(idle) && lent == old(lent)
      ensures shared == old(shared)[key := places[i := h]]
    {
      hide CNetHandler.Good, FreeTable, SharedTable;
      h := new CNetHandler(key, LongWithPending, isTcp);
      SharedFilled(shared, queueing, curNum, maxPending, places, i, n, h);
      shared := shared[key := places[i := h]];
      curNum := curNum[key := n + 1];
      queueing := queueing + {h};
    }

    /** What collection leaves of a handler: no work, and every action it ever took on was told once. */
    ghost predicate Retired(h: CNetHandler)
      reads h
    {
      h.NoWork() && forall id :: 0 <= id < |h.calls| ==> h.calls[id] == 1
    }

    method RetireIdle(k: string, h: CNetHandler)
      requires Linked() && k in free && h in free[k] && h.CanRecycle()
      modifies this`free, this`idle, h
      ensures Linked() && Retired(h) && h in old(idle) && idle == old(idle) - {h} && h.accepted == old(h.accepted)
      ensures free == old(free)[k := old(free)[k] - {h}]
    {
      hide Accounted, SharedTable;
      FreeChanges(free, idle, h);
      h.Recycle();
      free := free[k := free[k] - {h}];
      idle := idle - {h};
    }

    method RetireQueueing(k: string, i: nat)
      requires Linked() && k in shared && i < |shared[k]| && shared[k][i] != null && shared[k][i].CanRecycle()
      modifies this`shared, this`curNum, this`queueing, queueing
      ensures Linked() && shared == old(shared)[k := old(shared)[k][i := null]]
      ensures k in old(curNum) && old(curNum)[k] > 0 && curNum == old(curNum)[k := old(curNum)[k] - 1]
      ensures var h := old(shared)[k][i];
              Retired(h) && h in old(queueing) && queueing == old(queueing) - {h} && h.accepted == old(h.accepted)
      ensures forall g :: g in old(queueing) && g != old(shared)[k][i] ==> unchanged(g)
    {
      hide Accounted, FreeTable, SharedTable;
      var h := shared[k][i];
      SharedCleared(shared, queueing, curNum, maxPending, k, i);
      h.Recycle();
      curNum := curNum[k := curNum[k] - 1];
      shared := shared[k := shared[k][i := null]];
      queueing := queueing - {h};
    }

    /** HandleStart for an unshared connection: the handler fetched never turns the request away. */
    method Submit(key: string, connType: ConnType, isTcp: bool, a: Action, w: World) returns (h: CNetHandler, ret: int)
      requires Valid() && connType != LongWithPending
      modifies this, idle
      ensures Valid() && h in lent && h.key == key && h.accepted != [] && h.accepted[|h.accepted| - 1] == a
      ensures lent == old(lent) + {h} && idle == old(idle) - {h} && queueing == old(queueing)
      ensures fresh(h) || (h in old(idle) && h.accepted == old(h.accepted) + [a])
      ensures h in old(idle) ==> Submits(old(h.Now()), a, w, h.isTcp, h.connType, h.Now())
      ensures fresh(h) ==> forall g :: g in old(idle) ==> g.key != key
      ensures forall g :: g in old(idle) && g != h ==> unchanged(g)
    {
      hide CNetHandler.Good, FreeTable, SharedTable, Reacts, Submits;
      h := GetHandler(key, connType, isTcp);
      ret := h.HandleRequest(a, w);
    }

    /** Whatever happens to one handler's socket or timer, everyone keeps their promises; in particular a
        handler nobody is using stays without work. */
    method Dispatch(h: CNetHandler, e: Event)
      requires Valid() && h in All() && !h.isNew
      modifies h
      ensures Valid() && h.accepted == old(h.accepted) && More(old(h.calls), h.calls)
      ensures (e.Hangup? || e.TimerFires?) && old(h.action).Somebody? ==> h.Told(old(h.action).ai)
      ensures e.TimerFires? && old(h.NoWork()) ==> h.CanRecycle()
      ensures Reacts(old(h.Now()), e, h.isTcp, h.Now())
    {
      hide CNetHandler.Good, FreeTable, SharedTable, Reacts, Submits;
      h.Notify(e);
    }

    /** Everyone a handler is lent to is still waiting for it. */
    ghost predicate Busy()
      reads this, lent
    {
      forall h :: h in lent ==> h.action.Somebody?
    }

    /** Nobody but new handlers has joined. */
    twostate predicate OnlyNew()
      reads this
    {
      forall h :: h in All() ==> h in old(All()) || fresh(h)
    }

    /** HandleFinished for the action of this handler, if it has been told. */
    method ReturnIfTold(h: CNetHandler)
      requires Valid() && h in All() && forall g :: g in lent && g != h ==> g.action.Somebody?
      modifies this
      ensures Valid() && Busy() && All() == old(All()) && queueing == old(queueing)
    {
      hide CNetHandler.Good, FreeTable, SharedTable;
      if h in lent && h.action.Nobody? {
        RecycleHandler(h);
      }
    }

    /** HandleStart of an action over a connection of its own: the handler comes back as soon as the action is told,
        which may be at once. */
    method Start(key: string, connType: ConnType, isTcp: bool, a: Action, w: World) returns (h: CNetHandler)
      requires Valid() && Busy() && connType != LongWithPending
      modifies this, idle
      ensures Valid() && Busy() && OnlyNew() && old(All()) <= All() && h in All() && a in h.accepted
      ensures forall g :: g in old(All()) ==> old(g.accepted) <= g.accepted
      ensures h.key == key && (fresh(h) || h in old(idle)) && (fresh(h) ==> forall g :: g in old(idle) ==> g.key != key)
      ensures h in old(idle) ==> Submits(old(h.Now()), a, w, h.isTcp, h.connType, h.Now())
    {
      hide CNetHandler.Good, FreeTable, SharedTable, Reacts, Submits;
      var ret;
      h, ret := Submit(key, connType, isTcp, a, w);
      ReturnIfTold(h);
    }

    /** HandleStart of an action over a shared connection, which takes on every action. */
    method StartQueueing(key: string, isTcp: bool, choice: nat, a: Action, w: World) returns (h: CNetHandler)
      requires Valid() && Busy() && choice < maxPending
      modifies this, queueing
      ensures Valid() && Busy() && OnlyNew() && old(All()) <= All() && h in All() && a in h.accepted
      ensures forall g :: g in old(All()) ==> old(g.accepted) <= g.accepted
      ensures h.key == key && h.connType == LongWithPending && (fresh(h) || h in old(queueing))
      ensures h in old(queueing) ==> Submits(old(h.Now()), a, w, h.isTcp, LongWithPending, h.Now())
    {
      hide CNetHandler.Good, FreeTable, SharedTable, Reacts, Submits;
      h := GetQueueing(key, isTcp, choice);
      var _ := h.HandleRequest(a, w);
    }

    /** Any handler at all that has had a request, if there is one. */
    method Pick() returns (h: CNetHandler?)
      requires Valid()
      ensures h != null ==> h in All() && !h.isNew
    {
      hide CNetHandler.Good;
      h := null;
      var from: nat :| true;
      if from == 0 && lent != {} {
        h :| h in lent;
      } else if from == 1 && free.Keys != {} {
        var k :| k in free;
        if free[k] != {} {
          h :| h in free[k];
        }
      } else if shared.Keys != {} {
        var k :| k in shared;
        var i: nat :| i < maxPending;
        h := shared[k][i];
      }
      if h != null && h.isNew {
        h := null;
      }
    }

    /** A socket or a timer reports to one of the handlers. */
    method Report(h: CNetHandler, e: Event)
      requires Valid() && Busy() && h in All() && !h.isNew
      modifies this, h
      ensures Valid() && Busy() && All() == old(All())
      ensures h.accepted == old(h.accepted) && More(old(h.calls), h.calls)
      ensures (e.Hangup? || e.TimerFires?) && old(h.action).Somebody? ==> h.Told(old(h.action).ai)
      ensures e.TimerFires? && old(h.NoWork()) ==> h.CanRecycle()
      ensures Reacts(old(h.Now()), e, h.isTcp, h.Now())
    {
      hide CNetHandler.Good, FreeTable, SharedTable, Reacts, Submits;
      Dispatch(h, e);
      ReturnIfTold(h);
    }

    /** Exactly the unused and queueing handlers idle for too long are destroyed, and none of them has work left. */
    method CheckIdleHandler() returns (ghost gone: set<CNetHandler>)
      requires Valid()
      modifies this, idle, queueing
      ensures Valid() && lent == old(lent)
      ensures idle + queueing == old(idle) + old(queueing) - gone
      ensures gone == old(set h | h in idle + queueing && h.CanRecycle())
      ensures forall h :: h in gone ==> Retired(h)
      ensures forall h :: h in old(All()) ==> h.accepted == old(h.accepted)
    {
      hide CNetHandler.Good, FreeTable, SharedTable;
      assert idle !! queueing;
      ghost var stale := set h | h in idle && h.CanRecycle();
      ghost var stale' := set h | h in queueing && h.CanRecycle();
      ghost var gone1 := SweepFree(stale);
      ghost var gone2 := SweepShared(stale');
      gone := gone1 + gone2;
    }

    method SweepFree(ghost stale: set<CNetHandler>) returns (ghost gone: set<CNetHandler>)
      requires Valid() && stale <= idle && forall h :: h in idle ==> (h.CanRecycle() <==> h in stale)
      modifies this`free, this`idle, idle
      ensures Valid() && gone == stale && idle == old(idle) - gone
      ensures forall h :: h in gone ==> Retired(h)
      ensures forall h :: h in old(idle) ==> h.accepted == old(h.accepted)
    {
      hide CNetHandler.Good, CNetHandler.CanRecycle, CNetMgr.Retired, FreeTable, SharedTable;
      gone := {};
      var keys := free.Keys;
      FreeHome(free, idle);
      while keys != {}
        invariant Valid() && keys <= free.Keys
        invariant idle == old(idle) - gone && forall h :: h in idle ==> (h.CanRecycle() <==> h in stale)
        invariant gone == set h | h in stale && h.key !in keys
        invariant forall h :: h in gone ==> Retired(h)
        invariant forall h :: h in old(idle) ==> h.accepted == old(h.accepted)
        decreases keys
      {
        var k :| k in keys;
        ghost var more := SweepKey(k, stale);
        gone := gone + more;
        keys := keys - {k};
      }
    }

    method SweepKey(k: string, ghost stale: set<CNetHandler>) returns (ghost gone: set<CNetHandler>)
      requires Valid() && k in free && forall h :: h in idle ==> (h.CanRecycle() <==> h in stale)
      modifies this`free, this`idle, idle
      ensures Valid() && old(free.Keys) - {k} <= free.Keys
      ensures gone == (set h | h in old(idle) && h in stale && h.key == k) && idle == old(idle) - gone
      ensures forall h :: h in idle ==> (h.CanRecycle() <==> h in stale)
      ensures forall h :: h in gone ==> Retired(h)
      ensures forall h :: h in old(idle) ==> h.accepted == old(h.accepted)
    {
      hide CNetHandler.Good, CNetHandler.CanRecycle, CNetMgr.Retired, FreeTable, SharedTable;
      FreeHome(free, idle);
      gone := SweepSet(k, stale);
      if free[k] == {} {
        FreeKeyGone(free, idle, k);
        free := free - {k};
      }
    }

    /** The loop over the handlers of one destination. */
    method SweepSet(k: string, ghost stale: set<CNetHandler>) returns (ghost gone: set<CNetHandler>)
      requires Valid() && k in free && forall h :: h in idle ==> (h.CanRecycle() <==> h in stale)
      modifies this`free, this`idle, idle
      ensures Valid() && free.Keys == old(free.Keys)
      ensures gone == old(free)[k] * stale && gone <= old(idle) && idle == old(idle) - gone
      ensures forall h :: h in idle ==> (h.CanRecycle() <==> h in stale)
      ensures forall h :: h in old(idle) && h !in gone ==> unchanged(h)
      ensures forall h :: h in gone ==> Retired(h)
      ensures forall h :: h in old(idle) ==> h.accepted == old(h.accepted)
    {
      hide CNetHandler.Good, CNetHandler.CanRecycle, CNetMgr.Retired, FreeTable, SharedTable;
      gone := {};
      var todo := free[k];
      while todo != {}
        invariant Valid() && free.Keys == old(free.Keys) && todo <= free[k]
        invariant gone == (old(free)[k] - todo) * stale && gone <= old(idle) && idle == old(idle) - gone
        invariant forall h :: h in idle ==> (h.CanRecycle() <==> h in stale)
        invariant forall h :: h in old(idle) && h !in gone ==> unchanged(h)
        invariant forall h :: h in gone ==> Retired(h)
        invariant forall h :: h in old(idle) ==> h.accepted == old(h.accepted)
        decreases todo
      {
        var h :| h in todo;
        FreeMember(free, idle, k, h);
        todo := todo - {h};
        if h.CanRecycle() {
          RetireIdle(k, h);
          gone := gone + {h};
        }
      }
    }

    method SweepShared(ghost stale: set<CNetHandler>) returns (ghost gone: set<CNetHandler>)
      requires Valid() && stale <= queueing && forall h :: h in queueing ==> (h.CanRecycle() <==> h in stale)
      modifies this`shared, this`curNum, this`queueing, queueing
      ensures Valid() && gone == stale && queueing == old(queueing) - gone
      ensures forall h :: h in gone ==> Retired(h)
      ensures forall h :: h in old(queueing) ==> h.accepted == old(h.accepted)
    {
      hide CNetHandler.Good, CNetHandler.CanRecycle, CNetMgr.Retired, FreeTable, SharedTable;
      gone := {};
      var keys := shared.Keys;
      SharedHome(shared, queueing, curNum, maxPending);
      while keys != {}
        invariant Valid() && keys <= shared.Keys
        invariant queueing == old(queueing) - gone && forall h :: h in queueing ==> (h.CanRecycle() <==> h in stale)
        invariant gone == set h | h in stale && h.key !in keys
        invariant forall h :: h in gone ==> Retired(h)
        invariant forall h :: h in old(queueing) ==> h.accepted == old(h.accepted)
        decreases keys
      {
        var k :| k in keys;
        ghost var more := SweepPlaces(k, stale);
        gone := gone + more;
        keys := keys - {k};
      }
    }

    method SweepPlaces(k: string, ghost stale: set<CNetHandler>) returns (ghost gone: set<CNetHandler>)
      requires Valid() && k in shared && forall h :: h in queueing ==> (h.CanRecycle() <==> h in stale)
      modifies this`shared, this`curNum, this`queueing, queueing
      ensures Valid() && old(shared.Keys) - {k} <= shared.Keys
      ensures gone == (set h | h in old(queueing) && h in stale && h.key == k) && queueing == old(queueing) - gone
      ensures forall h :: h in queueing ==> (h.CanRecycle() <==> h in stale)
      ensures forall h :: h in gone ==> Retired(h)
      ensures forall h :: h in old(queueing) ==> h.accepted == old(h.accepted)
    {
      hide CNetHandler.Good, CNetHandler.CanRecycle, CNetMgr.Retired, FreeTable, SharedTable;
      gone := SweepArray(k, stale);
      SharedKeys(shared, queueing, curNum, maxPending);
      if curNum[k] == 0 {
        SharedKeyGone(shared, queueing, curNum, maxPending, k);
        shared := shared - {k};
        curNum := curNum - {k};
      }
    }

    /** The loop over the places of one destination. */
    method SweepArray(k: string, ghost stale: set<CNetHandler>) returns (ghost gone: set<CNetHandler>)
      requires Valid() && k in shared && forall h :: h in queueing ==> (h.CanRecycle() <==> h in stale)
      modifies this`shared, this`curNum, this`queueing, queueing
      ensures Linked() && shared.Keys == old(shared.Keys) && forall g :: g in curNum && g != k ==> curNum[g] > 0
      ensures gone == (set h | h in old(queueing) && h in stale && h.key == k) && queueing == old(queueing) - gone
      ensures forall h :: h in queueing ==> (h.CanRecycle() <==> h in stale)
      ensures forall h :: h in gone ==> Retired(h)
      ensures forall h :: h in old(queueing) ==> h.accepted == old(h.accepted)
    {
      hide CNetHandler.Good, CNetHandler.CanRecycle, CNetMgr.Retired, FreeTable, SharedTable;
      gone := {};
      ghost var places := shared[k];
      SharedHome(shared, queueing, curNum, maxPending);
      for i := 0 to maxPending
        invariant Linked() && shared.Keys == old(shared.Keys) && |shared[k]| == maxPending == |places|
        invariant forall g :: g in curNum && g != k ==> curNum[g] > 0
        invariant gone <= old(queueing) && queueing == old(queueing) - gone
        invariant forall h :: h in queueing ==> (h.CanRecycle() <==> h in stale)
        invariant forall j :: i <= j < maxPending ==> shared[k][j] == places[j]
        invariant forall j :: 0 <= j < i && places[j] != null ==> (places[j] in gone <==> places[j] in stale)
        invariant forall h :: h in gone ==> Retired(h) && h in stale && h.key == k
        invariant forall h :: h in old(queueing) ==> h.accepted == old(h.accepted)
      {
        ghost var more := SweepPlace(k, i, stale);
        gone := gone + more;
      }
    }

    /** One place of a destination. */
    method SweepPlace(k: string, i: nat, ghost stale: set<CNetHandler>) returns (ghost more: set<CNetHandler>)
      requires Linked() && k in shared && i < |shared[k]| && forall h :: h in queueing ==>
               (h.CanRecycle() <==> h in stale)
      modifies this`shared, this`curNum, this`queueing, queueing
      ensures Linked() && shared.Keys == old(shared.Keys) && |shared[k]| == |old(shared)[k]|
      ensures forall g :: g in curNum && g != k ==> g in old(curNum) && curNum[g] == old(curNum)[g]
      ensures more == if old(shared)[k][i] != null && old(shared)[k][i] in stale then {old(shared)[k][i]} else {}
      ensures more <= old(queueing) && queueing == old(queueing) - more
      ensures forall j :: 0 <= j < |shared[k]| && j != i ==>
              shared[k][j] == old(shared)[k][j] && (shared[k][j] == null || shared[k][j] !in more)
      ensures forall h :: h in queueing ==> (h.CanRecycle() <==> h in stale)
      ensures forall h :: h in more ==> Retired(h) && h.key == k
      ensures forall h :: h in old(queueing) && h !in more ==> unchanged(h)
      ensures forall h :: h in more ==> h.accepted == old(h.accepted)
    {
      hide CNetHandler.Good, CNetHandler.CanRecycle, CNetMgr.Retired, FreeTable, SharedTable;
      more := {};
      SharedHome(shared, queueing, curNum, maxPending);
      SharedKeys(shared, queueing, curNum, maxPending);
      var h := shared[k][i];
      if h != null {
        PlacesDiffer(shared, queueing, curNum, maxPending, k, i);
        if h.CanRecycle() {
          RetireQueueing(k, i);
          more := {h};
        }
      }
    }
  }

  lemma SharedHome(shared: map<string, seq<CNetHandler?>>, queueing: set<CNetHandler>, curNum: map<string, nat>,
      size: nat)
    requires SharedTable(shared, queueing, curNum, size)
    ensures forall h :: h in queueing ==> h.key in shared && h in shared[h.key]
    ensures forall k, i :: k in shared && 0 <= i < |shared[k]| && shared[k][i] != null ==>
              shared[k][i].key == k && shared[k][i] in queueing
    ensures forall k :: k in shared ==> |shared[k]| == size
  {
  }

  lemma PlacesDiffer(shared: map<string, seq<CNetHandler?>>, queueing: set<CNetHandler>, curNum: map<string, nat>,
      size: nat, k: string, i: nat)
    requires SharedTable(shared, queueing, curNum, size) && k in shared && i < |shared[k]| && shared[k][i] != null
    ensures forall j :: 0 <= j < |shared[k]| && j != i ==> shared[k][j] != shared[k][i]
  {
  }

  lemma FreeHome(free: map<string, set<CNetHandler>>, idle: set<CNetHandler>)
    requires FreeTable(free, idle)
    ensures forall h :: h in idle ==> h.key in free && h in free[h.key]
    ensures forall k, h :: k in free && h in free[k] ==> h.key == k && h in idle
  {
  }

  lemma FreeMember(free: map<string, set<CNetHandler>>, idle: set<CNetHandler>, k: string, h: CNetHandler)
    requires FreeTable(free, idle) && k in free && h in free[k]
    ensures h in idle
  {
  }

  lemma FreeKeyGone(free: map<string, set<CNetHandler>>, idle: set<CNetHandler>, k: string)
    requires FreeTable(free, idle) && k in free && free[k] == {}
    ensures FreeTable(free - {k}, idle)
  {
  }

  lemma SharedKeys(shared: map<string, seq<CNetHandler?>>, queueing: set<CNetHandler>, curNum: map<string, nat>,
      size: nat)
    requires SharedTable(shared, queueing, curNum, size)
    ensures shared.Keys == curNum.Keys
    ensures forall k :: k in shared ==> |shared[k]| == size
    ensures forall k, i :: k in shared && 0 <= i < |shared[k]| && shared[k][i] != null ==> shared[k][i] in queueing
  {
  }

  lemma SharedKeyGone(shared: map<string, seq<CNetHandler?>>, queueing: set<CNetHandler>, curNum: map<string, nat>,
                      size: nat, k: string)
    requires SharedTable(shared, queueing, curNum, size) && k in curNum && curNum[k] == 0
    ensures SharedTable(shared - {k}, queueing, curNum - {k}, size)
  {
    CountZero(shared[k]);
  }

  lemma {:induction false} CountNone(places: seq<CNetHandler?>)
    requires forall i :: 0 <= i < |places| ==> places[i] == null
    ensures Count(places) == 0
  {
    if places != [] {
      CountNone(places[1..]);
    }
  }

  /** Filling an empty place loses nobody. */
  lemma KeepsOthers(places: seq<CNetHandler?>, i: nat, h: CNetHandler)
    requires i < |places| && places[i] == null
    ensures h in places[i := h]
    ensures forall g: CNetHandler :: g in places ==> g in places[i := h]
  {
    assert places[i := h][i] == h;
    forall g: CNetHandler | g in places
      ensures g in places[i := h]
    {
      var j :| 0 <= j < |places| && places[j] == g;
      assert places[i := h][j] == g;
    }
  }

  lemma Places(shared: map<string, seq<CNetHandler?>>, queueing: set<CNetHandler>, curNum: map<string, nat>, size: nat,
               key: string)
    requires SharedTable(shared, queueing, curNum, size)
    ensures key in shared ==> |shared[key]| == size && key in curNum
    ensures forall i :: key in shared && 0 <= i < |shared[key]| && shared[key][i] != null ==>
              shared[key][i] in queueing && shared[key][i].key == key
  {
  }

  datatype Move =
    | Start(key: string, connType: ConnType, isTcp: bool, a: Action, w: World)
    | StartQueueing(key: string, isTcp: bool, choice: nat, a: Action, w: World)
    | Report(e: Event)
    | Sweep

  /** The action a move brings. */
  function ActionOf(m: Move): Option<Action>
  {
    match m
    case Start(_, connType, _, a, _) => if connType == LongWithPending then None else Some(a)
    case StartQueueing(_, _, _, a, _) => Some(a)
    case _ => None
  }

  /** A handler has taken on the action of a move. */
  ghost predicate TookOn(h: CNetHandler?, m: Move)
    reads h
  {
    ActionOf(m).Some? ==> h != null && ActionOf(m).value in h.accepted
  }

  /** Any run of requests, socket events, timers and sweeps: the tables stay right, a handler that is lent is waited
      for, one that is not lent and not shared has no work, the action of every request is taken on by the handler
      used for it, none is forgotten, and exactly the handlers that have left were destroyed, having told all their
      actions. */
  method Serve(m: CNetMgr, moves: seq<Move>) returns (ghost gone: set<CNetHandler>, used: seq<CNetHandler?>)
    requires m.Valid() && m.Busy()
    modifies m, m.All()
    ensures m.Valid() && m.Busy() && m.OnlyNew() && gone !! m.All()
    ensures forall h :: h in old(m.All()) ==> h in m.All() + gone && old(h.accepted) <= h.accepted
    ensures forall h :: h in gone ==> m.Retired(h)
    ensures |used| == |moves| && forall k :: 0 <= k < |moves| ==> TookOn(used[k], moves[k])
  {
    hide CNetHandler.Good, FreeTable, SharedTable, More;
    gone, used := {}, [];
    for i := 0 to |moves|
      invariant m.Valid() && m.Busy() && m.OnlyNew() && gone !! m.All() && |used| == i
      invariant forall h :: h in gone ==> m.Retired(h)
      invariant forall h :: h in gone ==> h in old(m.All()) || fresh(h)
      invariant forall h :: h in old(m.All()) ==> h in m.All() + gone && old(h.accepted) <= h.accepted
      invariant forall k :: 0 <= k < i ==> TookOn(used[k], moves[k]) && (used[k] != null ==> used[k] in m.All() + gone)
    {
      var h: CNetHandler?, more := Handle(m, moves[i]);
      gone, used := gone + more, used + [h];
    }
  }

  /** One move. */
  method Handle(m: CNetMgr, move: Move) returns (h: CNetHandler?, ghost more: set<CNetHandler>)
    requires m.Valid() && m.Busy()
    modifies m, m.All()
    ensures m.Valid() && m.Busy() && m.OnlyNew() && more <= old(m.All()) && more !! m.All()
    ensures forall g :: g in old(m.All()) ==> g in m.All() + more && old(g.accepted) <= g.accepted
    ensures forall g :: g in more ==> m.Retired(g)
    ensures TookOn(h, move) && (h != null ==> h in m.All())
    ensures move.Report? && h != null ==>
              && h in old(m.All())
              && ((move.e.Hangup? || move.e.TimerFires?) && old(h.action).Somebody? ==> h.Told(old(h.action).ai))
              && Reacts(old(h.Now()), move.e, h.isTcp, h.Now())
    ensures h != null && (move.Start? || move.StartQueueing?) ==> h.key == move.key
    ensures h != null && move.Start? && fresh(h) ==> forall g :: g in old(m.idle) ==> g.key != move.key
    ensures h != null && (move.Start? || move.StartQueueing?) && h in old(m.All()) ==>
              Submits(old(h.Now()), move.a, move.w, h.isTcp, h.connType, h.Now())
    ensures move.Sweep? ==> more == old(set g | g in m.idle + m.queueing && g.CanRecycle())
  {
    hide CNetHandler.Good, FreeTable, SharedTable, More, Reacts, Submits;
    h, more := null, {};
    match move {
      case Start(key, connType, isTcp, a, w) =>
        if connType != LongWithPending {
          h := m.Start(key, connType, isTcp, a, w);
        }
      case StartQueueing(key, isTcp, choice, a, w) =>
        h := m.StartQueueing(key, isTcp, choice % m.maxPending, a, w);
      case Report(e) =>
        h := m.Pick();
        if h != null {
          m.Report(h, e);
        }
      case Sweep =>
        more := m.CheckIdleHandler();
    }
  }
}
