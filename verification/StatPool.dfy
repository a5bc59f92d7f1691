/** CTStat: statistics objects found by name through hash chains, or by index. */
module StatPool {

  import opened IndexChain
  import opened Seqs
  import opened StatHash
  import opened StatTable
  import opened StatStep

  const ERR_STAT_EXIST := -2000

  /** What an initialisation comes to; a full pool ends the process. */
  datatype Outcome = Done(code: int) | Exited

  /** The object table of a new pool: every object linked to the next. */
  method LinkedUp() returns (objs: seq<StatObj>)
    ensures |objs| == DEFAULT_STATOBJ_NUM
    ensures forall i :: 0 <= i < |objs| ==> objs[i].next == if i + 1 < |objs| then i + 1 else INVALID_HANDLE
    ensures forall i :: 0 <= i < |objs| ==> objs[i].count == 0
  {
    objs := seq(DEFAULT_STATOBJ_NUM, _ => StatObj([], 0, 0, 0, 0, 0));
    var i := 0;
    while i < DEFAULT_STATOBJ_NUM - 1
      invariant 0 <= i <= DEFAULT_STATOBJ_NUM - 1 && |objs| == DEFAULT_STATOBJ_NUM
      invariant forall j :: 0 <= j < i ==> objs[j].next == j + 1
      invariant forall j :: 0 <= j < |objs| ==> objs[j].count == 0
    {
      objs := objs[i := objs[i].(next := i + 1)];
      i := i + 1;
    }
    objs := objs[DEFAULT_STATOBJ_NUM - 1 := objs[DEFAULT_STATOBJ_NUM - 1].(next := INVALID_HANDLE)];
  }

  function Fill(n: nat, x: int): (r: seq<int>)
    ensures |r| == n && forall i :: 0 <= i < n ==> r[i] == x
  {
    seq(n, _ => x)
  }

  function Upto(n: nat): (r: seq<nat>)
    ensures |r| == n && forall i :: 0 <= i < n ==> r[i] == i
  {
    seq(n, i => i)
  }

  function NoChains(n: nat): (r: seq<seq<nat>>)
    ensures |r| == n && forall b :: 0 <= b < n ==> r[b] == []
  {
    seq(n, _ => [])
  }

  class CTStat {

    var objs: seq<StatObj>
    var bucket: seq<int>
    var vals: seq<int>
    var statindex: seq<int>
    var freelist: int
    var objsUsed: int
    var valsUsed: int
    ghost var free: seq<nat>
    ghost var chains: seq<seq<nat>>
    ghost var place: seq<int>

    ghost function Now(): Table
      reads this
    {
      Table(objs, bucket, freelist, objsUsed, valsUsed, free, chains, place)
    }

    ghost predicate Valid()
      reads this
    {
      && Pool(Now())
      && |vals| == DEFAULT_STATVAL_NUM && |statindex| == DEFAULT_STATOBJ_NUM
      && Indices(statindex, place)
    }

    /** newpool. */
    constructor ()
      ensures Valid() && Tidy(objs, chains) && objsUsed == 0 && valsUsed == 0 && chains == NoChains(BUCKET_NUM)
      ensures (forall c :: 0 <= c < |vals| ==> vals[c] == 0) && forall o :: 0 <= o < |objs| ==> objs[o].count == 0
    {
      hide Pool, Tidy, Indices, Fill, Upto, NoChains;
      var blank := LinkedUp();
      objs := blank;
      bucket := Fill(BUCKET_NUM, INVALID_HANDLE);
      vals := Fill(DEFAULT_STATVAL_NUM, 0);
      statindex := Fill(DEFAULT_STATOBJ_NUM, INVALID_HANDLE);
      freelist, objsUsed, valsUsed := 0, 0, 0;
      free := Upto(DEFAULT_STATOBJ_NUM);
      chains := NoChains(BUCKET_NUM);
      place := Fill(DEFAULT_STATOBJ_NUM, -1);
      new;
      NewPool(objs, bucket, free, chains, place);
      NewTidy(objs, chains);
      NewIndices(statindex, place);
    }

    /** find_statobj: the first object with this id in the chain of its bucket. The branch for a damaged pool, where
        an object links to itself, is never taken. */
    method FindStatObj(id: Id) returns (choice: int)
      requires Valid()
      ensures |chains| == BUCKET_NUM && forall k :: 0 <= k < |chains[HashId(id)]| ==> chains[HashId(id)][k] < |objs|
      ensures var found := From(objs, chains[HashId(id)], id);
              choice == if found == [] then INVALID_HANDLE else found[0]
    {
      hide Pool, HashId, Linked, From, Indices;
      var b := HashOf(id);
      InTable(Now(), b);
      ghost var table, chain := objs, chains[b];
      HeadIs(Links(table), bucket[b], chain);
      choice := bucket[b];
      ghost var k: nat := 0;
      assert chain[0..] == chain;
      while choice != INVALID_HANDLE
        invariant k <= |chain| && choice == (if k < |chain| then chain[k] else -1)
        invariant From(table, chain, id) == From(table, chain[k..], id)
        decreases |chain| - k
      {
        ChainAt(Links(table), bucket[b], chain, k);
        FromAt(table, chain, k, id);
        if objs[choice].id == id {
          return;
        }
        if objs[choice].next == choice {
          assert false;
        }
        choice := objs[choice].next;
        k := k + 1;
      }
      FromNothing(table, id);
      assert chain[k..] == [];
    }

    /** alloc_statobj, past its check of the space left. */
    method AllocStatObj(size: int) returns (choice: nat)
      requires 0 <= freelist < |objs|
      modifies this`freelist, this`objsUsed, this`valsUsed, this`objs
      ensures choice == old(freelist) && freelist == old(objs[freelist].next)
      ensures objsUsed == old(objsUsed) + 1 && valsUsed == old(valsUsed) + size
      ensures objs == old(objs)[choice := old(objs[freelist]).(valSize := size, valOffset := old(valsUsed))]
    {
      choice := freelist;
      objs := objs[choice := objs[choice].(valSize := size, valOffset := valsUsed)];
      freelist := objs[choice].next;
      objsUsed := objsUsed + 1;
      valsUsed := valsUsed + size;
    }

    method InsertStatObj(choice: nat)
      requires choice < |objs| && |bucket| == BUCKET_NUM
      modifies this`objs, this`bucket
      ensures var b := HashId(old(objs[choice].id));
              && objs == old(objs)[choice := old(objs[choice]).(next := old(bucket[b]))]
              && bucket == old(bucket)[b := choice]
    {
      hide HashId;
      var b := HashOf(objs[choice].id);
      objs := objs[choice := objs[choice].(next := bucket[b])];
      bucket := bucket[b := choice];
    }

    /** alloc_statobj, OBJ_INIT and insert_statobj on the fields and arrays. */
    method PutObject(id: Id, policy: nat, size: int) returns (choice: nat)
      requires 0 <= freelist < |objs| && |bucket| == BUCKET_NUM
      modifies this`freelist, this`objsUsed, this`valsUsed, this`objs, this`bucket
      ensures choice == old(freelist) && freelist == old(objs[freelist].next)
      ensures objsUsed == old(objsUsed) + 1 && valsUsed == old(valsUsed) + size
      ensures objs == old(objs)[choice :=
                Entered(old(objs), old(bucket), old(freelist), old(valsUsed), id, policy, size)]
      ensures bucket == old(bucket)[HashId(Stored(id)) := choice]
    {
      hide HashId, Stored;
      choice := AllocStatObj(size);
      objs := objs[choice := objs[choice].(id := Stored(id), policy := policy, next := INVALID_HANDLE)];
      InsertStatObj(choice);
    }

    /** One object of an id enters the pool. */
    method Enter(id: Id, policy: nat, size: int) returns (choice: nat)
      requires Valid() && size >= 1 && objsUsed < DEFAULT_STATOBJ_NUM && valsUsed + size <= DEFAULT_STATVAL_NUM
      modifies this`freelist, this`objsUsed, this`valsUsed, this`free, this`chains, this`place, this`objs, this`bucket
      ensures Valid() && choice < |objs| == |old(place)| && old(place)[choice] == -1
      ensures objsUsed == old(objsUsed) + 1 && valsUsed == old(valsUsed) + size
      ensures objs == old(objs)[choice := objs[choice]]
      ensures objs[choice].id == Stored(id) && objs[choice].policy == policy && objs[choice].valSize == size
      ensures objs[choice].count == old(objs)[choice].count
      ensures |old(chains)| == BUCKET_NUM
      ensures chains == old(chains)[HashId(Stored(id)) := [choice] + old(chains)[HashId(Stored(id))]]
      ensures place == old(place)[choice := HashId(Stored(id))]
    {
      hide Pool, HashId, Indices, Stored;
      EnteredPool(Now(), id, policy, size);
      choice := PutObject(id, policy, size);
      ghost var b := HashId(Stored(id));
      free := free[1..];
      chains := chains[b := [choice] + chains[b]];
      IndicesKept(statindex, place, choice, b);
      place := place[choice := b];
    }

    /** Enter, seen from where the objects of the id began to enter. */
    method EnterMore(id: Id, policy: nat, size: int, ghost t0: Table,
                     ghost added: seq<nat>, ghost policies: seq<nat>) returns (choice: nat)
      requires Valid() && size >= 1 && objsUsed < DEFAULT_STATOBJ_NUM && valsUsed + size <= DEFAULT_STATVAL_NUM
      requires Grown(t0, Now(), Stored(id), added) && Typed(objs, added, policies, size)
      modifies this`freelist, this`objsUsed, this`valsUsed, this`free, this`chains, this`place, this`objs, this`bucket
      ensures Valid() && objsUsed == old(objsUsed) + 1 && valsUsed == old(valsUsed) + size
      ensures Grown(t0, Now(), Stored(id), [choice] + added)
      ensures Typed(objs, [choice] + added, [policy] + policies, size) && SameCounts(old(objs), objs)
      ensures Fresh(old(objs), old(chains), Stored(id)) ==> Fresh(objs, chains, Stored(id))
    {
      hide Pool, HashId, Indices, Stored, Fresh, Grown, Typed;
      GrownSizes(t0, Now(), Stored(id), added);
      Unchained(Now());
      ghost var t1 := Now();
      choice := Enter(id, policy, size);
      GrownMore(t0, t1, Now(), Stored(id), added, choice, objs[choice]);
      TypedMore(t0, t1, Stored(id), added, policies, size, choice, objs[choice]);
      if Fresh(t1.objs, t1.chains, Stored(id)) {
        FreshEntered(t1.objs, t1.chains, choice, objs[choice]);
      }
    }

    /** The loop of init_statobj over the policies: one object per policy asked for, as long as there is room. */
    method EnterAll(id: Id, types: set<nat>, size: int) returns (r: Outcome, last: int, ghost added: seq<nat>)
      requires Valid()
      modifies this`freelist, this`objsUsed, this`valsUsed, this`free, this`chains, this`place, this`objs, this`bucket
      ensures Valid()
      ensures Grown(old(Now()), Now(), Stored(id), added)
      ensures r == if Room(old(objsUsed), old(valsUsed), |Chosen(types, STAT_TYPE_NUM)|, size) then Done(0) else Exited
      ensures r == Done(0) ==> Typed(objs, added, Chosen(types, STAT_TYPE_NUM), size)
      ensures SameCounts(old(objs), objs)
      ensures objsUsed == old(objsUsed) + |added| && valsUsed == old(valsUsed) + |added| * size
      ensures last == if added == [] then INVALID_HANDLE else added[0]
      ensures Fresh(old(objs), old(chains), Stored(id)) ==> Fresh(objs, chains, Stored(id))
    {
      hide Pool, HashId, Indices, Stored, Fresh, Grown, Typed, Chosen;
      PoolSizes(Now());
      GrownNothing(Now(), Stored(id));
      last, added := INVALID_HANDLE, [];
      ChosenNext(types, 0);
      TypedNone(objs, size);
      ghost var fresh0 := Fresh(objs, chains, Stored(id));
      for i := 0 to STAT_TYPE_NUM
        invariant Valid() && Typed(objs, added, Chosen(types, i), size)
                  && last == (if added == [] then INVALID_HANDLE else added[0])
        invariant Grown(old(Now()), Now(), Stored(id), added) && SameCounts(old(objs), objs)
        invariant fresh0 ==> Fresh(objs, chains, Stored(id))
        invariant objsUsed == old(objsUsed) + |added| && valsUsed == old(valsUsed) + |added| * size
        invariant Room(old(objsUsed), old(valsUsed), |added|, size)
      {
        ChosenNext(types, i);
        TypedSize(objs, added, Chosen(types, i), size);
        RoomNext(old(objsUsed), old(valsUsed), |added|, size);
        if i in types {
          if size < 1 || objsUsed >= DEFAULT_STATOBJ_NUM || valsUsed >= DEFAULT_STATVAL_NUM - size {
            ChosenGrows(types, i + 1, STAT_TYPE_NUM);
            RoomLess(old(objsUsed), old(valsUsed), |added| + 1, |Chosen(types, STAT_TYPE_NUM)|, size);
            return Exited, last, added;
          }
          var choice := EnterMore(id, i, size, old(Now()), added, Chosen(types, i));
          last, added := choice, [choice] + added;
        }
      }
      TypedSize(objs, added, Chosen(types, STAT_TYPE_NUM), size);
      r := Done(0);
    }

    /** init_statobj: an id that is there already is left alone; otherwise one object per policy asked for enters.
        Contiguous chains stay so exactly when nothing enters or the id as it is stored is new to its bucket or in front
        of it, which it is if it was shorter than 64. `found` is what the search found, `last` what entered last. */
    method InitStatObj(id: Id, types: set<nat>, size: int)
      returns (r: Outcome, found: int, last: int, ghost added: seq<nat>)
      requires Valid()
      modifies this`freelist, this`objsUsed, this`valsUsed, this`free, this`chains, this`place, this`objs, this`bucket
      ensures Valid()
      ensures Grown(old(Now()), Now(), Stored(id), added)
      ensures r == if Present(old(objs), old(chains), id) then Done(ERR_STAT_EXIST)
                   else if Room(old(objsUsed), old(valsUsed), |Chosen(types, STAT_TYPE_NUM)|, size) then Done(0)
                     else Exited
      ensures r == Done(ERR_STAT_EXIST) <==> found != INVALID_HANDLE
      ensures found != INVALID_HANDLE ==>
                added == [] && 0 <= found < |objs| && place[found] != -1 && Names(old(objs), old(chains), id, found)
      ensures last == if added == [] then INVALID_HANDLE else added[0]
      ensures r == Done(0) ==> Typed(objs, added, Chosen(types, STAT_TYPE_NUM), size)
      ensures SameCounts(old(objs), objs)
      ensures objsUsed == old(objsUsed) + |added| && valsUsed == old(valsUsed) + |added| * size
      ensures Tidy(old(objs), old(chains)) ==>
                (Tidy(objs, chains) <==> added == [] || Fresh(old(objs), old(chains), Stored(id)))
      ensures Tidy(old(objs), old(chains)) && |id| < STAT_ID_MAX_LEN ==> Tidy(objs, chains)
    {
      hide Pool, HashId, Indices, Fresh, Grown, Typed, Chosen, From, Same, Tidy, Present, Room;
      PoolSizes(Now());
      found := FindStatObj(id);
      FoundIsPresent(Now(), id);
      FirstSame(objs, chains[HashId(id)], id);
      if found != INVALID_HANDLE {
        GrownNothing(Now(), Stored(id));
        return Done(ERR_STAT_EXIST), found, INVALID_HANDLE, [];
      }
      if Tidy(objs, chains) {
        NotFoundIsFresh(Now(), id);
        FreshOrBehind(Now(), Stored(id));
      }
      r, last, added := EnterAll(id, types, size);
      FreshIsTidy(objs, chains, Stored(id));
      if Tidy(old(objs), old(chains)) && added != [] && !Fresh(old(objs), old(chains), Stored(id)) {
        GrownUntidy(old(Now()), Now(), Stored(id), added);
      }
      if added == [] {
        GrownEmpty(old(Now()), Now(), Stored(id));
      }
    }

    /** init_statobj_frame: the index then names an object of the id. */
    method InitStatObjFrame(id: Id, types: set<nat>, index: int, size: int) returns (r: Outcome, ghost added: seq<nat>)
      requires Valid()
      modifies this
      ensures Valid()
      ensures Grown(old(Now()), Now(), Stored(id), added)
      ensures r == if Present(old(objs), old(chains), id) then Done(ERR_STAT_EXIST)
                   else if Room(old(objsUsed), old(valsUsed), |Chosen(types, STAT_TYPE_NUM)|, size) then Done(0)
                     else Exited
      ensures r == Done(ERR_STAT_EXIST) ==> added == []
      ensures r == Done(0) ==> Typed(objs, added, Chosen(types, STAT_TYPE_NUM), size)
      ensures Tidy(old(objs), old(chains)) && |id| < STAT_ID_MAX_LEN ==> Tidy(objs, chains)
      ensures 0 <= index < |statindex| && r == Done(ERR_STAT_EXIST) ==>
                0 <= statindex[index] && Names(old(objs), old(chains), id, statindex[index])
      ensures 0 <= index < |statindex| && added != [] ==> statindex[index] == added[0]
      ensures vals == old(vals) && SameCounts(old(objs), objs) && |statindex| == |old(statindex)|
      ensures objsUsed == old(objsUsed) + |added| && valsUsed == old(valsUsed) + |added| * size
      ensures forall i :: 0 <= i < |statindex| && i != index ==> statindex[i] == old(statindex)[i]
    {
      hide Pool, HashId, Indices, Grown, Typed, Chosen, Tidy, Present, Stored, Room, Names, Fresh;
      var found, last;
      r, found, last, added := InitStatObj(id, types, size);
      GrownSizes(old(Now()), Now(), Stored(id), added);
      if added != [] {
        GrownFirst(old(Now()), Now(), Stored(id), added);
      }
      var o := if found != INVALID_HANDLE then found else last;
      if o != INVALID_HANDLE && 0 <= index < |statindex| {
        IndicesSet(statindex, place, index, o);
        statindex := statindex[index := o];
      }
    }

    /** step0: the objects visited are stepped once each, and nothing else changes; on contiguous chains they are all
        the objects of the id. `inside` says that every value stepped is in the array; the source does not check it,
        and the model stops at the first that is not. */
    method Step0(id: Id, val: int, idx: int) returns (inside: bool)
      requires Valid()
      modifies this`objs, this`vals
      ensures Valid() && |chains| == BUCKET_NUM
      ensures forall k :: 0 <= k < |chains[HashId(id)]| ==> chains[HashId(id)][k] < |old(objs)|
      ensures inside <==> Reaches(Stats(old(objs), old(vals)), chains[HashId(id)], id, idx)
      ensures var s0, os := Stats(old(objs), old(vals)), Visited(old(objs), chains[HashId(id)], id);
              Stepped(s0, Stats(objs, vals), if inside then os else Inside(s0, os, idx), val, idx)
      ensures SameButCounts(old(objs), objs) && (Tidy(old(objs), chains) ==> Tidy(objs, chains))
      ensures Tidy(old(objs), chains) && inside ==>
                SteppedId(Stats(old(objs), old(vals)), Stats(objs, vals), chains, id, val, idx)
    {
      hide Pool, HashId, Indices, Tidy, From, Run, SameButCounts, SteppedId, Reaches, Inside, Fit;
      ghost var s0 := Stats(objs, vals);
      inside := StepLoop(id, val, idx);
      ghost var os := Visited(s0.objs, chains[HashId(id)], id);
      ReachesAll(s0, chains[HashId(id)], id, idx);
      AlikeAll(s0, Inside(s0, os, idx), val, idx);
      CountsKeepPool(old(Now()), objs);
      if Tidy(s0.objs, chains) && inside {
        SteppedAll(s0, Stats(objs, vals), chains, id, val, idx);
      }
    }

    method StepLoop(id: Id, val: int, idx: int) returns (inside: bool)
      requires Valid()
      modifies this`objs, this`vals
      ensures |chains| == BUCKET_NUM
      ensures forall k :: 0 <= k < |chains[HashId(id)]| ==> chains[HashId(id)][k] < |old(objs)|
      ensures var s0, os := Stats(old(objs), old(vals)), Visited(old(objs), chains[HashId(id)], id);
              && Stepped(s0, Stats(objs, vals), Inside(s0, os, idx), val, idx)
              && (inside <==> |Inside(s0, os, idx)| == |os|)
    {
      hide Pool, HashId, Indices, Tidy, From, Visited, StepAt, Leading, Inside;
      var choice := FindStatObj(id);
      ghost var s0 := Stats(objs, vals);
      StepStart(s0, chains[HashId(id)], id, val, idx);
      ghost var first := From(objs, chains[HashId(id)], id);
      ghost var os := Visited(objs, chains[HashId(id)], id);
      inside := StepFrom(choice, id, val, idx, s0, first, os, HashId(id));
      StepAtEnd(s0, Stats(objs, vals), Inside(s0, os, idx), val, idx);
    }

    /** The loop of step0 from where the search stopped, up to the first object with another id. */
    method StepFrom(start: int, id: Id, val: int, idx: int,
                    ghost s0: Stats, ghost first: seq<nat>, ghost os: seq<nat>, ghost b: nat) returns (inside: bool)
      requires Valid() && s0 == Stats(objs, vals) && b < |chains|
      requires |first| <= |chains[b]| && first == chains[b][|chains[b]| - |first|..]
      requires Leading(s0.objs, first, os, id) && start == if first == [] then INVALID_HANDLE else first[0]
      requires StepAt(s0, s0, Inside(s0, os, idx), 0, val, idx)
      modifies this`objs, this`vals
      ensures StepAt(s0, Stats(objs, vals), Inside(s0, os, idx), |Inside(s0, os, idx)|, val, idx)
      ensures inside <==> |Inside(s0, os, idx)| == |os|
    {
      hide Pool, Indices, StepAt, Leading, Inside, Fit;
      ghost var n := |Inside(s0, os, idx)|;
      InsideMeans(s0, os, idx);
      inside := true;
      var choice := start;
      ghost var k: nat := 0;
      while choice != INVALID_HANDLE
        invariant inside && k <= n && k <= |first| && choice == (if k < |first| then first[k] else INVALID_HANDLE)
        invariant StepAt(s0, Stats(objs, vals), Inside(s0, os, idx), k, val, idx)
        decreases n - k, if choice == INVALID_HANDLE then 0 else 1
      {
        NextOf(Now().(objs := s0.objs), b, first, k);
        var again;
        again, choice, inside := StepTurn(choice, id, val, idx, s0, first, os, k);
        if !again {
          return;
        }
        k := k + 1;
      }
      LeadingAt(s0.objs, first, os, id, k);
    }

    /** One turn of the loop of step0, at the k-th object from where the search stopped. */
    method StepTurn(choice: nat, id: Id, val: int, idx: int,
                    ghost s0: Stats, ghost first: seq<nat>, ghost os: seq<nat>, ghost k: nat)
      returns (again: bool, next: int, inside: bool)
      requires Leading(s0.objs, first, os, id) && k <= |Inside(s0, os, idx)| && Inside(s0, os, idx) <= os
      requires k < |first| && choice == first[k] < |s0.objs| && s0.objs[choice].next == After(first, k)
      requires StepAt(s0, Stats(objs, vals), Inside(s0, os, idx), k, val, idx)
      modifies this`objs, this`vals
      ensures again <==> k < |Inside(s0, os, idx)|
      ensures inside <==> again || k == |os|
      ensures if again
              then next == After(first, k) && StepAt(s0, Stats(objs, vals), Inside(s0, os, idx), k + 1, val, idx)
              else next == choice && objs == old(objs) && vals == old(vals)
    {
      hide StepAt, Leading, SameButCounts, Apply, Inside;
      LeadingAt(s0.objs, first, os, id, k);
      AlikeAt(s0, Stats(objs, vals), Inside(s0, os, idx), k, val, idx, choice);
      if objs[choice].id != id {
        return false, choice, true;
      }
      StillInside(s0, Stats(objs, vals), os, k, val, idx);
      if !(0 <= Cell(objs[choice], idx) < |vals|) {
        return false, choice, false;
      }
      StepAtNext(s0, Stats(objs, vals), Inside(s0, os, idx), k, val, idx);
      again, inside := true, true;
      next := StepObject(choice, val, idx);
    }

    /** One object by its policy; the result is the object after it. */
    method StepObject(choice: nat, val: int, idx: int) returns (next: int)
      requires Fit(Stats(objs, vals), choice, idx)
      modifies this`objs, this`vals
      ensures Stats(objs, vals) == Apply(Stats(old(objs), old(vals)), choice, val, idx)
      ensures next == old(objs)[choice].next
    {
      var o := objs[choice];
      vals := vals[Cell(o, idx) := NewValue(o.policy, vals[Cell(o, idx)], val)];
      objs := objs[choice := Counted(o, idx)];
      next := o.next;
    }

    /** op: the object an index names is stepped, if its value is `inside` the array; an index that names none is
        ignored. */
    method Op(index: int, val: int, idx: int) returns (inside: bool)
      requires Valid()
      modifies this`objs, this`vals
      ensures Valid() && SameButCounts(old(objs), objs)
      ensures 0 <= index < |statindex| ==> statindex[index] == INVALID_HANDLE || 0 <= statindex[index] < |objs|
      ensures inside <==> 0 <= index < |statindex| && statindex[index] != INVALID_HANDLE ==>
                            Fit(Stats(old(objs), old(vals)), statindex[index], idx)
      ensures if 0 <= index < |statindex| && statindex[index] != INVALID_HANDLE && inside
              then Stats(objs, vals) == Apply(Stats(old(objs), old(vals)), statindex[index], val, idx)
              else objs == old(objs) && vals == old(vals)
    {
      hide Pool;
      PoolSizes(Now());
      inside := true;
      if 0 <= index < |statindex| && statindex[index] != INVALID_HANDLE {
        inside := 0 <= Cell(objs[statindex[index]], idx) < |vals|;
        if inside {
          var _ := StepObject(statindex[index], val, idx);
          CountsKeepPool(old(Now()), objs);
        }
      }
    }
  }

  /** Nothing has been counted. */
  ghost predicate SameCounts(objs: seq<StatObj>, objs': seq<StatObj>)
  {
    |objs'| == |objs| && forall i :: 0 <= i < |objs| ==> objs'[i].count == objs[i].count
  }

  /** An index that is set names a chained object. */
  ghost predicate Indices(statindex: seq<int>, place: seq<int>)
  {
    forall i :: 0 <= i < |statindex| && statindex[i] != INVALID_HANDLE ==>
      0 <= statindex[i] < |place| && place[statindex[i]] != -1
  }

  lemma IndicesKept(statindex: seq<int>, place: seq<int>, o: nat, b: nat)
    requires Indices(statindex, place) && o < |place|
    ensures Indices(statindex, place[o := b])
  {
  }

  lemma NewIndices(statindex: seq<int>, place: seq<int>)
    requires forall i :: 0 <= i < |statindex| ==> statindex[i] == INVALID_HANDLE
    ensures Indices(statindex, place)
  {
  }

  /** Those of the first n policies that are asked for, the last one first. */
  function Chosen(types: set<nat>, n: nat): seq<nat>
  {
    if n == 0 then [] else (if n - 1 in types then [n - 1] else []) + Chosen(types, n - 1)
  }

  lemma ChosenNext(types: set<nat>, n: nat)
    ensures Chosen(types, 0) == []
    ensures Chosen(types, n + 1) == if n in types then [n] + Chosen(types, n) else Chosen(types, n)
  {
  }

  lemma TypedNone(objs: seq<StatObj>, size: int)
    ensures Typed(objs, [], [], size)
  {
  }

  lemma IndicesSet(statindex: seq<int>, place: seq<int>, index: nat, o: nat)
    requires Indices(statindex, place) && index < |statindex| && o < |place| && place[o] != -1
    ensures Indices(statindex[index := o], place)
  {
  }

  /** n objects of this size find room. */
  ghost predicate Room(objsUsed: int, valsUsed: int, n: nat, size: int)
  {
    n == 0 || (size >= 1 && objsUsed + n <= DEFAULT_STATOBJ_NUM && valsUsed + n * size < DEFAULT_STATVAL_NUM)
  }

  lemma RoomNext(objsUsed: int, valsUsed: int, n: nat, size: int)
    ensures (n + 1) * size == n * size + size
    ensures Room(objsUsed, valsUsed, n + 1, size) <==>
              size >= 1 && objsUsed + n < DEFAULT_STATOBJ_NUM && valsUsed + n * size < DEFAULT_STATVAL_NUM - size
  {
  }

  lemma RoomLess(objsUsed: int, valsUsed: int, n: nat, m: nat, size: int)
    requires 1 <= n <= m && !Room(objsUsed, valsUsed, n, size)
    ensures !Room(objsUsed, valsUsed, m, size)
  {
    if size >= 1 {
      assert m * size == n * size + (m - n) * size;
    }
  }

  lemma {:induction false} ChosenGrows(types: set<nat>, n: nat, m: nat)
    requires n <= m
    ensures |Chosen(types, n)| <= |Chosen(types, m)|
    decreases m
  {
    if n < m {
      ChosenGrows(types, n, m - 1);
      ChosenNext(types, m - 1);
    }
  }

  lemma TypedSize(objs: seq<StatObj>, added: seq<nat>, policies: seq<nat>, size: int)
    requires Typed(objs, added, policies, size)
    ensures |added| == |policies|
  {
  }

  /** The first object with this id in its bucket. */
  ghost predicate Names(objs: seq<StatObj>, chains: seq<seq<nat>>, id: Id, o: nat)
  {
    && |chains| == BUCKET_NUM && (forall k :: 0 <= k < |chains[HashId(id)]| ==> chains[HashId(id)][k] < |objs|)
    && Same(objs, chains[HashId(id)], id) != [] && Same(objs, chains[HashId(id)], id)[0] == o
  }

  lemma GrownEmpty(t: Table, t': Table, id: Id)
    requires Grown(t, t', id, [])
    ensures t'.objs == t.objs && t'.chains == t.chains && t'.place == t.place
  {
    assert [] + t.chains[HashId(id)] == t.chains[HashId(id)];
    assert forall i: nat :: i < |t.objs| ==> t'.objs[i] == t.objs[i] && t'.place[i] == t.place[i];
  }
}
