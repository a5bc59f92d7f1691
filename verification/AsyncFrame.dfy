/** CAsyncFrame and CActionSet: a message goes through states, each of which starts a set of actions and is
    processed when the last of them has finished. Plugin return values are arbitrary, and any started action
    may finish while another is being started. */
module AsyncFrame {

  import opened AsyncStory
  import opened Seqs

  /** CActionSet. `begun` of its `size` actions have been started; `open` are those not finished yet. */
  datatype ActionSet = ActionSet(msg: nat, size: nat, begun: nat, open: set<nat>, finishedCount: nat, state: int)
  {
    predicate Active()
    {
      finishedCount < size
    }

    ghost predicate Sound()
    {
      && |open| + finishedCount == begun <= size
      && forall a :: a in open ==> a < begun
    }
  }

  /** What has happened so far. `live`: admitted messages not yet finalised; `finals`: for each admitted message
      how often it was finalised; `runs`: for each action set how often its state's HandleProcess was called;
      `owner`: the action set each waiting message is in; `log`: what the plugin was asked and what was done. */
  datatype Ledger = Ledger(live: set<nat>, finals: seq<nat>, runs: seq<nat>, owner: map<nat, nat>, log: seq<Deed>)

  /** Each admitted message is live or has been finalised once. */
  ghost predicate Messages(count: int, live: set<nat>, finals: seq<nat>)
  {
    && count == |live|
    && (forall m :: m in live ==> m < |finals|)
    && (forall m :: 0 <= m < |finals| ==> finals[m] == if m in live then 0 else 1)
  }

  /** Each live message that nobody holds waits in exactly one active action set. */
  ghost predicate Owners(sets: map<nat, ActionSet>, live: set<nat>, owner: map<nat, nat>, held: set<nat>)
  {
    && held <= live && owner.Keys == live - held
    && (forall m :: m in owner ==> owner[m] in sets && sets[owner[m]].Active() && sets[owner[m]].msg == m)
    && (forall s :: s in sets && sets[s].Active() ==> sets[s].msg in owner && owner[sets[s].msg] == s)
  }

  /** Each action set is active, or complete and in hand, or was processed once; of the processed ones only
      the latest is still there. */
  ghost predicate Runs(sets: map<nat, ActionSet>, needDelete: Option<nat>, runs: seq<nat>, ready: set<nat>)
  {
    && (forall s :: s in sets ==> s < |runs| && sets[s].Sound())
    && (forall s :: s in sets && !sets[s].Active() ==> s in ready || needDelete == Some(s))
    && (needDelete.Some? ==> needDelete.value in sets && !sets[needDelete.value].Active() && needDelete.value !in ready)
    && (forall s :: s in ready ==> s in sets && !sets[s].Active())
    && (forall s :: 0 <= s < |runs| ==> runs[s] == if (s in sets && sets[s].Active()) || s in ready then 0 else 1)
  }

  /** `held`: messages being moved along further up the stack; `ready`: action sets complete but not processed yet. */
  ghost predicate Good(count: int, sets: map<nat, ActionSet>, needDelete: Option<nat>, l: Ledger, held: set<nat>,
      ready: set<nat>)
  {
    && Messages(count, l.live, l.finals)
    && Owners(sets, l.live, l.owner, held)
    && Runs(sets, needDelete, l.runs, ready)
  }

  function Admitted(l: Ledger): Ledger
  {
    l.(live := l.live + {|l.finals|}, finals := l.finals + [0])
  }

  lemma Admit(count: int, sets: map<nat, ActionSet>, nd: Option<nat>, l: Ledger, held: set<nat>, ready: set<nat>)
    requires Good(count, sets, nd, l, held, ready)
    ensures Good(count + 1, sets, nd, Admitted(l), held + {|l.finals|}, ready)
  {
    hide Runs;
    assert l.live + {|l.finals|} - (held + {|l.finals|}) == l.live - held;
  }

  lemma Finalise(count: int, sets: map<nat, ActionSet>, nd: Option<nat>, l: Ledger, held: set<nat>, ready: set<nat>,
      m: nat)
    requires Good(count, sets, nd, l, held + {m}, ready) && m !in held
    ensures m < |l.finals|
    ensures Good(count - 1, sets, nd, l.(live := l.live - {m}, finals := l.finals[m := l.finals[m] + 1]), held, ready)
  {
    hide Runs, Messages, Owners;
    OwnersLess(sets, l.live, l.owner, held, m);
    MessagesLess(count, l.live, l.finals, m);
  }

  lemma OwnersLess(sets: map<nat, ActionSet>, live: set<nat>, owner: map<nat, nat>, held: set<nat>, m: nat)
    requires Owners(sets, live, owner, held + {m}) && m !in held
    ensures m in live && Owners(sets, live - {m}, owner, held)
  {
    assert m in live;
    assert live - {m} - held == live - (held + {m});
  }

  lemma MessagesLess(count: int, live: set<nat>, finals: seq<nat>, m: nat)
    requires Messages(count, live, finals) && m in live
    ensures m < |finals| && Messages(count - 1, live - {m}, finals[m := finals[m] + 1])
  {
  }

  /** A state with actions: the message now waits in the new set. */
  lemma Register(count: int, sets: map<nat, ActionSet>, nd: Option<nat>, l: Ledger, held: set<nat>, ready: set<nat>,
      m: nat, size: nat, state: int)
    requires Good(count, sets, nd, l, held + {m}, ready) && m !in held && size > 0
    ensures |l.runs| !in sets
    ensures var s := |l.runs|;
            Good(count, sets[s := ActionSet(m, size, 0, {}, 0, state)], nd,
                 l.(runs := l.runs + [0], owner := l.owner[m := s]), held, ready)
  {
    hide Messages, Owners, Runs;
    RunsMore(sets, nd, l.runs, ready, ActionSet(m, size, 0, {}, 0, state));
    OwnersMore(sets, l.live, l.owner, held, m, |l.runs|, size, state);
  }

  lemma RunsMore(sets: map<nat, ActionSet>, nd: Option<nat>, runs: seq<nat>, ready: set<nat>, t: ActionSet)
    requires Runs(sets, nd, runs, ready) && t.Sound() && t.Active()
    ensures |runs| !in sets && Runs(sets[|runs| := t], nd, runs + [0], ready)
  {
  }

  lemma OwnersMore(sets: map<nat, ActionSet>, live: set<nat>, owner: map<nat, nat>, held: set<nat>, m: nat, s: nat,
      size: nat, state: int)
    requires Owners(sets, live, owner, held + {m}) && m !in held && s !in sets && size > 0
    ensures Owners(sets[s := ActionSet(m, size, 0, {}, 0, state)], live, owner[m := s], held)
  {
    assert m in live && m !in owner;
    assert owner.Keys + {m} == live - held;
  }

  /** A state without actions: complete as it stands. */
  lemma RegisterEmpty(count: int, sets: map<nat, ActionSet>, nd: Option<nat>, l: Ledger, held: set<nat>, m: nat,
      state: int)
    requires Good(count, sets, nd, l, held, {})
    ensures |l.runs| !in sets
    ensures var s := |l.runs|;
            Good(count, sets[s := ActionSet(m, 0, 0, {}, 0, state)], nd, l.(runs := l.runs + [0]), held, {s})
  {
    hide Messages;
  }

  lemma Begin(count: int, sets: map<nat, ActionSet>, nd: Option<nat>, l: Ledger, held: set<nat>, s: nat)
    requires Good(count, sets, nd, l, held, {}) && s in sets && sets[s].begun < sets[s].size
    ensures var t := sets[s];
            Good(count, sets[s := t.(begun := t.begun + 1, open := t.open + {t.begun})], nd, l, held, {})
  {
    hide Messages, Owners, Runs;
    var t := sets[s];
    RunsSound(sets, nd, l.runs, {}, s);
    RunsSame(sets, nd, l.runs, s, t.(begun := t.begun + 1, open := t.open + {t.begun}));
    OwnersSame(sets, l.live, l.owner, held, s, t.(begun := t.begun + 1, open := t.open + {t.begun}));
  }

  lemma RunsSound(sets: map<nat, ActionSet>, nd: Option<nat>, runs: seq<nat>, ready: set<nat>, s: nat)
    requires Runs(sets, nd, runs, ready) && s in sets
    ensures sets[s].Sound()
  {
  }

  /** A set makes progress but stays active. */
  lemma RunsSame(sets: map<nat, ActionSet>, nd: Option<nat>, runs: seq<nat>, s: nat, t: ActionSet)
    requires Runs(sets, nd, runs, {}) && s in sets && sets[s].Active() && t.Active()
    requires sets[s].Sound() ==> t.Sound()
    ensures Runs(sets[s := t], nd, runs, {})
  {
  }

  lemma OwnersSame(sets: map<nat, ActionSet>, live: set<nat>, owner: map<nat, nat>, held: set<nat>, s: nat,
      t: ActionSet)
    requires Owners(sets, live, owner, held) && s in sets && sets[s].Active() && t.Active() && t.msg == sets[s].msg
    ensures Owners(sets[s := t], live, owner, held)
  {
  }

  lemma FinishOne(count: int, sets: map<nat, ActionSet>, nd: Option<nat>, l: Ledger, held: set<nat>, s: nat, a: nat)
    requires Good(count, sets, nd, l, held, {}) && s in sets && a in sets[s].open
    requires sets[s].finishedCount + 1 < sets[s].size
    ensures var t := sets[s];
            Good(count, sets[s := t.(open := t.open - {a}, finishedCount := t.finishedCount + 1)], nd, l, held, {})
  {
    hide Messages, Owners, Runs;
    var t := sets[s];
    RunsSame(sets, nd, l.runs, s, t.(open := t.open - {a}, finishedCount := t.finishedCount + 1));
    OwnersSame(sets, l.live, l.owner, held, s, t.(open := t.open - {a}, finishedCount := t.finishedCount + 1));
  }

  /** The last action of a set: the message is taken in hand again. */
  lemma FinishLast(count: int, sets: map<nat, ActionSet>, nd: Option<nat>, l: Ledger, held: set<nat>, s: nat, a: nat)
    requires Good(count, sets, nd, l, held, {}) && s in sets && a in sets[s].open
    requires sets[s].finishedCount + 1 == sets[s].size
    ensures var t := sets[s];
            && t.msg !in held
            && Good(count, sets[s := t.(open := t.open - {a}, finishedCount := t.finishedCount + 1)], nd,
                    l.(owner := l.owner - {t.msg}), held + {t.msg}, {s})
  {
    hide Messages, Owners, Runs;
    var t := sets[s];
    var t' := t.(open := t.open - {a}, finishedCount := t.finishedCount + 1);
    RunsReady(sets, nd, l.runs, s, t');
    OwnersReady(sets, l.live, l.owner, held, s, t');
  }

  /** A set becomes complete. */
  lemma RunsReady(sets: map<nat, ActionSet>, nd: Option<nat>, runs: seq<nat>, s: nat, t: ActionSet)
    requires Runs(sets, nd, runs, {}) && s in sets && sets[s].Active() && !t.Active()
    requires sets[s].Sound() ==> t.Sound()
    ensures Runs(sets[s := t], nd, runs, {s})
  {
  }

  lemma OwnersReady(sets: map<nat, ActionSet>, live: set<nat>, owner: map<nat, nat>, held: set<nat>, s: nat,
      t: ActionSet)
    requires Owners(sets, live, owner, held) && s in sets && sets[s].Active() && !t.Active()
    ensures sets[s].msg !in held && Owners(sets[s := t], live, owner - {sets[s].msg}, held + {sets[s].msg})
  {
    var m := sets[s].msg;
    assert m in owner;
    assert owner.Keys - {m} == live - (held + {m});
  }

  /** The set is processed and waits to be deleted; the one that waited before is deleted. */
  lemma Processed(count: int, sets: map<nat, ActionSet>, nd: Option<nat>, l: Ledger, held: set<nat>, s: nat)
    requires Good(count, sets, nd, l, held, {s})
    ensures s < |l.runs| && s in sets && !sets[s].Active()
    ensures nd.Some? ==> nd.value in sets && sets[nd.value].begun == sets[nd.value].size
    ensures Good(count, if nd.Some? then sets - {nd.value} else sets, Some(s),
                 l.(runs := l.runs[s := l.runs[s] + 1]), held, {})
  {
    hide Messages;
  }

  /** How a set goes while its last action is being started: that action finishes at once, the set is processed, and the
      next state, which has no actions, is processed too and takes its place as the one to be deleted. */
  lemma Overtaken(count: int, sets: map<nat, ActionSet>, nd: Option<nat>, l: Ledger, held: set<nat>, s: nat,
      state: int)
    returns (sets': map<nat, ActionSet>, l': Ledger)
    requires Good(count, sets, nd, l, held, {}) && s in sets
    requires sets[s].begun + 1 == sets[s].size == sets[s].finishedCount + 1
    ensures Good(count, sets', Some(|l.runs|), l', held + {sets[s].msg}, {})
    ensures s < |l'.runs| && l'.runs[s] == 1 && s !in sets'
  {
    hide Good;
    var t := sets[s];
    OpenNone(count, sets, nd, l, held, s);
    Begin(count, sets, nd, l, held, s);
    var begun := sets[s := t.(begun := t.begun + 1, open := t.open + {t.begun})];
    FinishLast(count, begun, nd, l, held, s, t.begun);
    var done := begun[s := begun[s].(open := begun[s].open - {t.begun}, finishedCount := t.finishedCount + 1)];
    var taken := l.(owner := l.owner - {t.msg});
    Processed(count, done, nd, taken, held + {t.msg}, s);
    var left := if nd.Some? then done - {nd.value} else done;
    var once := taken.(runs := taken.runs[s := taken.runs[s] + 1]);
    RegisterEmpty(count, left, Some(s), once, held + {t.msg}, t.msg, state);
    var next := |l.runs|;
    var more := once.(runs := once.runs + [0]);
    Processed(count, left[next := ActionSet(t.msg, 0, 0, {}, 0, state)], Some(s), more, held + {t.msg}, next);
    sets' := left[next := ActionSet(t.msg, 0, 0, {}, 0, state)] - {s};
    l' := more.(runs := more.runs[next := more.runs[next] + 1]);
    Numbers(count, sets', Some(next), l', held + {t.msg}, {});
  }

  lemma OpenNone(count: int, sets: map<nat, ActionSet>, nd: Option<nat>, l: Ledger, held: set<nat>, s: nat)
    requires Good(count, sets, nd, l, held, {}) && s in sets && sets[s].begun == sets[s].finishedCount < sets[s].size
    ensures sets[s].open == {} && s < |l.runs|
  {
    assert sets[s].Sound();
  }

  /** Nothing in the ledger is taken back. */
  ghost predicate Grows(l: Ledger, l': Ledger)
  {
    && |l.finals| <= |l'.finals| && (forall m :: 0 <= m < |l.finals| ==> l.finals[m] <= l'.finals[m])
    && |l.runs| <= |l'.runs| && (forall s :: 0 <= s < |l.runs| ==> l.runs[s] <= l'.runs[s])
  }

  lemma GrowsAtOnce(l: Ledger)
    ensures Grows(l, l)
  {
  }

  lemma GrowsAdmitted(l: Ledger)
    ensures Grows(l, Admitted(l))
  {
  }

  lemma GrowsRegistered(l: Ledger, l': Ledger)
    requires l'.finals == l.finals && l'.runs == l.runs + [0]
    ensures Grows(l, l')
  {
  }

  lemma GrowsRun(l: Ledger, l': Ledger, s: nat)
    requires s < |l.runs| && l'.finals == l.finals && l'.runs == l.runs[s := l.runs[s] + 1]
    ensures Grows(l, l')
  {
  }

  lemma GrowsSame(l: Ledger, l': Ledger)
    requires l'.finals == l.finals && l'.runs == l.runs
    ensures Grows(l, l')
  {
  }

  lemma GrowsTwice(a: Ledger, b: Ledger, c: Ledger)
    requires Grows(a, b) && Grows(b, c)
    ensures Grows(a, c)
  {
  }

  /** Sets whose actions have not all been started stay, in a set that stays no action is started and none that has
      finished is open again, and what joins is new, with a number from `next` on. */
  ghost predicate Untouched(before: map<nat, ActionSet>, after: map<nat, ActionSet>, next: nat)
  {
    && (forall s :: s in before && before[s].begun < before[s].size ==> s in after)
    && (forall s :: s in after ==>
          if s in before then
            && after[s].begun == before[s].begun && after[s].size == before[s].size
            && after[s].open <= before[s].open && before[s].finishedCount <= after[s].finishedCount
          else s >= next)
  }

  lemma UntouchedTwice(a: map<nat, ActionSet>, b: map<nat, ActionSet>, c: map<nat, ActionSet>, n: nat, m: nat)
    requires Untouched(a, b, n) && Untouched(b, c, m) && n <= m && forall s :: s in a ==> s < n
    ensures Untouched(a, c, n)
  {
  }

  lemma UntouchedAtFirst(before: map<nat, ActionSet>, after: map<nat, ActionSet>, nd: Option<nat>, next: nat)
    requires after == if nd.Some? then before - {nd.value} else before
    requires nd.Some? ==> nd.value in before && before[nd.value].begun == before[nd.value].size
    ensures Untouched(before, after, next)
  {
  }

  lemma UntouchedBut(before: map<nat, ActionSet>, after: map<nat, ActionSet>, next: nat)
    requires Untouched(before, after - {next}, next + 1) && next !in before
    ensures Untouched(before, after, next)
  {
  }

  lemma UntouchedNew(before: map<nat, ActionSet>, t: ActionSet, after: map<nat, ActionSet>, next: nat)
    requires Untouched(before[next := t], after, next + 1) && next !in before
    ensures Untouched(before, after, next)
  {
  }

  lemma UntouchedBeside(before: map<nat, ActionSet>, after: map<nat, ActionSet>, next: nat, s: nat)
    requires Untouched(before, after, next) && s in before
    ensures Untouched(before - {s}, after - {s}, next)
    ensures before[s].begun < before[s].size ==> s in after
    ensures s in after ==>
              && after[s].begun == before[s].begun && after[s].size == before[s].size
              && after[s].open <= before[s].open && before[s].finishedCount <= after[s].finishedCount
  {
  }

  lemma UntouchedFinished(before: map<nat, ActionSet>, after: map<nat, ActionSet>, s: nat, a: nat, next: nat)
    requires s in before
    requires after ==
             before[s := before[s].(open := before[s].open - {a}, finishedCount := before[s].finishedCount + 1)]
    ensures Untouched(before, after, next)
  {
  }

  lemma Numbers(count: int, sets: map<nat, ActionSet>, nd: Option<nat>, l: Ledger, held: set<nat>, ready: set<nat>)
    requires Good(count, sets, nd, l, held, ready)
    ensures forall s :: s in sets ==> s < |l.runs|
    ensures forall s :: 0 <= s < |l.runs| && s !in sets && s !in ready ==> l.runs[s] == 1 && nd != Some(s)
    ensures forall s :: s in sets && l.runs[s] == 1 ==> nd == Some(s)
    ensures forall s :: s in sets && s !in ready && sets[s].begun < sets[s].size ==> l.runs[s] == 0
    ensures forall s :: s in sets && s !in ready && !sets[s].Active() ==> l.runs[s] == 1
  {
    hide Messages, Owners;
    forall s | s in sets && sets[s].begun < sets[s].size
      ensures sets[s].Active()
    {
      assert sets[s].Sound();
    }
  }

  /** A set that was complete has been processed, whatever has happened since. */
  lemma RunOnce(count: int, sets: map<nat, ActionSet>, nd: Option<nat>, l: Ledger, held: set<nat>, s: nat,
                before: map<nat, ActionSet>, next: nat)
    requires Good(count, sets, nd, l, held, {}) && Untouched(before, sets, next)
    requires s in before && !before[s].Active() && s < |l.runs|
    ensures l.runs[s] == 1
  {
    hide Messages, Owners;
    Numbers(count, sets, nd, l, held, {});
  }

  // ---- the stories of the messages ----

  /** A waiting message waits in the set of the state it was encoded with, one that is finalised has ended, and
      nothing is told of one not admitted. */
  ghost predicate Staged(r: Rules, sets: map<nat, ActionSet>, l: Ledger)
  {
    && (forall m :: m in l.owner ==>
          && l.owner[m] in sets
          && PhaseOf(r, l.log, m) == Waiting(sets[l.owner[m]].state, sets[l.owner[m]].size))
    && (forall m :: 0 <= m < |l.finals| && m !in l.live ==> PhaseOf(r, l.log, m) == Gone)
    && (forall m: nat :: m >= |l.finals| ==> PhaseOf(r, l.log, m) == Unborn)
  }

  lemma StagedAdmit(r: Rules, sets: map<nat, ActionSet>, l: Ledger)
    requires Staged(r, sets, l)
    ensures Staged(r, sets, Admitted(l)) && PhaseOf(r, l.log, |l.finals|) == Unborn
  {
  }

  /** A deed about a message in hand. */
  lemma StagedDeed(r: Rules, sets: map<nat, ActionSet>, l: Ledger, d: Deed)
    requires Staged(r, sets, l) && d.msg in l.live && d.msg !in l.owner && d.msg < |l.finals|
    ensures Staged(r, sets, l.(log := l.log + [d]))
    ensures PhaseOf(r, l.log + [d], d.msg) == After(r, PhaseOf(r, l.log, d.msg), d)
  {
    hide PhaseOf, After;
    forall m: nat
      ensures m != d.msg ==> PhaseOf(r, l.log + [d], m) == PhaseOf(r, l.log, m)
      ensures m == d.msg ==> PhaseOf(r, l.log + [d], m) == After(r, PhaseOf(r, l.log, m), d)
    {
      PhaseMore(r, l.log, d, m);
    }
  }

  lemma StagedFinal(r: Rules, sets: map<nat, ActionSet>, l: Ledger, m: nat)
    requires Staged(r, sets, l) && m < |l.finals| && m !in l.owner && PhaseOf(r, l.log, m) == Gone
    ensures Staged(r, sets, l.(live := l.live - {m}, finals := l.finals[m := l.finals[m] + 1]))
  {
    hide PhaseOf;
  }

  /** A new set, for a message in hand or for nobody. */
  lemma StagedNew(r: Rules, sets: map<nat, ActionSet>, l: Ledger, s: nat, t: ActionSet)
    requires Staged(r, sets, l) && s !in sets
    ensures Staged(r, sets[s := t], l.(runs := l.runs + [0]))
    ensures PhaseOf(r, l.log, t.msg) == Waiting(t.state, t.size) ==>
              Staged(r, sets[s := t], l.(runs := l.runs + [0], owner := l.owner[t.msg := s]))
  {
    hide PhaseOf;
  }

  /** A set makes progress, and its message may be taken in hand. */
  lemma StagedProgress(r: Rules, sets: map<nat, ActionSet>, l: Ledger, s: nat, t: ActionSet, l': Ledger)
    requires Staged(r, sets, l) && s in sets && t.state == sets[s].state && t.size == sets[s].size
    requires l' == l || exists m :: l' == l.(owner := l.owner - {m})
    ensures Staged(r, sets[s := t], l')
  {
    hide PhaseOf;
  }

  lemma StagedProcessed(r: Rules, count: int, sets: map<nat, ActionSet>, nd: Option<nat>, l: Ledger, held: set<nat>,
                        s: nat)
    requires Good(count, sets, nd, l, held, {s}) && Staged(r, sets, l) && s < |l.runs|
    ensures Staged(r, if nd.Some? then sets - {nd.value} else sets, l.(runs := l.runs[s := l.runs[s] + 1]))
  {
    hide PhaseOf, Messages;
  }

  /** The phase of a message whose set is complete. */
  lemma StagedLast(r: Rules, count: int, sets: map<nat, ActionSet>, nd: Option<nat>, l: Ledger, held: set<nat>, s: nat)
    requires Good(count, sets, nd, l, held, {}) && Staged(r, sets, l) && s in sets && sets[s].Active()
    ensures sets[s].msg in l.owner && PhaseOf(r, l.log, sets[s].msg) == Waiting(sets[s].state, sets[s].size)
  {
    hide PhaseOf, Messages, Runs;
  }

  lemma InHand(count: int, sets: map<nat, ActionSet>, nd: Option<nat>, l: Ledger, held: set<nat>, ready: set<nat>,
      m: nat)
    requires Good(count, sets, nd, l, held + {m}, ready)
    ensures m in l.live && m !in l.owner && m < |l.finals|
  {
    hide Runs;
  }

  lemma GoodLogged(count: int, sets: map<nat, ActionSet>, nd: Option<nat>, l: Ledger, held: set<nat>, ready: set<nat>,
                   log: seq<Deed>)
    requires Good(count, sets, nd, l, held, ready)
    ensures Good(count, sets, nd, l.(log := log), held, ready)
  {
    hide Messages, Owners, Runs;
  }

  lemma FinalOnce(count: int, sets: map<nat, ActionSet>, nd: Option<nat>, l: Ledger, held: set<nat>, m: nat)
    requires Good(count, sets, nd, l, held + {m}, {})
    ensures m < |l.finals| && l.finals[m] == 0
    ensures Grows(l, l.(live := l.live - {m}, finals := l.finals[m := l.finals[m] + 1]))
  {
    hide Runs;
    assert m in l.live;
  }

  /** What a call does to the ledger and the answers left: nothing is taken back, messages in hand are left alone, and
      the history goes on with the answers given. */
  ghost predicate Moves(r: Rules, l: Ledger, tape: seq<int>, l': Ledger, tape': seq<int>, held: set<nat>)
  {
    Grows(l, l') && Spared(r, l.log, l'.log, held) && Speaks(r, l.log, tape, l'.log, tape')
  }

  lemma MovesSilent(r: Rules, l: Ledger, l': Ledger, tape: seq<int>, held: set<nat>)
    requires Grows(l, l') && l'.log == l.log
    ensures Moves(r, l, tape, l', tape, held)
  {
    hide Grows, Speaks;
    SpeaksAtOnce(r, l.log, tape);
  }

  lemma MovesAtOnce(r: Rules, l: Ledger, tape: seq<int>, held: set<nat>)
    ensures Moves(r, l, tape, l, tape, held)
  {
    GrowsAtOnce(l);
    MovesSilent(r, l, l, tape, held);
  }

  lemma MovesTwice(r: Rules, a: Ledger, t: seq<int>, b: Ledger, t1: seq<int>, c: Ledger, t2: seq<int>, held: set<nat>)
    requires Moves(r, a, t, b, t1, held) && Moves(r, b, t1, c, t2, held)
    ensures Moves(r, a, t, c, t2, held) && |t2| <= |t1| <= |t|
  {
    hide Grows, Speaks, PhaseOf;
    GrowsTwice(a, b, c);
    SpeaksTwice(r, a.log, t, b.log, t1, c.log, t2);
    SpeaksShrinks(r, a.log, t, b.log, t1);
    SpeaksShrinks(r, b.log, t1, c.log, t2);
  }

  lemma MovesShrinks(r: Rules, l: Ledger, tape: seq<int>, l': Ledger, tape': seq<int>, held: set<nat>)
    requires Moves(r, l, tape, l', tape', held)
    ensures |tape'| <= |tape| && Grows(l, l')
    ensures forall h :: h in held ==> PhaseOf(r, l'.log, h) == PhaseOf(r, l.log, h)
  {
    hide Grows, PhaseOf;
  }

  lemma MovesDeed(r: Rules, l: Ledger, tape: seq<int>, d: Deed, held: set<nat>)
    requires d.msg !in held && Rests(r, d) == Given(tape, |Rests(r, d)|)
    ensures Moves(r, l, tape, l.(log := l.log + [d]), Past(tape, |Rests(r, d)|), held)
  {
    hide Speaks, Spared;
    GrowsSame(l, l.(log := l.log + [d]));
    SpeaksOne(r, l.log, tape, d);
    SparedOne(r, l.log, d, held);
  }

  class CAsyncFrame {
    const overloadLimit: int
    const rules: Rules
    var requestCount: int
    var sets: map<nat, ActionSet>
    var needDelete: Option<nat>
    var nextSet: nat
    var nextMsg: nat

    /** What the plugin, and the clock when a set is started, answer to the questions to come. */
    var tape: seq<int>

    ghost var ledger: Ledger

    ghost predicate Fine(held: set<nat>, ready: set<nat>)
      reads this
    {
      && Good(requestCount, sets, needDelete, ledger, held, ready) && Staged(rules, sets, ledger)
      && nextSet == |ledger.runs| && nextMsg == |ledger.finals|
      && (overloadLimit > 0 ==> requestCount <= overloadLimit)
    }

    ghost predicate Valid()
      reads this
    {
      Fine({}, {})
    }

    ghost function Phase(m: nat): Phase
      reads this
    {
      PhaseOf(rules, ledger.log, m)
    }

    ghost function Now(): Snap
      reads this
    {
      Snap(requestCount, sets, nextSet, ledger)
    }

    constructor (overloadLimit: int, states: set<int>, hasInit: bool)
      ensures Valid() && requestCount == 0
    {
      this.overloadLimit := if overloadLimit < 0 then 0 else overloadLimit;
      rules := Rules(states, hasInit);
      requestCount, sets, needDelete, nextSet, nextMsg, tape := 0, map[], None, 0, 0, [];
      ledger := Ledger({}, [], [], map[], []);
    }

    /** The next answer. */
    method Ask() returns (v: int)
      modifies this`tape
      ensures [v] == Given(old(tape), 1) && tape == Past(old(tape), 1)
      ensures v != 0 ==> |tape| < |old(tape)|
    {
      v := if tape == [] then 0 else tape[0];
      tape := if tape == [] then [] else tape[1..];
    }

    /** A deed about a message in hand is entered in the history, with the answers it rests on. */
    ghost method Note(d: Deed, held: set<nat>, ready: set<nat>, before: seq<int>)
      requires Fine(held + {d.msg}, ready) && d.msg !in held
      requires Rests(rules, d) == Given(before, |Rests(rules, d)|) && tape == Past(before, |Rests(rules, d)|)
      modifies this`ledger
      ensures Fine(held + {d.msg}, ready) && ledger == old(ledger).(log := old(ledger.log) + [d])
      ensures Phase(d.msg) == After(rules, old(Phase(d.msg)), d)
      ensures Moves(rules, old(ledger), before, ledger, tape, held)
    {
      hide Good, Staged, Moves, PhaseOf, After;
      InHand(requestCount, sets, needDelete, ledger, held, ready, d.msg);
      StagedDeed(rules, sets, ledger, d);
      MovesDeed(rules, ledger, before, d, held);
      GoodLogged(requestCount, sets, needDelete, ledger, held + {d.msg}, ready, ledger.log + [d]);
      ledger := ledger.(log := ledger.log + [d]);
    }

    /** The Fini callback if there is one, the message recycled, the count decremented. */
    method FinishMsg(m: nat, ghost held: set<nat>)
      requires Fine(held + {m}, {}) && m !in held && Phase(m) == Ending
      modifies this`requestCount, this`ledger
      ensures Fine(held, {}) && m !in ledger.live && m < |ledger.finals| && ledger.finals[m] == 1
      ensures Moves(rules, old(ledger), tape, ledger, tape, held)
    {
      hide Good, Staged, Grows, Moves, PhaseOf;
      Note(Ends(m), held, {}, tape);
      ghost var noted := ledger;
      Finalise(requestCount, sets, needDelete, ledger, held, {}, m);
      InHand(requestCount, sets, needDelete, ledger, held, {}, m);
      StagedFinal(rules, sets, ledger, m);
      FinalOnce(requestCount, sets, needDelete, ledger, held, m);
      requestCount := requestCount - 1;
      ledger := ledger.(live := ledger.live - {m}, finals := ledger.finals[m := ledger.finals[m] + 1]);
      MovesSilent(rules, noted, ledger, tape, held);
      MovesTwice(rules, old(ledger), tape, noted, tape, ledger, tape, held);
    }

    /** Turns a message away when the limit is reached; otherwise admits it and starts its first state. */
    method Process() returns (admitted: bool)
      requires Valid()
      modifies this
      ensures Valid() && Untouched(old(sets), sets, old(nextSet)) && old(nextSet) <= nextSet
      ensures admitted <==> overloadLimit <= 0 || old(requestCount) < overloadLimit
      ensures |ledger.finals| == |old(ledger).finals| + if admitted then 1 else 0
      ensures Moves(rules, old(ledger), old(tape), ledger, tape, {})
      ensures !admitted ==> unchanged(this)
    {
      hide Good, Staged, Untouched, Grows, Moves, PhaseOf;
      MovesAtOnce(rules, ledger, tape, {});
      UntouchedAtFirst(sets, sets, None, nextSet);
      if overloadLimit > 0 && requestCount >= overloadLimit {
        return false;
      }
      var m := nextMsg;
      Admit(requestCount, sets, needDelete, ledger, {}, {});
      StagedAdmit(rules, sets, ledger);
      GrowsAdmitted(ledger);
      MovesSilent(rules, ledger, Admitted(ledger), tape, {});
      requestCount := requestCount + 1;
      nextMsg := nextMsg + 1;
      ledger := ledger.(live := ledger.live + {m}, finals := ledger.finals + [0]);
      ghost var entered := ledger;
      var stateId := 1;
      if rules.hasInit {
        stateId := Ask();
      }
      assert old(tape) == Past(old(tape), 0);
      Note(Starts(m, stateId), {}, {}, old(tape));
      MovesTwice(rules, old(ledger), old(tape), entered, old(tape), ledger, tape, {});
      if rules.hasInit && stateId <= 0 {
        FinishNow(m, {}, old(ledger), old(tape));
        return true;
      }
      GoOn(stateId, m, {}, old(ledger), old(tape));
      return true;
    }

    /** FinishMsg, seen from an earlier moment. */
    method FinishNow(m: nat, ghost held: set<nat>, ghost l0: Ledger, ghost tape0: seq<int>)
      requires Fine(held + {m}, {}) && m !in held && Phase(m) == Ending && Moves(rules, l0, tape0, ledger, tape, held)
      modifies this`requestCount, this`ledger
      ensures Fine(held, {}) && Moves(rules, l0, tape0, ledger, tape, held)
    {
      hide Good, Staged, Moves, PhaseOf;
      ghost var before := ledger;
      FinishMsg(m, held);
      MovesTwice(rules, l0, tape0, before, tape, ledger, tape, held);
    }

    /** Starts a state. On failure the message is still in hand. */
    method HandleEncode(id: int, m: nat, ghost held: set<nat>) returns (ret: int)
      requires Fine(held + {m}, {}) && m !in held && Phase(m) == Going(id)
      modifies this
      ensures ret == 0 ==> Fine(held, {})
      ensures ret != 0 ==> Fine(held + {m}, {}) && Phase(m) == Ending && sets == old(sets) && nextSet == old(nextSet)
      ensures ret == -1 <==> id !in rules.states
      ensures ret == 0 ==> old(nextSet) < nextSet
      ensures Untouched(old(sets), sets, old(nextSet)) && old(nextSet) <= nextSet
      ensures Moves(rules, old(ledger), old(tape), ledger, tape, held) && nextMsg == old(nextMsg)
      decreases |tape|, 7
    {
      hide Good, Staged, Untouched, Grows, Moves, PhaseOf;
      UntouchedAtFirst(sets, sets, None, nextSet);
      ghost var t0 := tape;
      GivenTwice(t0, 0, 0);
      if id !in rules.states {
        Note(Misses(m, id), held, {}, t0);
        return -1;
      }
      var encodeRet := Ask();
      if encodeRet != 0 {
        Note(Encodes(m, id, encodeRet, 0, 0), held, {}, t0);
        return -2;
      }
      var actions := Ask();
      GivenTwice(t0, 1, 1);
      var size := Size(actions);
      var late := 0;
      if size > 0 {
        late := Ask();
        GivenTwice(t0, 2, 1);
      }
      Note(Encodes(m, id, 0, actions, late), held, {}, t0);
      MovesShrinks(rules, old(ledger), t0, ledger, tape, held);
      Enter(id, m, size, late != 0, held, old(ledger), t0);
      return 0;
    }

    /** The encoded state has its set registered, and its actions started, or is processed at once if it has none. */
    method Enter(id: int, m: nat, size: nat, late: bool, ghost held: set<nat>, ghost l0: Ledger, ghost tape0: seq<int>)
      requires Fine(held + {m}, {}) && m !in held && Phase(m) == Waiting(id, size)
      requires Moves(rules, l0, tape0, ledger, tape, held)
      modifies this
      ensures Fine(held, {}) && old(nextSet) < nextSet && Untouched(old(sets), sets, old(nextSet))
      ensures Moves(rules, l0, tape0, ledger, tape, held) && nextMsg == old(nextMsg)
      ensures old(nextSet) < |ledger.runs| && (size == 0 || late ==> ledger.runs[old(nextSet)] == 1)
      decreases |tape|, 6
    {
      hide Good, Staged, Untouched, Grows, Moves, PhaseOf;
      var s := nextSet;
      var t := ActionSet(m, size, 0, {}, 0, id);
      Numbers(requestCount, sets, needDelete, ledger, held + {m}, {});
      StagedNew(rules, sets, ledger, s, t);
      nextSet := nextSet + 1;
      ghost var l1, t1 := ledger, tape;
      if size > 0 {
        Register(requestCount, sets, needDelete, ledger, held, {}, m, size, id);
        sets := sets[s := t];
        ledger := ledger.(runs := ledger.runs + [0], owner := ledger.owner[m := s]);
        ghost var entered := ledger;
        GrowsRegistered(l1, entered);
        MovesSilent(rules, l1, entered, tape, held);
        var _, _ := StartAction(s, late, held);
        assert old(sets)[s := t] - {s} == old(sets);
        UntouchedBut(old(sets), sets, old(nextSet));
        MovesTwice(rules, l1, t1, entered, t1, ledger, tape, held);
      } else {
        RegisterEmpty(requestCount, sets, needDelete, ledger, held + {m}, m, id);
        sets := sets[s := t];
        ledger := ledger.(runs := ledger.runs + [0]);
        ghost var entered := ledger;
        GrowsRegistered(l1, entered);
        MovesSilent(rules, l1, entered, tape, held);
        HandleProcess(s, m, held);
        MovesTwice(rules, l1, t1, entered, t1, ledger, tape, held);
        UntouchedNew(old(sets), t, sets, old(nextSet));
      }
      MovesTwice(rules, l0, tape0, l1, t1, ledger, tape, held);
    }

    /** The message goes to the state asked for, or is finalised if that fails. */
    method GoOn(id: int, m: nat, ghost held: set<nat>, ghost l0: Ledger, ghost tape0: seq<int>)
      requires Fine(held + {m}, {}) && m !in held && Phase(m) == Going(id)
      requires Moves(rules, l0, tape0, ledger, tape, held)
      modifies this
      ensures Fine(held, {}) && Untouched(old(sets), sets, old(nextSet)) && old(nextSet) <= nextSet
      ensures Moves(rules, l0, tape0, ledger, tape, held) && nextMsg == old(nextMsg)
      decreases |tape|, 8
    {
      hide Good, Staged, Untouched, Grows, Moves, PhaseOf;
      ghost var before, t1 := ledger, tape;
      var ret := HandleEncode(id, m, held);
      MovesTwice(rules, l0, tape0, before, t1, ledger, tape, held);
      if ret != 0 {
        FinishNow(m, held, l0, tape0);
      }
    }

    /** The set that was processed before is deleted, and this one is to be next. */
    method Recycle(s: nat, m: nat, ghost held: set<nat>, ghost l0: Ledger, ghost tape0: seq<int>)
      requires Fine(held + {m}, {s}) && Moves(rules, l0, tape0, ledger, tape, held)
      modifies this`sets, this`needDelete, this`ledger
      ensures Fine(held + {m}, {}) && Untouched(old(sets), sets, nextSet) && forall x :: x in old(sets) ==> x < nextSet
      ensures s < |ledger.runs| && s in old(sets) && !old(sets)[s].Active()
      ensures ledger.log == old(ledger.log) && Moves(rules, l0, tape0, ledger, tape, held)
    {
      hide Good, Staged, Untouched, Grows, Moves, PhaseOf;
      ghost var noted := ledger;
      Processed(requestCount, sets, needDelete, ledger, held + {m}, s);
      StagedProcessed(rules, requestCount, sets, needDelete, ledger, held + {m}, s);
      Numbers(requestCount, sets, needDelete, ledger, held + {m}, {s});
      ledger := ledger.(runs := ledger.runs[s := ledger.runs[s] + 1]);
      if needDelete.Some? {
        sets := sets - {needDelete.value};
      }
      UntouchedAtFirst(old(sets), sets, needDelete, nextSet);
      needDelete := Some(s);
      GrowsRun(noted, ledger, s);
      MovesSilent(rules, noted, ledger, tape, held);
      MovesTwice(rules, l0, tape0, noted, tape, ledger, tape, held);
    }

    /** A completed set is processed; the message goes to its next state or is finalised. */
    method HandleProcess(s: nat, m: nat, ghost held: set<nat>)
      requires Fine(held + {m}, {s}) && m !in held && s in sets && Phase(m) == Waiting(sets[s].state, sets[s].size)
      modifies this
      ensures Fine(held, {}) && Untouched(old(sets), sets, old(nextSet)) && old(nextSet) <= nextSet
      ensures s < |ledger.runs| && ledger.runs[s] == 1
      ensures Moves(rules, old(ledger), old(tape), ledger, tape, held) && nextMsg == old(nextMsg)
      decreases |tape|, 1
    {
      hide Good, Staged, Untouched, Grows, Moves, PhaseOf;
      var nextState := Ask();
      Note(Replies(m, sets[s].state, nextState), held, {s}, old(tape));
      Recycle(s, m, held, old(ledger), old(tape));
      ghost var mid := sets;
      if nextState <= 0 {
        FinishNow(m, held, old(ledger), old(tape));
      } else {
        GoOn(nextState, m, held, old(ledger), old(tape));
        UntouchedTwice(old(sets), mid, sets, old(nextSet), old(nextSet));
      }
      RunOnce(requestCount, sets, needDelete, ledger, held, s, old(sets), old(nextSet));
    }

    /** Starts the actions of a new set one by one, all of them. Any of them, and any action started earlier, may finish
        in the course of it, the last one taking the message to its next state. `ret` is what came of the last action.
        If the message's time is up every action fails at once, and the set has been processed. The set is there as long
        as an action is left to start; after the last one the walk goes on to look at it (`late`) although it is gone,
        exactly when that start did not fail, the set has been processed in the course of it and another set has been
        processed since. */
    method StartAction(s: nat, timeout: bool, ghost held: set<nat>) returns (ret: int, late: bool)
      requires Fine(held, {}) && s in sets && sets[s].begun == 0 < sets[s].size
      modifies this
      ensures Fine(held, {}) && Untouched(old(sets) - {s}, sets - {s}, old(nextSet)) && old(nextSet) <= nextSet
      ensures s < |ledger.runs| && (s in sets ==> sets[s].begun == sets[s].size == old(sets[s].size))
      ensures s !in sets || timeout ==> ledger.runs[s] == 1
      ensures late <==> ret >= 0 && ledger.runs[s] == 1 && needDelete != Some(s)
      ensures Moves(rules, old(ledger), old(tape), ledger, tape, held) && nextMsg == old(nextMsg)
      decreases |tape|, 5
    {
      hide Good, Staged, Untouched, Grows, Moves, PhaseOf;
      var size := sets[s].size;
      ret := 0;
      Numbers(requestCount, sets, needDelete, ledger, held, {});
      NothingOpen(requestCount, sets, needDelete, ledger, held, s);
      UntouchedAtFirst(sets - {s}, sets - {s}, None, nextSet);
      MovesAtOnce(rules, ledger, tape, held);
      for i := 0 to size
        invariant Fine(held, {}) && Untouched(old(sets) - {s}, sets - {s}, old(nextSet)) && old(nextSet) <= nextSet
        invariant i < size ==> s in sets && sets[s].begun == i && sets[s].size == size
        invariant i == size && s in sets ==> sets[s].begun == sets[s].size == size
        invariant timeout && s in sets ==> sets[s].open == {}
        invariant i == size ==> ret >= 0
        invariant Moves(rules, old(ledger), old(tape), ledger, tape, held) && nextMsg == old(nextMsg)
        invariant |tape| <= |old(tape)|
      {
        ghost var entered, t1 := ledger, tape;
        ret := StartOne(s, i, timeout, held, old(sets), old(nextSet));
        MovesTwice(rules, old(ledger), old(tape), entered, t1, ledger, tape, held);
        if ret < 0 && i + 1 == size {
          Numbers(requestCount, sets, needDelete, ledger, held, {});
          AllFailed(requestCount, sets, needDelete, ledger, held, s);
          return ret, false;
        }
      }
      Numbers(requestCount, sets, needDelete, ledger, held, {});
      AllFailed(requestCount, sets, needDelete, ledger, held, s);
      late := s !in sets;
    }

    /** One action of a new set is started; if the message is too late it fails at once. */
    method StartOne(s: nat, i: nat, timeout: bool, ghost held: set<nat>,
                    ghost sets0: map<nat, ActionSet>, ghost next0: nat) returns (ret: int)
      requires Fine(held, {}) && s in sets && sets[s].begun == i < sets[s].size
      requires Untouched(sets0 - {s}, sets - {s}, next0) && s < next0 <= nextSet && forall x :: x in sets0 ==> x < next0
      modifies this
      ensures Fine(held, {}) && Untouched(sets0 - {s}, sets - {s}, next0) && old(nextSet) <= nextSet
      ensures i + 1 < old(sets[s].size) ==> s in sets
      ensures s in sets ==> sets[s].begun == i + 1 && sets[s].size == old(sets[s].size)
      ensures timeout && s in sets && old(sets[s].open) == {} ==> sets[s].open == {}
      ensures Moves(rules, old(ledger), old(tape), ledger, tape, held) && nextMsg == old(nextMsg)
      decreases |tape|, 4
    {
      hide Good, Staged, Untouched, Grows, Moves, PhaseOf;
      Numbers(requestCount, sets, needDelete, ledger, held, {});
      Begin(requestCount, sets, needDelete, ledger, held, s);
      var t := sets[s].(begun := i + 1, open := sets[s].open + {i});
      StagedProgress(rules, sets, ledger, s, t, ledger);
      sets := sets[s := t];
      ghost var before := sets;
      assert before - {s} == old(sets) - {s};
      if timeout {
        HandleFinished(s, i, held);
        ret := -1;
      } else {
        Activity(held);
        ret :| true;
      }
      UntouchedBeside(before, sets, old(nextSet), s);
      UntouchedTwice(sets0 - {s}, before - {s}, sets - {s}, next0, old(nextSet));
    }

    /** Some started actions, of whatever sets, are told their results. */
    method Activity(ghost held: set<nat>)
      requires Fine(held, {})
      modifies this
      ensures Fine(held, {}) && Untouched(old(sets), sets, old(nextSet)) && old(nextSet) <= nextSet
      ensures Moves(rules, old(ledger), old(tape), ledger, tape, held) && nextMsg == old(nextMsg)
      decreases |tape|, 3
    {
      hide Good, Staged, Untouched, Grows, Moves, PhaseOf;
      Numbers(requestCount, sets, needDelete, ledger, held, {});
      UntouchedAtFirst(sets, sets, None, nextSet);
      MovesAtOnce(rules, ledger, tape, held);
      var n: nat :| true;
      for j := 0 to n
        invariant Fine(held, {}) && Untouched(old(sets), sets, old(nextSet)) && old(nextSet) <= nextSet
        invariant Moves(rules, old(ledger), old(tape), ledger, tape, held) && nextMsg == old(nextMsg)
        invariant |tape| <= |old(tape)|
      {
        var s: nat, a: nat :| true;
        if s in sets && a in sets[s].open {
          ghost var before, next, entered, t1 := sets, nextSet, ledger, tape;
          HandleFinished(s, a, held);
          UntouchedTwice(old(sets), before, sets, old(nextSet), next);
          MovesTwice(rules, old(ledger), old(tape), entered, t1, ledger, tape, held);
        }
      }
    }

    /** One action of set `s` has been told its result: it is open no longer, and if it was the last one the state of
        the set has been processed. */
    method HandleFinished(s: nat, a: nat, ghost held: set<nat>)
      requires Fine(held, {}) && s in sets && a in sets[s].open
      modifies this
      ensures Fine(held, {}) && Untouched(old(sets), sets, old(nextSet)) && old(nextSet) <= nextSet
      ensures s in sets ==> a !in sets[s].open && old(sets[s].finishedCount) < sets[s].finishedCount
      ensures old(sets[s].finishedCount) + 1 == old(sets[s].size) ==> s < |ledger.runs| && ledger.runs[s] == 1
      ensures Moves(rules, old(ledger), old(tape), ledger, tape, held) && nextMsg == old(nextMsg)
      decreases |tape|, 2
    {
      hide Good, Staged, Untouched, Grows, Moves, PhaseOf;
      var t := sets[s];
      var t' := t.(open := t.open - {a}, finishedCount := t.finishedCount + 1);
      OpenMeansActive(requestCount, sets, needDelete, ledger, held, s, a);
      Numbers(requestCount, sets, needDelete, ledger, held, {});
      StagedLast(rules, requestCount, sets, needDelete, ledger, held, s);
      MovesAtOnce(rules, ledger, tape, held);
      ghost var taken := ledger.(owner := ledger.owner - {t.msg});
      if t.finishedCount + 1 < t.size {
        FinishOne(requestCount, sets, needDelete, ledger, held, s, a);
        StagedProgress(rules, sets, ledger, s, t', ledger);
      } else {
        FinishLast(requestCount, sets, needDelete, ledger, held, s, a);
        StagedProgress(rules, sets, ledger, s, t', taken);
      }
      sets := sets[s := t'];
      ghost var mid := sets;
      UntouchedFinished(old(sets), mid, s, a, nextSet);
      if t.size == t.finishedCount + 1 {
        ledger := taken;
        GrowsSame(old(ledger), taken);
        MovesSilent(rules, old(ledger), taken, tape, held);
        HandleProcess(s, t.msg, held);
        UntouchedTwice(old(sets), mid, sets, old(nextSet), old(nextSet));
        UntouchedBeside(mid, sets, old(nextSet), s);
        MovesTwice(rules, old(ledger), old(tape), taken, old(tape), ledger, tape, held);
      }
    }
  }

  lemma NothingOpen(count: int, sets: map<nat, ActionSet>, nd: Option<nat>, l: Ledger, held: set<nat>, s: nat)
    requires Good(count, sets, nd, l, held, {}) && s in sets && sets[s].begun == 0
    ensures sets[s].open == {}
  {
    assert sets[s].Sound();
  }

  /** A set all of whose actions have been started and none is open has been processed. */
  lemma AllFailed(count: int, sets: map<nat, ActionSet>, nd: Option<nat>, l: Ledger, held: set<nat>, s: nat)
    requires Good(count, sets, nd, l, held, {})
    ensures s in sets && sets[s].begun == sets[s].size && sets[s].open == {} ==> s < |l.runs| && l.runs[s] == 1
  {
    hide Messages, Owners;
    if s in sets {
      assert sets[s].Sound();
    }
  }

  /** What happens, with the answers to what is asked in the course of it. */
  datatype Event = Arrives(answers: seq<int>) | Finishes(set_: nat, action: nat, answers: seq<int>)

  /** The frame between two events. */
  datatype Snap = Snap(count: int, sets: map<nat, ActionSet>, next: nat, ledger: Ledger)

  ghost predicate Numbered(a: Snap)
  {
    forall s :: s in a.sets ==> s < a.next
  }

  /** Every message is waiting in the set of the state it was encoded with, or has ended. */
  ghost predicate AtRest(r: Rules, a: Snap)
  {
    && a.ledger.owner.Keys == a.ledger.live && Staged(r, a.sets, a.ledger)
    && forall m :: 0 <= m < |a.ledger.finals| ==> a.ledger.finals[m] == if m in a.ledger.live then 0 else 1
  }

  /** What one event does. `ok`: the message is admitted, or the action was open. */
  ghost predicate Stepped(r: Rules, limit: int, a: Snap, e: Event, ok: bool, b: Snap)
  {
    && Numbered(a) && Numbered(b) && AtRest(r, b) && Untouched(a.sets, b.sets, a.next) && a.next <= b.next
    && (exists left :: Moves(r, a.ledger, e.answers, b.ledger, left, {}))
    && |b.ledger.finals| == |a.ledger.finals| + (if e.Arrives? && ok then 1 else 0)
    && (!ok ==> b == a)
    && match e
       case Arrives(_) => ok <==> limit <= 0 || a.count < limit
       case Finishes(s, x, _) =>
         && (ok <==> s in a.sets && x in a.sets[s].open)
         && (ok ==>
               && (s in b.sets ==> x !in b.sets[s].open)
               && (a.sets[s].finishedCount + 1 == a.sets[s].size ==> s < |b.ledger.runs| && b.ledger.runs[s] == 1))
  }

  /** Event k leads from one state of the trace to the next. */
  ghost predicate StepAt(r: Rules, limit: int, trace: seq<Snap>, events: seq<Event>, oks: seq<bool>, k: nat)
  {
    k < |events| && k < |oks| && k + 1 < |trace| && Stepped(r, limit, trace[k], events[k], oks[k], trace[k + 1])
  }

  ghost predicate RunOf(r: Rules, limit: int, trace: seq<Snap>, events: seq<Event>, oks: seq<bool>, n: nat)
  {
    |trace| == n + 1 && |oks| == n <= |events| && forall k: nat :: k < n ==> StepAt(r, limit, trace, events, oks, k)
  }

  lemma RunMore(r: Rules, limit: int, trace: seq<Snap>, events: seq<Event>, oks: seq<bool>, n: nat, ok: bool, b: Snap)
    requires RunOf(r, limit, trace, events, oks, n) && n < |events| && Stepped(r, limit, trace[n], events[n], ok, b)
    ensures RunOf(r, limit, trace + [b], events, oks + [ok], n + 1)
  {
    hide Stepped;
    forall k: nat | k < n + 1
      ensures StepAt(r, limit, trace + [b], events, oks + [ok], k)
    {
      if k < n {
        assert StepAt(r, limit, trace, events, oks, k);
      }
    }
  }

  /** How many of the first n events admitted a message. */
  function Admissions(events: seq<Event>, oks: seq<bool>, n: nat): nat
    requires n <= |events| && n <= |oks|
  {
    if n == 0 then 0
    else Admissions(events, oks, n - 1) + if events[n - 1].Arrives? && oks[n - 1] then 1 else 0
  }

  /** Over a run, every message admitted enters the ledger, and no other. */
  lemma {:induction false} RunAdmits(r: Rules, limit: int, trace: seq<Snap>, events: seq<Event>, oks: seq<bool>, n: nat,
                                     k: nat)
    requires RunOf(r, limit, trace, events, oks, n) && k <= n
    ensures |trace[k].ledger.finals| == |trace[0].ledger.finals| + Admissions(events, oks, k)
  {
    hide Moves, Untouched, AtRest;
    if k > 0 {
      RunAdmits(r, limit, trace, events, oks, n, k - 1);
      assert StepAt(r, limit, trace, events, oks, k - 1);
    }
  }

  /** Over a run, nothing in the ledger is taken back. */
  lemma {:induction false} RunGrows(r: Rules, limit: int, trace: seq<Snap>, events: seq<Event>, oks: seq<bool>, n: nat,
                                    j: nat, k: nat)
    requires RunOf(r, limit, trace, events, oks, n) && j <= k <= n
    ensures Grows(trace[j].ledger, trace[k].ledger) && trace[j].ledger.log <= trace[k].ledger.log
    decreases k
  {
    hide Grows, Untouched, AtRest, Speaks;
    if j == k {
      GrowsAtOnce(trace[j].ledger);
    } else {
      RunGrows(r, limit, trace, events, oks, n, j, k - 1);
      assert StepAt(r, limit, trace, events, oks, k - 1);
      GrowsTwice(trace[j].ledger, trace[k - 1].ledger, trace[k].ledger);
    }
  }

  /** Over a run, an action that has finished is never open again. */
  lemma {:induction false} RunCloses(r: Rules, limit: int, trace: seq<Snap>, events: seq<Event>, oks: seq<bool>, n: nat,
                                     j: nat, k: nat)
    requires RunOf(r, limit, trace, events, oks, n) && j < k <= n && events[j].Finishes? && oks[j]
    ensures events[j].set_ < trace[k].next
    ensures events[j].set_ in trace[k].sets ==> events[j].action !in trace[k].sets[events[j].set_].open
    decreases k
  {
    hide Moves, AtRest;
    if j == k - 1 {
      assert StepAt(r, limit, trace, events, oks, j);
    } else {
      RunCloses(r, limit, trace, events, oks, n, j, k - 1);
      assert StepAt(r, limit, trace, events, oks, k - 1);
    }
  }

  /** The answers given in the events of a run, in order, as far as they were asked for. */
  ghost predicate Asked(r: Rules, trace: seq<Snap>, events: seq<Event>, k: nat)
  {
    && k < |events| && k + 1 < |trace|
    && Follows(r, trace[k].ledger.log, events[k].answers, trace[k + 1].ledger.log)
  }

  /** Over a run, the history of every message is right: it goes through the states its answers ask for, in order, and
      is finalised if and only if it has got no way on; and the answers are those that were given. */
  lemma RunStories(r: Rules, limit: int, trace: seq<Snap>, events: seq<Event>, oks: seq<bool>, n: nat, k: nat)
    requires RunOf(r, limit, trace, events, oks, n) && k < n
    ensures Asked(r, trace, events, k)
    ensures var l := trace[k + 1].ledger;
            && (forall i :: 0 <= i < |l.log| ==> Earned(r, l.log, i))
            && (forall m, j :: 0 <= m < |l.finals| && Latest(l.log, m, j, |l.log|) ==>
                  && (l.finals[m] == 1 <==> l.log[j].Ends?) && !NoWayOn(l.log[j])
                  && (m in l.live ==> l.log[j].Encodes? && l.log[j].ret == 0))
  {
    hide Untouched, Grows, PhaseOf, Earned, Values;
    assert StepAt(r, limit, trace, events, oks, k);
    var l := trace[k + 1].ledger;
    forall i | 0 <= i < |l.log|
      ensures Earned(r, l.log, i)
    {
      assert PhaseOf(r, l.log, l.log[i].msg) != Wrong;
      StoryMeans(r, l.log, i);
    }
    forall m: nat, j | m < |l.finals| && 0 <= j < |l.log| && Latest(l.log, m, j, |l.log|)
      ensures (l.finals[m] == 1 <==> l.log[j].Ends?) && !NoWayOn(l.log[j])
      ensures m in l.live ==> l.log[j].Encodes? && l.log[j].ret == 0
    {
      EndMeans(r, l.log, m, j);
    }
  }

  /** One event: a message arrives, or an action is told its result if it is open. */
  method Handle(f: CAsyncFrame, e: Event) returns (ok: bool)
    requires f.Valid()
    modifies f
    ensures f.Valid()
    ensures Stepped(f.rules, f.overloadLimit, old(f.Now()), e, ok, f.Now())
  {
    hide Good, Staged, Untouched, Grows, Moves;
    Numbers(f.requestCount, f.sets, f.needDelete, f.ledger, {}, {});
    f.tape := e.answers;
    match e {
      case Arrives(_) =>
        ok := f.Process();
      case Finishes(s, a, _) =>
        ok := s in f.sets && a in f.sets[s].open;
        MovesAtOnce(f.rules, f.ledger, f.tape, {});
        UntouchedAtFirst(f.sets, f.sets, None, f.nextSet);
        if ok {
          f.HandleFinished(s, a, {});
        }
    }
    Numbers(f.requestCount, f.sets, f.needDelete, f.ledger, {}, {});
    AllOwned(f.requestCount, f.sets, f.needDelete, f.ledger);
  }

  lemma AllOwned(count: int, sets: map<nat, ActionSet>, nd: Option<nat>, l: Ledger)
    requires Good(count, sets, nd, l, {}, {})
    ensures l.owner.Keys == l.live
    ensures forall m :: 0 <= m < |l.finals| ==> l.finals[m] == if m in l.live then 0 else 1
  {
    hide Runs;
  }

  /** Any run of arriving messages and finishing actions, with the states it goes through: each event has its effect,
      the messages admitted are those of the ledger, nothing in it is taken back, no action is open after it finished,
      and every message has its right history. */
  method Serve(f: CAsyncFrame, events: seq<Event>) returns (oks: seq<bool>, ghost trace: seq<Snap>)
    requires f.Valid()
    modifies f
    ensures f.Valid() && RunOf(f.rules, f.overloadLimit, trace, events, oks, |events|)
    ensures trace[0] == old(f.Now()) && trace[|events|] == f.Now()
    ensures |f.ledger.finals| == old(|f.ledger.finals|) + Admissions(events, oks, |events|)
    ensures Grows(old(f.ledger), f.ledger)
    ensures forall k :: 0 <= k < |events| && events[k].Finishes? && oks[k] && events[k].set_ in f.sets ==>
              events[k].action !in f.sets[events[k].set_].open
  {
    hide Good, Staged, Stepped, Untouched, Grows;
    oks, trace := [], [f.Now()];
    for i := 0 to |events|
      invariant f.Valid() && RunOf(f.rules, f.overloadLimit, trace, events, oks, i)
      invariant trace[0] == old(f.Now()) && trace[i] == f.Now()
    {
      var ok := Handle(f, events[i]);
      RunMore(f.rules, f.overloadLimit, trace, events, oks, i, ok, f.Now());
      oks, trace := oks + [ok], trace + [f.Now()];
    }
    RunAdmits(f.rules, f.overloadLimit, trace, events, oks, |events|, |events|);
    RunGrows(f.rules, f.overloadLimit, trace, events, oks, |events|, 0, |events|);
    forall k | 0 <= k < |events| && events[k].Finishes? && oks[k]
      ensures events[k].set_ in f.sets ==> events[k].action !in f.sets[events[k].set_].open
    {
      RunCloses(f.rules, f.overloadLimit, trace, events, oks, |events|, k, |events|);
    }
  }

  /** What a valid frame promises between events: the count is the number of live messages and within the limit,
      every admitted message is live or was finalised once, every live one waits in one active action set, and every
      action set is active or had its state's HandleProcess called once. */
  lemma ValidMeans(f: CAsyncFrame)
    requires f.Valid()
    ensures f.requestCount == |f.ledger.live| && (f.overloadLimit > 0 ==> f.requestCount <= f.overloadLimit)
    ensures forall m :: 0 <= m < |f.ledger.finals| ==> f.ledger.finals[m] == if m in f.ledger.live then 0 else 1
    ensures forall m :: m in f.ledger.live ==>
              && m in f.ledger.owner && f.ledger.owner[m] in f.sets
              && var t := f.sets[f.ledger.owner[m]]; t.msg == m && t.finishedCount < t.size
    ensures forall s :: 0 <= s < |f.ledger.runs| ==>
            f.ledger.runs[s] == if s in f.sets && f.sets[s].Active() then 0 else 1
    ensures forall s :: s in f.sets && !f.sets[s].Active() ==> f.needDelete == Some(s)
  {
    assert f.ledger.owner.Keys == f.ledger.live;
  }

  lemma OpenMeansActive(count: int, sets: map<nat, ActionSet>, nd: Option<nat>, l: Ledger, held: set<nat>, s: nat,
      a: nat)
    requires Good(count, sets, nd, l, held, {}) && s in sets && a in sets[s].open
    ensures sets[s].finishedCount < sets[s].size
  {
    assert sets[s].Sound() && |sets[s].open| > 0;
  }
}
