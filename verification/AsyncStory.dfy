/** What the frame asks a plugin about a message and does with the answers, as a history, and the rules of one. */
module AsyncStory {

  /** The states that are registered, and whether there is an Init callback. */
  datatype Rules = Rules(states: set<int>, hasInit: bool)

  datatype Deed =
    | Starts(msg: nat, state: int)                                   // Init's answer, or 1 without Init
    | Encodes(msg: nat, state: int, ret: int, actions: int, late: int) // HandleEncode of the state: its result, the
                                                                     // actions it put in the set; non-zero if late
    | Misses(msg: nat, state: int)                                   // there is no such state
    | Replies(msg: nat, state: int, next: int)                       // HandleProcess of the state
    | Ends(msg: nat)                                                 // Fini

  /** Where a message has got to. */
  datatype Phase = Unborn | Going(state: int) | Waiting(state: int, size: nat) | Ending | Gone | Wrong

  function Onward(next: int): Phase
  {
    if next <= 0 then Ending else Going(next)
  }

  function Size(actions: int): nat
  {
    if actions < 0 then 0 else actions
  }

  /** The rules: a message goes where the latest answer sends it, and ends when that is nowhere. */
  function After(r: Rules, ph: Phase, d: Deed): Phase
  {
    match d
    case Starts(_, n) => if ph == Unborn && (r.hasInit || n == 1) then Onward(n) else Wrong
    case Encodes(_, n, ret, actions, _) =>
      if ph != Going(n) || n !in r.states then Wrong
      else if ret == 0 then Waiting(n, Size(actions)) else Ending
    case Misses(_, n) => if ph == Going(n) && n !in r.states then Ending else Wrong
    case Replies(_, n, next) => if ph.Waiting? && ph.state == n then Onward(next) else Wrong
    case Ends(_) => if ph == Ending then Gone else Wrong
  }

  function PhaseOf(r: Rules, log: seq<Deed>, m: nat): Phase
  {
    if log == [] then Unborn
    else
      var before, d := PhaseOf(r, log[..|log| - 1], m), log[|log| - 1];
      if d.msg == m then After(r, before, d) else before
  }

  lemma PhaseMore(r: Rules, log: seq<Deed>, d: Deed, m: nat)
    ensures PhaseOf(r, log + [d], m) == if d.msg == m then After(r, PhaseOf(r, log, m), d) else PhaseOf(r, log, m)
  {
    assert (log + [d])[..|log|] == log;
  }

  // ---- what a right history says ----

  /** Deed j is the latest one about `m` before i. */
  ghost predicate Latest(log: seq<Deed>, m: nat, j: int, i: int)
  {
    0 <= j < i <= |log| && log[j].msg == m && forall k :: j < k < i ==> log[k].msg != m
  }

  ghost predicate NoneAbout(log: seq<Deed>, m: nat, i: nat)
  {
    i <= |log| && forall k :: 0 <= k < i ==> log[k].msg != m
  }

  /** The deed gives this phase by itself. */
  ghost predicate Leaves(d: Deed, ph: Phase)
  {
    match d
    case Starts(_, n) => ph == Onward(n)
    case Encodes(_, n, ret, actions, _) => ph == if ret == 0 then Waiting(n, Size(actions)) else Ending
    case Misses(_, _) => ph == Ending
    case Replies(_, _, next) => ph == Onward(next)
    case Ends(_) => ph == Gone
  }

  lemma {:induction false} PhaseTells(r: Rules, log: seq<Deed>, m: nat)
    requires PhaseOf(r, log, m) != Wrong
    ensures || (NoneAbout(log, m, |log|) && PhaseOf(r, log, m) == Unborn)
            || exists j :: Latest(log, m, j, |log|) && Leaves(log[j], PhaseOf(r, log, m))
    decreases |log|
  {
    if log != [] {
      var n := |log| - 1;
      var before := log[..n];
      if log[n].msg == m {
        assert Latest(log, m, n, |log|) && Leaves(log[n], PhaseOf(r, log, m));
      } else {
        PhaseTells(r, before, m);
        if PhaseOf(r, before, m) == Unborn && NoneAbout(before, m, n) {
          assert NoneAbout(log, m, |log|);
        } else {
          var j :| Latest(before, m, j, n) && Leaves(before[j], PhaseOf(r, before, m));
          assert Latest(log, m, j, |log|) && Leaves(log[j], PhaseOf(r, log, m));
        }
      }
    }
  }

  lemma {:induction false} PhasePrefix(r: Rules, log: seq<Deed>, m: nat, i: nat)
    requires PhaseOf(r, log, m) != Wrong && i <= |log|
    ensures PhaseOf(r, log[..i], m) != Wrong
    decreases |log|
  {
    if i == |log| {
      assert log[..i] == log;
    } else {
      PhasePrefix(r, log[..|log| - 1], m, i);
      assert log[..|log| - 1][..i] == log[..i];
    }
  }

  /** What came before a deed of a right history: nothing before the first state, which without Init is state 1;
      before a state is tried, the answer that asked for it; before it is processed, its encoding; and before the end,
      an answer that is no state, a state there is not, or an encoding that failed. */
  ghost predicate Earned(r: Rules, log: seq<Deed>, i: nat)
    requires i < |log|
  {
    var m := log[i].msg;
    match log[i]
    case Starts(_, n) => NoneAbout(log, m, i) && (r.hasInit || n == 1)
    case Encodes(_, n, _, _, _) => n in r.states && n > 0 && AskedFor(log, m, n, i)
    case Misses(_, n) => n !in r.states && n > 0 && AskedFor(log, m, n, i)
    case Replies(_, n, _) =>
      exists j :: Latest(log, m, j, i) && log[j].Encodes? && log[j].state == n && log[j].ret == 0
    case Ends(_) => exists j :: Latest(log, m, j, i) && NoWayOn(log[j])
  }

  ghost predicate AskedFor(log: seq<Deed>, m: nat, n: int, i: nat)
  {
    exists j :: Latest(log, m, j, i) && ((log[j].Starts? && log[j].state == n) || (log[j].Replies? && log[j].next == n))
  }

  predicate NoWayOn(d: Deed)
  {
    match d
    case Starts(_, n) => n <= 0
    case Encodes(_, _, ret, _, _) => ret != 0
    case Misses(_, _) => true
    case Replies(_, _, next) => next <= 0
    case Ends(_) => false
  }

  /** The phase a deed came in, and the deed that led to it. */
  lemma CameAfter(r: Rules, log: seq<Deed>, i: nat) returns (ph: Phase)
    requires i < |log| && PhaseOf(r, log, log[i].msg) != Wrong
    ensures After(r, ph, log[i]) != Wrong && ph != Wrong
    ensures var m := log[i].msg;
            || (NoneAbout(log, m, i) && ph == Unborn)
            || exists j :: Latest(log, m, j, i) && Leaves(log[j], ph)
  {
    hide After, Leaves, PhaseOf;
    var m := log[i].msg;
    PhasePrefix(r, log, m, i + 1);
    PhasePrefix(r, log, m, i);
    PhaseMore(r, log[..i], log[i], m);
    assert log[..i + 1] == log[..i] + [log[i]];
    ph := PhaseOf(r, log[..i], m);
    PhaseTells(r, log[..i], m);
    if !(NoneAbout(log[..i], m, i) && ph == Unborn) {
      var j :| Latest(log[..i], m, j, i) && Leaves(log[..i][j], ph);
      assert Latest(log, m, j, i) && log[..i][j] == log[j];
    }
  }

  lemma StoryMeans(r: Rules, log: seq<Deed>, i: nat)
    requires i < |log| && PhaseOf(r, log, log[i].msg) != Wrong
    ensures Earned(r, log, i)
  {
    hide PhaseOf, Latest, NoneAbout;
    var ph := CameAfter(r, log, i);
  }

  /** A message that has ended, and only such a one, has got no way on. */
  lemma EndMeans(r: Rules, log: seq<Deed>, m: nat, j: nat)
    requires PhaseOf(r, log, m) in {Gone, Unborn} || PhaseOf(r, log, m).Waiting?
    requires Latest(log, m, j, |log|)
    ensures !NoWayOn(log[j]) && (log[j].Ends? <==> PhaseOf(r, log, m) == Gone)
    ensures PhaseOf(r, log, m).Waiting? ==> log[j].Encodes? && log[j].ret == 0
  {
    PhaseTells(r, log, m);
    if PhaseOf(r, log, m) != Unborn {
      var k :| Latest(log, m, k, |log|) && Leaves(log[k], PhaseOf(r, log, m));
      assert k == j;
    }
  }

  // ---- whose answers they are ----

  /** The answers that a deed rests on, in the order they were asked for. */
  function Values(r: Rules, log: seq<Deed>): seq<int>
  {
    if log == [] then [] else Values(r, log[..|log| - 1]) + Rests(r, log[|log| - 1])
  }

  function Rests(r: Rules, d: Deed): seq<int>
  {
    match d
    case Starts(_, n) => if r.hasInit then [n] else []
    case Encodes(_, _, ret, actions, late) =>
      if ret != 0 then [ret] else if Size(actions) == 0 then [ret, actions] else [ret, actions, late]
    case Misses(_, _) => []
    case Replies(_, _, next) => [next]
    case Ends(_) => []
  }

  /** The first k answers, and what is left of them. When they run out the answer is 0. */
  function Given(tape: seq<int>, k: nat): (g: seq<int>)
    ensures |g| == k
  {
    seq(k, i requires 0 <= i < k => if i < |tape| then tape[i] else 0)
  }

  function Past(tape: seq<int>, k: nat): seq<int>
  {
    if k <= |tape| then tape[k..] else []
  }

  lemma GivenTwice(tape: seq<int>, a: nat, b: nat)
    ensures Given(tape, a + b) == Given(tape, a) + Given(Past(tape, a), b)
    ensures Past(Past(tape, a), b) == Past(tape, a + b) && |Past(tape, a)| <= |tape|
  {
  }

  /** The history has gone on with exactly the answers taken off the tape, in order. */
  ghost predicate Speaks(r: Rules, log: seq<Deed>, tape: seq<int>, log': seq<Deed>, tape': seq<int>)
  {
    var k := |Values(r, log')| - |Values(r, log)|;
    k >= 0 && Values(r, log') == Values(r, log) + Given(tape, k) && tape' == Past(tape, k)
  }

  /** The history has gone on with the first of these answers, in order. */
  ghost predicate Follows(r: Rules, log: seq<Deed>, answers: seq<int>, log': seq<Deed>)
  {
    log <= log' && |Values(r, log)| <= |Values(r, log')|
    && Values(r, log') == Values(r, log) + Given(answers, |Values(r, log')| - |Values(r, log)|)
  }

  lemma SpeaksAtOnce(r: Rules, log: seq<Deed>, tape: seq<int>)
    ensures Speaks(r, log, tape, log, tape)
  {
    assert Values(r, log) + [] == Values(r, log);
  }

  lemma SpeaksTwice(r: Rules, a: seq<Deed>, t: seq<int>, b: seq<Deed>, t1: seq<int>, c: seq<Deed>, t2: seq<int>)
    requires Speaks(r, a, t, b, t1) && Speaks(r, b, t1, c, t2)
    ensures Speaks(r, a, t, c, t2) && |t2| <= |t|
  {
    hide Values, Given, Past;
    var j, k := |Values(r, b)| - |Values(r, a)|, |Values(r, c)| - |Values(r, b)|;
    GivenTwice(t, j, k);
    GivenTwice(t1, k, 0);
    assert Values(r, a) + Given(t, j) + Given(t1, k) == Values(r, a) + (Given(t, j) + Given(t1, k));
  }

  lemma SpeaksShrinks(r: Rules, log: seq<Deed>, tape: seq<int>, log': seq<Deed>, tape': seq<int>)
    requires Speaks(r, log, tape, log', tape')
    ensures |tape'| <= |tape|
  {
  }

  /** One deed. */
  lemma SpeaksOne(r: Rules, log: seq<Deed>, tape: seq<int>, d: Deed)
    requires Rests(r, d) == Given(tape, |Rests(r, d)|)
    ensures Speaks(r, log, tape, log + [d], Past(tape, |Rests(r, d)|))
  {
    assert (log + [d])[..|log|] == log;
  }

  /** Messages that are in somebody's hands further up are left alone. */
  ghost predicate Spared(r: Rules, log: seq<Deed>, log': seq<Deed>, held: set<nat>)
  {
    log <= log' && forall h :: h in held ==> PhaseOf(r, log', h) == PhaseOf(r, log, h)
  }

  lemma SparedOne(r: Rules, log: seq<Deed>, d: Deed, held: set<nat>)
    requires d.msg !in held
    ensures Spared(r, log, log + [d], held)
  {
    forall h | h in held
      ensures PhaseOf(r, log + [d], h) == PhaseOf(r, log, h)
    {
      PhaseMore(r, log, d, h);
    }
  }
}
