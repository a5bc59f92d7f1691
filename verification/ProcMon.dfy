/** One process group of the controller's monitor: its reports, listing, count, scaling and hot reload. The world
    decides which processes are alive, which outlive their exit signal and what time it is; a recorded old pid is not
    used again while it is recorded. */
module ProcMon {

  import opened Seqs
  import opened ProcTable
  import opened ProcQueue

  const PROC_RELOAD_NORMAL := 0
  const PROC_RELOAD_START := 1
  const PROC_RELOAD_WAIT_NEW := 2
  const PROC_RELOAD_KILLOLD := 3
  const PROC_RELOAD_CLEAR := 4
  const ADJUST_PROC_DELAY := 15
  const GROUP_UNUSED := -1

  // ---- what a history of reloads may look like ----

  datatype Entry =
    | Began(olds: set<nat>, min: nat)             // a reload begins; `olds` were listed
    | Listed(pid: nat, ready: bool)               // a process enters the buckets
    | Released(listed: set<nat>, waited: int)     // the reload decides to end the old processes
    | Forked(n: nat)                              // new processes are started
    | Signalled(pid: nat, hard: bool)             // the reload signals a process, with SIGKILL if `hard`
    | Settled(alive: set<nat>)                    // the group is back to normal
    | Doubled(pid: nat)                           // the count goes down for a process already out of the buckets

  /** Where a history has got to. `owed` is what the count is short of the processes listed. */
  datatype Phase =
    | Idle(owed: nat)
    | Waiting(olds: set<nat>, min: nat, news: set<nat>, owed: nat)
    | Killing(olds: set<nat>, owed: nat)

  /** What makes a reload end the old processes: the count, compared as an unsigned number, or the time. */
  ghost predicate Enough(listed: nat, owed: nat, min: nat, waited: int)
  {
    listed - owed >= min || listed - owed < GROUP_UNUSED || waited > 30
  }

  /** The rules of a reload, as an automaton over its history. */
  ghost function After(ph: Phase, e: Entry): Option<Phase>
  {
    match e
    case Began(olds, min) =>
      if ph.Idle? then Some(Waiting(olds, min, {}, 0)) else None
    case Listed(pid, ready) =>
      if ph.Idle? then Some(ph)
      else if !ready || pid in ph.olds then None
      else if ph.Waiting? then Some(ph.(news := ph.news + {pid})) else Some(ph)
    case Released(listed, waited) =>
      if ph.Waiting? && Enough(|listed|, ph.owed, ph.min, waited) && listed <= ph.news
      then Some(Killing(ph.olds, ph.owed))
      else None
    case Forked(n) =>
      if ph.Idle? || (ph.Waiting? && n == ph.min) then Some(ph) else None
    case Signalled(pid, _) =>
      if ph.Killing? && pid in ph.olds then Some(ph) else None
    case Settled(alive) =>
      if ph.Killing? && ph.olds !! alive then Some(Idle(ph.owed)) else None
    case Doubled(_) =>
      Some(ph.(owed := ph.owed + 1))
  }

  ghost function Replay(log: seq<Entry>): Option<Phase>
  {
    if log == [] then Some(Idle(0))
    else
      var before := Replay(log[..|log| - 1]);
      if before.None? then None else After(before.value, log[|log| - 1])
  }

  /** How often the count has gone down for an unlisted process since it was last set to zero. */
  function Owed(log: seq<Entry>): nat
  {
    if log == [] then 0
    else
      var before := Owed(log[..|log| - 1]);
      match log[|log| - 1]
      case Began(_, _) => 0
      case Doubled(_) => before + 1
      case _ => before
  }

  lemma {:induction false} OwedTells(log: seq<Entry>)
    requires Replay(log).Some?
    ensures Replay(log).value.owed == Owed(log)
    decreases |log|
  {
    if log != [] {
      OwedTells(log[..|log| - 1]);
    }
  }

  ghost predicate BegunAt(log: seq<Entry>, b: nat, olds: set<nat>, min: nat)
  {
    b < |log| && log[b] == Began(olds, min) && forall i :: b < i < |log| ==> !log[i].Began?
  }

  /** The pid entered the buckets after b, ready. */
  ghost predicate ListedSince(log: seq<Entry>, b: nat, pid: nat)
  {
    exists i :: b < i < |log| && log[i] == Listed(pid, true)
  }

  /** The reload begun at b was released at j, by a count of enough ready processes listed since or after more than 30
      seconds, and nothing has begun since. */
  ghost predicate ReleasedAt(log: seq<Entry>, b: nat, j: nat, olds: set<nat>)
  {
    && b < j < |log| && log[b].Began? && log[b].olds == olds && log[j].Released?
    && Enough(|log[j].listed|, Owed(log[..j]), log[b].min, log[j].waited)
    && (forall pid :: pid in log[j].listed ==> ListedSince(log[..j], b, pid))
    && forall i :: b < i < |log| ==> !log[i].Began?
  }

  lemma ReleasedLater(log: seq<Entry>, e: Entry, b: nat, j: nat, olds: set<nat>)
    requires ReleasedAt(log, b, j, olds) && !e.Began?
    ensures ReleasedAt(log + [e], b, j, olds)
  {
    assert (log + [e])[..j] == log[..j];
  }

  lemma ListedLater(log: seq<Entry>, e: Entry, b: nat, news: set<nat>)
    requires forall pid :: pid in news ==> ListedSince(log, b, pid)
    ensures forall pid :: pid in news ==> ListedSince(log + [e], b, pid)
  {
    forall pid | pid in news
      ensures ListedSince(log + [e], b, pid)
    {
      var i :| b < i < |log| && log[i] == Listed(pid, true);
      assert (log + [e])[i] == Listed(pid, true);
    }
  }

  /** What a phase says about the history so far. */
  lemma {:induction false} PhaseTells(log: seq<Entry>)
    requires Replay(log).Some?
    ensures var ph := Replay(log).value;
            && (ph.Waiting? ==>
                  exists b ::
                    (BegunAt(log, b, ph.olds, ph.min) && forall pid :: pid in ph.news ==> ListedSince(log, b, pid)))
            && (ph.Killing? ==> exists b, j :: ReleasedAt(log, b, j, ph.olds))
    decreases |log|
  {
    if log != [] {
      var n := |log| - 1;
      var before, e := log[..n], log[n];
      assert log == before + [e];
      PhaseTells(before);
      var ph := Replay(before).value;
      if e.Began? {
        assert BegunAt(log, n, e.olds, e.min);
      } else if ph.Waiting? {
        var b :| BegunAt(before, b, ph.olds, ph.min) && forall pid :: pid in ph.news ==> ListedSince(before, b, pid);
        if e.Released? {
          OwedTells(before);
          assert ReleasedAt(log, b, n, ph.olds);
        } else {
          assert BegunAt(log, b, ph.olds, ph.min);
          ListedLater(before, e, b, ph.news);
        }
      } else if ph.Killing? {
        var b, j :| ReleasedAt(before, b, j, ph.olds);
        ReleasedLater(before, e, b, j, ph.olds);
      }
    }
  }

  lemma {:induction false} ReplayPrefix(log: seq<Entry>, k: nat)
    requires Replay(log).Some? && k <= |log|
    ensures Replay(log[..k]).Some?
    decreases |log|
  {
    if k == |log| {
      assert log[..k] == log;
    } else {
      var before := log[..|log| - 1];
      ReplayPrefix(before, k);
      assert before[..k] == log[..k];
    }
  }

  /** No old process is signalled before its reload was released, and only processes recorded when it began are. */
  lemma SignalsAreEarned(log: seq<Entry>, k: nat)
    requires Replay(log).Some? && k < |log| && log[k].Signalled?
    ensures exists b, j, olds :: ReleasedAt(log[..k], b, j, olds) && log[k].pid in olds
  {
    hide ReleasedAt, BegunAt, ListedSince;
    ReplayPrefix(log, k + 1);
    assert log[..k + 1][..k] == log[..k];
    PhaseTells(log[..k]);
    var ph := Replay(log[..k]).value;
    assert ph.Killing? && log[k].pid in ph.olds;
    var b, j :| ReleasedAt(log[..k], b, j, ph.olds);
  }

  /** The group is back to normal only when every process recorded when the reload began is dead. */
  lemma SettledMeansDead(log: seq<Entry>, k: nat)
    requires Replay(log).Some? && k < |log| && log[k].Settled?
    ensures exists b, j, olds :: ReleasedAt(log[..k], b, j, olds) && olds !! log[k].alive
  {
    hide ReleasedAt, BegunAt, ListedSince;
    ReplayPrefix(log, k + 1);
    assert log[..k + 1][..k] == log[..k];
    PhaseTells(log[..k]);
    var ph := Replay(log[..k]).value;
    var b, j :| ReleasedAt(log[..k], b, j, ph.olds);
  }

  /** From its beginning to its end a reload remembers the same processes. */
  lemma {:induction false} SameReload(log: seq<Entry>, b: nat)
    requires Replay(log).Some? && b < |log| && log[b].Began?
    requires forall i :: b < i < |log| ==> !log[i].Settled?
    ensures !Replay(log).value.Idle? && Replay(log).value.olds == log[b].olds
    decreases |log|
  {
    var before := log[..|log| - 1];
    if b < |before| {
      SameReload(before, b);
    }
  }

  /** A process recorded when a reload began does not enter the buckets until the group is back to normal. */
  lemma OldsStayOut(log: seq<Entry>, b: nat, k: nat)
    requires Replay(log).Some? && b < k < |log| && log[b].Began? && log[k].Listed?
    requires forall i :: b < i < k ==> !log[i].Settled?
    ensures log[k].ready && log[k].pid !in log[b].olds
  {
    ReplayPrefix(log, k + 1);
    assert log[..k + 1][..k] == log[..k];
    SameReload(log[..k], b);
  }

  /** The phase a group is in, with these processes listed. */
  ghost predicate Fits(ph: Phase, reload: nat, tag: Option<set<nat>>, min: nat, pids: set<nat>)
  {
    if reload == PROC_RELOAD_NORMAL then ph.Idle?
    else
      && reload <= PROC_RELOAD_CLEAR && tag.Some? && pids !! tag.value && !ph.Idle? && ph.olds == tag.value
      && if reload <= PROC_RELOAD_WAIT_NEW then ph.Waiting? && ph.min == min && pids <= ph.news else ph.Killing?
  }

  lemma {:induction false} NothingOwed(log: seq<Entry>, b: nat)
    requires b < |log| && log[b].Began? && forall i :: b < i < |log| ==> !log[i].Doubled?
    ensures Owed(log) == 0
    decreases |log|
  {
    var before := log[..|log| - 1];
    if b < |before| {
      NothingOwed(before, b);
    }
  }

  /** As long as no process is counted down twice, a reload waits for enough of them or for the time. */
  lemma ReleasedFairly(log: seq<Entry>, b: nat, j: nat, olds: set<nat>)
    requires ReleasedAt(log, b, j, olds) && forall i :: b < i < j ==> !log[i].Doubled?
    ensures |log[j].listed| >= log[b].min || log[j].waited > 30
  {
    NothingOwed(log[..j], b);
  }

  lemma ReplayMore(log: seq<Entry>, e: Entry)
    ensures Replay(log + [e]) == if Replay(log).None? then None else After(Replay(log).value, e)
  {
    assert (log + [e])[..|log|] == log;
  }

  /** The log has grown by processes that enter the buckets and such counted down twice, and nothing else. */
  ghost predicate Quietly(log: seq<Entry>, log': seq<Entry>)
  {
    log <= log' && forall i :: |log| <= i < |log'| ==> log'[i].Listed? || log'[i].Doubled?
  }

  lemma QuietlyAtOnce(log: seq<Entry>)
    ensures Quietly(log, log)
  {
  }

  lemma QuietlyOne(log: seq<Entry>, e: Entry)
    requires e.Listed? || e.Doubled?
    ensures Quietly(log, log + [e])
  {
  }

  lemma QuietlyTwice(log: seq<Entry>, log1: seq<Entry>, log2: seq<Entry>)
    requires Quietly(log, log1) && Quietly(log1, log2)
    ensures Quietly(log, log2)
  {
    assert forall i :: 0 <= i < |log1| ==> log2[i] == log1[i];
  }

  lemma {:induction false} QuietlyDoubles(log: seq<Entry>, pid: nat, n: nat)
    ensures Quietly(log, log + Doubles(pid, n))
  {
    if n == 0 {
      assert log + [] == log;
    } else {
      QuietlyDoubles(log, pid, n - 1);
      assert log + Doubles(pid, n) == log + Doubles(pid, n - 1) + [Doubled(pid)];
    }
  }

  /** The log has grown by one signal to each of these processes and nothing else. */
  ghost predicate Signals(log: seq<Entry>, log': seq<Entry>, pids: set<nat>, hard: bool)
  {
    && log <= log' && |log'| == |log| + |pids|
    && (forall i :: |log| <= i < |log'| ==> log'[i].Signalled? && log'[i].pid in pids && log'[i].hard == hard)
    && forall pid :: pid in pids ==> Signalled(pid, hard) in log'[|log|..]
  }

  lemma SignalsNobody(log: seq<Entry>, hard: bool)
    ensures Signals(log, log, {}, hard)
  {
  }

  lemma SignalsMore(log: seq<Entry>, log': seq<Entry>, pids: set<nat>, hard: bool, pid: nat)
    requires Signals(log, log', pids, hard) && pid !in pids
    ensures Signals(log, log' + [Signalled(pid, hard)], pids + {pid}, hard)
  {
    var more := log' + [Signalled(pid, hard)];
    assert more[|log|..] == log'[|log|..] + [Signalled(pid, hard)];
  }

  lemma SignalsGrow(log: seq<Entry>, log': seq<Entry>, pids: set<nat>, hard: bool)
    requires Signals(log, log', pids, hard)
    ensures log <= log'
  {
  }

  /** The source compares the signed count as an unsigned 32-bit number. */
  function AsUnsigned(n: int): nat { n % 0x1_0000_0000 }

  /** The state of a group that its history accounts for. */
  ghost predicate Sound(log: seq<Entry>, buckets: seq<seq<Proc>>, count: int, reload: nat, tag: Option<set<nat>>,
      min: nat)
  {
    && Table(buckets) && Replay(log).Some? && count == Size(buckets) - Replay(log).value.owed
    && Fits(Replay(log).value, reload, tag, min, Pids(buckets))
  }

  lemma SoundBuckets(log: seq<Entry>, buckets: seq<seq<Proc>>, count: int, reload: nat, tag: Option<set<nat>>, min: nat)
    requires Sound(log, buckets, count, reload, tag, min)
    ensures Table(buckets) && |buckets| == BUCKET_SIZE
  {
  }

  /** The entries of a count that goes down n times for an unlisted process. */
  ghost function Doubles(pid: nat, n: nat): seq<Entry>
  {
    if n == 0 then [] else Doubles(pid, n - 1) + [Doubled(pid)]
  }

  lemma SoundDropped(log: seq<Entry>, buckets: seq<seq<Proc>>, count: int, reload: nat, tag: Option<set<nat>>, min: nat,
                     pid: nat)
    requires Sound(log, buckets, count, reload, tag, min)
    ensures Sound(log + (if pid in Pids(buckets) then [] else [Doubled(pid)]), Drop(buckets, pid), count - 1, reload,
            tag, min)
  {
    hide Table, Pids, Size, Replay, Drop;
    Dropped(buckets, pid);
    ReplayMore(log, Doubled(pid));
    assert log + [] == log;
  }

  lemma SoundRefreshed(log: seq<Entry>, buckets: seq<seq<Proc>>, count: int, reload: nat, tag: Option<set<nat>>,
      min: nat, i: nat, proc: Proc)
    requires Sound(log, buckets, count, reload, tag, min)
    requires i < |buckets[proc.pid % BUCKET_SIZE]| && buckets[proc.pid % BUCKET_SIZE][i].pid == proc.pid
    ensures var b := proc.pid % BUCKET_SIZE;
            var buckets' := buckets[b := buckets[b][i := proc]];
            && Sound(log, buckets', count, reload, tag, min)
            && Pids(buckets') == Pids(buckets) && proc.pid in Pids(buckets) && proc in buckets'[b]
            && Drop(buckets', proc.pid) == Drop(buckets, proc.pid)
  {
    hide Bucket, Pids, Size, Replay, Sans;
    var b := proc.pid % BUCKET_SIZE;
    Refreshed(buckets, b, i, proc);
    SansRefreshed(buckets[b], i, proc);
    PidHashes(buckets, b, i);
    assert buckets[b][i := proc][i] == proc;
  }

  lemma SoundAdded(log: seq<Entry>, buckets: seq<seq<Proc>>, count: int, reload: nat, tag: Option<set<nat>>, min: nat,
                   proc: Proc, ready: bool)
    requires Sound(log, buckets, count, reload, tag, min) && proc.pid !in Pids(buckets)
    requires reload == PROC_RELOAD_NORMAL || (ready && proc.pid !in tag.value)
    ensures var b := proc.pid % BUCKET_SIZE;
            Sound(log + [Listed(proc.pid, ready)], buckets[b := [proc] + buckets[b]], count + 1, reload, tag, min)
  {
    hide Bucket, PidsIn, Pids, Size, Replay;
    Added(buckets, proc);
    ReplayMore(log, Listed(proc.pid, ready));
  }

  datatype Tally = Tally(pids: set<nat>, count: int)

  /** do_recv(0) on the set of listed processes and its count: a report in good health lists its process, and one of a
      fatal signal takes it out with its other messages, counting down once for it and for each further such report. */
  function Heard(t: Tally, q: seq<Msg>, reload: nat, tag: Option<set<nat>>, stuck: set<nat>, restart: bool): Tally
    decreases |q|
  {
    if q == [] || t.count == GROUP_UNUSED then t
    else
      var pid := q[0].proc.pid;
      if q[0].exception then
        if restart && pid in t.pids && pid !in stuck then
          NothingLeft(q[1..], pid);
          Heard(Tally(t.pids - {pid}, t.count - 1 - Reports(q[1..], pid)), Without(q[1..], pid), reload, tag, stuck,
            restart)
        else Heard(t, q[1..], reload, tag, stuck, restart)
      else if pid in t.pids then Heard(t, q[1..], reload, tag, stuck, restart)
      else if reload == PROC_RELOAD_NORMAL || (!q[0].initialising && tag.Some? && pid !in tag.value) then
        Heard(Tally(t.pids + {pid}, t.count + 1), q[1..], reload, tag, stuck, restart)
      else Heard(t, q[1..], reload, tag, stuck, restart)
  }

  /** A group and the world around it at one moment. */
  datatype View = View(buckets: seq<seq<Proc>>, count: int, reload: nat, reloadTime: int, min: nat, max: nat,
                       heartbeat: nat, adjustTime: int, tag: Option<set<nat>>, queue: seq<Msg>, clock: int,
                       alive: set<nat>,
                       stuck: set<nat>, log: seq<Entry>)

  /** The transitions of a reload, exactly who is signalled on each and how, and the time of the last one. */
  ghost predicate Moved(v: View, v': View)
  {
    match v.reload
    case PROC_RELOAD_START =>
      v'.reload == PROC_RELOAD_WAIT_NEW && v'.reloadTime == v.clock && v'.tag == v.tag
        && v'.log == v.log + [Forked(v.min)]
    case PROC_RELOAD_WAIT_NEW =>
      && v'.tag == v.tag && v.tag.Some?
      && if AsUnsigned(v.count) >= v.min || v.clock - v.reloadTime > 30 then
           && v'.reload == PROC_RELOAD_KILLOLD && v'.reloadTime == v.clock
           && Signals(v.log + [Released(Pids(v.buckets), v.clock - v.reloadTime)], v'.log, v.tag.value * v.alive, false)
         else v'.reload == PROC_RELOAD_WAIT_NEW && v'.reloadTime == v.reloadTime && v'.log == v.log
    case PROC_RELOAD_KILLOLD =>
      && v'.reload == PROC_RELOAD_CLEAR && v'.reloadTime == v.clock && v'.tag == v.tag && v.tag.Some?
      && Signals(v.log, v'.log, v.tag.value * v.alive, false)
    case _ =>
      && v.tag.Some?
      && if v.tag.value !! v.alive then
           && v'.reload == PROC_RELOAD_NORMAL && v'.reloadTime == v.clock && v'.tag == None
           && v'.log == v.log + [Settled(v.alive)]
         else
           && v'.reload == PROC_RELOAD_CLEAR && v'.reloadTime == v.reloadTime && v'.tag == v.tag
           && Signals(v.log, v'.log, if v.clock - v.reloadTime > 30 then v.tag.value * v.alive else {}, true)
  }

  /** The number of processes check_group goes for: the nearer bound, or one more or less inside them. */
  function Target(count: int, min: nat, max: nat, busy: bool): int
  {
    if count < min then min
    else if count > max then max
    else if busy then (if count < max then count + 1 else count)
    else if count > min then count - 1 else count
  }

  /** How many it starts, at most once in a while. */
  function Forks(count: int, min: nat, max: nat, busy: bool, adjustTime: int, clock: int): nat
  {
    if adjustTime + ADJUST_PROC_DELAY > clock then 0
    else if Target(count, min, max, busy) > count then Target(count, min, max, busy) - count else 0
  }

  ghost function Forking(n: nat): seq<Entry>
  {
    if n > 0 then [Forked(n)] else []
  }

  /** One round of do_check over a group that is in use. */
  ghost predicate Checked(v: View, busy: bool, v': View)
  {
    if v.reload == PROC_RELOAD_NORMAL then
      var forks := Forks(v.count, v.min, v.max, busy, v.adjustTime, v.clock);
      && v'.reload == v.reload && v'.reloadTime == v.reloadTime && v'.tag == v.tag
      && Quietly(v.log + Forking(forks), v'.log) && (forks > 0 ==> v'.adjustTime == v.clock)
      && (v.adjustTime + ADJUST_PROC_DELAY <= v.clock ==> v'.count + forks <= Target(v.count, v.min, v.max, busy))
      && v'.adjustTime in {v.adjustTime, v.clock} && Pids(v'.buckets) <= Pids(v.buckets)
      && Weeded(v'.buckets, BUCKET_SIZE, 0, v.clock - v.heartbeat, v.stuck)
      && (v.adjustTime + ADJUST_PROC_DELAY > v.clock ==> Kept(v.buckets, v'.buckets, v.clock - v.heartbeat))
    else
      && Moved(v, v') && v'.buckets == v.buckets && v'.count == v.count && v'.queue == v.queue
      && v'.adjustTime == v.adjustTime
  }

  class CProcGroup {

    const exceptionRestart: bool
    var buckets: seq<seq<Proc>>
    var curprocnum: int
    var reload: nat
    var reloadTime: int
    var minprocnum: nat
    var maxprocnum: nat
    var heartbeat: nat
    var adjustTime: int
    var reloadTag: Option<set<nat>>
    var queue: seq<Msg>
    var clock: int
    var alive: set<nat>
    var stuck: set<nat>
    ghost var log: seq<Entry>

    ghost predicate Valid()
      reads this
    {
      Sound(log, buckets, curprocnum, reload, reloadTag, minprocnum)
    }

    ghost function Now(): View
      reads this
    {
      View(buckets, curprocnum, reload, reloadTime, minprocnum, maxprocnum, heartbeat, adjustTime, reloadTag, queue,
        clock, alive, stuck, log)
    }

    constructor (min: nat, max: nat, hb: nat, restart: bool, now: int)
      ensures Valid() && reload == PROC_RELOAD_NORMAL && Pids(buckets) == {} && log == [] && queue == []
      ensures curprocnum == 0 && exceptionRestart == restart && stuck == {} && heartbeat == hb
    {
      exceptionRestart := restart;
      buckets := seq(BUCKET_SIZE, _ => []);
      curprocnum := 0;
      reload := PROC_RELOAD_NORMAL;
      reloadTime := now;
      minprocnum, maxprocnum, heartbeat, adjustTime := min, max, hb, 0;
      reloadTag := None;
      queue := [];
      clock := now;
      alive, stuck := {}, {};
      log := [];
      new;
      EmptyTable(buckets);
    }

    /** find_proc: the place of the pid in its bucket, or the end of it. */
    method FindProc(pid: nat) returns (i: nat)
      requires Table(buckets)
      ensures i <= |buckets[pid % BUCKET_SIZE]|
      ensures i < |buckets[pid % BUCKET_SIZE]| <==> pid in Pids(buckets)
      ensures i < |buckets[pid % BUCKET_SIZE]| ==> buckets[pid % BUCKET_SIZE][i].pid == pid
    {
      hide Bucket, PidsIn, Pids;
      Home(buckets, pid);
      var bucket := buckets[pid % BUCKET_SIZE];
      i := 0;
      while i < |bucket|
        invariant i <= |bucket|
        invariant forall j :: 0 <= j < i ==> bucket[j].pid != pid
      {
        if bucket[i].pid == pid {
          PidAt(bucket, i);
          return;
        }
        i := i + 1;
      }
      PidAbsent(bucket, pid);
    }

    method AddProc(proc: Proc, ghost ready: bool)
      requires Valid() && proc.pid !in Pids(buckets)
      requires reload == PROC_RELOAD_NORMAL || (ready && proc.pid !in reloadTag.value)
      modifies this`buckets, this`curprocnum, this`log
      ensures Valid() && Pids(buckets) == old(Pids(buckets)) + {proc.pid} && curprocnum == old(curprocnum) + 1
      ensures buckets[proc.pid % BUCKET_SIZE] == [proc] + old(buckets)[proc.pid % BUCKET_SIZE]
      ensures log == old(log) + [Listed(proc.pid, ready)]
    {
      hide Bucket, PidsIn, Pids, Size, Replay;
      Added(buckets, proc);
      SoundAdded(log, buckets, curprocnum, reload, reloadTag, minprocnum, proc, ready);
      var b := proc.pid % BUCKET_SIZE;
      buckets := buckets[b := [proc] + buckets[b]];
      curprocnum := curprocnum + 1;
      log := log + [Listed(proc.pid, ready)];
    }

    /** del_proc: the count goes down whether or not the process is listed, so the count keeps in step with the
        buckets exactly when it is. */
    method DelProc(pid: nat)
      requires Valid()
      modifies this`buckets, this`curprocnum, this`log
      ensures Valid() && buckets == Drop(old(buckets), pid) && Pids(buckets) == old(Pids(buckets)) - {pid}
      ensures curprocnum == old(curprocnum) - 1
      ensures Size(buckets) == old(Size(buckets)) - (if pid in old(Pids(buckets)) then 1 else 0)
      ensures curprocnum - |Pids(buckets)| == old(curprocnum - |Pids(buckets)|) <==> pid in old(Pids(buckets))
      ensures log == old(log) + (if pid in old(Pids(buckets)) then [] else [Doubled(pid)])
    {
      hide Bucket, PidsIn, Pids, Size, Replay, Sans;
      SoundDropped(log, buckets, curprocnum, reload, reloadTag, minprocnum, pid);
      Dropped(buckets, pid);
      var i := FindProc(pid);
      var b := pid % BUCKET_SIZE;
      log := log + (if pid in Pids(buckets) then [] else [Doubled(pid)]);
      if i < |buckets[b]| {
        SansCut(buckets[b], i, b);
        buckets := buckets[b := Cut(buckets[b], i)];
      } else {
        DropAbsent(buckets, pid);
      }
      curprocnum := curprocnum - 1;
    }

    method CheckReloadOldProc(pid: nat) returns (r: bool)
      ensures r <==> reloadTag.Some? && pid in reloadTag.value
    {
      r := reloadTag.Some? && pid in reloadTag.value;
    }

    /** The process of this report would be put into the buckets. */
    ghost predicate Enters(pid: nat, initialising: bool)
      requires Valid()
      reads this
    {
      && curprocnum != GROUP_UNUSED && pid !in Pids(buckets)
      && (reload == PROC_RELOAD_NORMAL || (!initialising && pid !in reloadTag.value))
    }

    /** A health report in do_recv. */
    method RecvInfo(proc: Proc, initialising: bool)
      requires Valid()
      modifies this`buckets, this`curprocnum, this`log
      ensures Valid()
      ensures Pids(buckets) == old(Pids(buckets)) + (if old(Enters(proc.pid, initialising)) then {proc.pid} else {})
      ensures curprocnum == old(curprocnum) + (if old(Enters(proc.pid, initialising)) then 1 else 0)
      ensures log == old(log) + (if old(Enters(proc.pid, initialising)) then [Listed(proc.pid, !initialising)] else [])
      ensures old(curprocnum) != GROUP_UNUSED && proc.pid in Pids(buckets) ==> proc in buckets[proc.pid % BUCKET_SIZE]
      ensures old(curprocnum) == GROUP_UNUSED ==> buckets == old(buckets)
      ensures proc.pid in old(Pids(buckets)) ==> Drop(buckets, proc.pid) == old(Drop(buckets, proc.pid))
    {
      hide Bucket, PidsIn, Pids, Size, Replay, Drop;
      if curprocnum == GROUP_UNUSED {
        return;
      }
      var i := FindProc(proc.pid);
      var b := proc.pid % BUCKET_SIZE;
      if i < |buckets[b]| {
        SoundRefreshed(log, buckets, curprocnum, reload, reloadTag, minprocnum, i, proc);
        buckets := buckets[b := buckets[b][i := proc]];
      } else if reload == PROC_RELOAD_NORMAL {
        AddProc(proc, !initialising);
      } else if !initialising {
        var recorded := CheckReloadOldProc(proc.pid);
        if !recorded {
          AddProc(proc, true);
        }
      }
    }

    /** The queued reports of a fatal signal that do_recv(pid) would act on. */
    ghost function Effective(pid: nat): nat
      reads this
    {
      if !exceptionRestart || pid in stuck || curprocnum == GROUP_UNUSED then 0 else Reports(queue, pid)
    }

    /** msgrcv for one type: the place of the first message of it, or the end of the queue. */
    method FindMsg(pid: nat) returns (i: nat)
      ensures i <= |queue| && (i < |queue| ==> Of(queue[i], pid)) && forall j :: 0 <= j < i ==> !Of(queue[j], pid)
    {
      i := 0;
      while i < |queue| && !Of(queue[i], pid)
        invariant i <= |queue| && forall j :: 0 <= j < i ==> !Of(queue[j], pid)
      {
        i := i + 1;
      }
    }

    /** The process is out of the buckets and its messages are out of the queue, but the count has gone down once for it
        and once more for each of its queued reports of a fatal signal. */
    twostate predicate Retired(pid: nat)
      reads this
    {
      && |old(buckets)| == BUCKET_SIZE && buckets == Drop(old(buckets), pid)
         && Pids(buckets) == old(Pids(buckets)) - {pid}
      && queue == Without(old(queue), pid)
      && curprocnum == old(curprocnum) - 1 - old(Effective(pid)) && log == old(log) + Doubles(pid, old(Effective(pid)))
    }

    /** What do_recv(pid) has made of the messages it has taken so far. */
    twostate predicate Received(pid: nat)
      reads this
    {
      && |buckets| == |old(buckets)| == BUCKET_SIZE && Drop(buckets, pid) == Drop(old(buckets), pid)
      && Without(queue, pid) == Without(old(queue), pid) && |queue| <= |old(queue)|
      && if pid in Pids(buckets) then
           && Pids(buckets) == old(Pids(buckets)) && curprocnum == old(curprocnum)
           && Effective(pid) == old(Effective(pid)) && log == old(log)
         else
           && Pids(buckets) == old(Pids(buckets)) - {pid} && queue == Without(queue, pid) && old(Effective(pid)) > 0
           && curprocnum == old(curprocnum) - old(Effective(pid))
              && log == old(log) + Doubles(pid, old(Effective(pid)) - 1)
    }

    /** do_recv(pid) takes the message at i. */
    method RecvOne(pid: nat, i: nat)
      requires Valid() && pid in Pids(buckets)
      requires i < |queue| && Of(queue[i], pid) && forall j :: 0 <= j < i ==> !Of(queue[j], pid)
      modifies this`buckets, this`curprocnum, this`adjustTime, this`queue, this`log
      ensures Valid() && Received(pid) && |queue| < old(|queue|)
      ensures adjustTime == old(adjustTime) || adjustTime == clock
      decreases |queue|, 0
    {
      hide Bucket, PidsIn, Pids, Size, Replay, Sans, Without, Reports;
      var msg := queue[i];
      TakenFirst(queue, pid, i);
      queue := Cut(queue, i);
      NothingLeft(queue, pid);
      if !msg.exception {
        RecvInfo(msg.proc, msg.initialising);
      } else if exceptionRestart {
        ProcessException(pid);
        if pid !in Pids(buckets) {
          DropAbsent(buckets, pid);
        }
      }
    }

    /** do_recv(pid) for a listed process. Every report of a fatal signal among its messages takes the process out of
        the buckets once more. */
    method DoRecvOf(pid: nat)
      requires Valid() && pid in Pids(buckets)
      modifies this`buckets, this`curprocnum, this`adjustTime, this`queue, this`log
      ensures Valid() && queue == Without(old(queue), pid) && Drop(buckets, pid) == Drop(old(buckets), pid)
      ensures (adjustTime == old(adjustTime) || adjustTime == clock)
      ensures Pids(buckets) == old(Pids(buckets)) - (if old(Effective(pid)) > 0 then {pid} else {})
      ensures curprocnum == old(curprocnum) - old(Effective(pid))
      ensures log == old(log) + Doubles(pid, if old(Effective(pid)) > 0 then old(Effective(pid)) - 1 else 0)
      decreases |queue|, 1
    {
      hide Bucket, PidsIn, Pids, Size, Replay, Sans, Without, Reports;
      var i := FindMsg(pid);
      while i < |queue|
        invariant Valid() && Received(pid) && (adjustTime == old(adjustTime) || adjustTime == clock)
        invariant 0 <= i <= |queue| && (i < |queue| ==> Of(queue[i], pid)) && forall j :: 0 <= j < i ==>
                  !Of(queue[j], pid)
        decreases |queue|
      {
        NothingLeft(queue, pid);
        RecvOne(pid, i);
        i := FindMsg(pid);
      }
      NoneLeft(queue, pid);
    }

    /** do_recv(pid) and then del_proc, as PROCUP and PROCDEAD do. `stale` says that del_proc is asked to take out a
        process that is no longer listed; PROCDEAD has then read its pid from the freed record. */
    method Retire(pid: nat) returns (stale: bool)
      requires Valid() && pid in Pids(buckets)
      modifies this`buckets, this`curprocnum, this`adjustTime, this`queue, this`log
      ensures Valid() && Retired(pid) && (stale <==> old(Effective(pid)) > 0)
      ensures adjustTime == old(adjustTime) || adjustTime == clock
      decreases |queue|, 2
    {
      hide Sound, Table, Pids, Size, Replay, Drop, Without, Reports;
      SoundBuckets(log, buckets, curprocnum, reload, reloadTag, minprocnum);
      DoRecvOf(pid);
      SoundBuckets(log, buckets, curprocnum, reload, reloadTag, minprocnum);
      var i := FindProc(pid);
      stale := i == |buckets[pid % BUCKET_SIZE]|;
      ghost var n := old(Effective(pid));
      DelProc(pid);
      if n > 0 {
        assert log == old(log) + (Doubles(pid, n - 1) + [Doubled(pid)]);
      }
    }

    /** The PROCDEAD event: the process is signalled, and leaves the buckets once it is gone. */
    method ProcDead(pid: nat) returns (changed: bool)
      requires Valid() && pid in Pids(buckets)
      modifies this`buckets, this`curprocnum, this`adjustTime, this`queue, this`log
      ensures Valid() && (changed <==> pid !in stuck) && (adjustTime == old(adjustTime) || adjustTime == clock)
      ensures if changed then Retired(pid)
              else buckets == old(buckets) && queue == old(queue) && curprocnum == old(curprocnum) && log == old(log)
      decreases |queue|, 3
    {
      changed := false;
      if pid !in stuck {
        var _ := Retire(pid);
        changed := true;
      }
    }

    /** process_exception: a listed process that reports a fatal signal leaves the buckets once it is gone. */
    method ProcessException(pid: nat)
      requires Valid()
      modifies this`buckets, this`curprocnum, this`adjustTime, this`queue, this`log
      ensures Valid() && (adjustTime == old(adjustTime) || adjustTime == clock)
      ensures if old(curprocnum != GROUP_UNUSED && pid in Pids(buckets) && pid !in stuck) then Retired(pid)
              else buckets == old(buckets) && queue == old(queue) && curprocnum == old(curprocnum) && log == old(log)
      decreases |queue|, 4
    {
      hide Bucket, PidsIn, Pids, Size, Replay, Drop, Without, Reports;
      if curprocnum == GROUP_UNUSED {
        return;
      }
      assert Table(buckets);
      var i := FindProc(pid);
      if i < |buckets[pid % BUCKET_SIZE]| {
        adjustTime := clock;
        var _ := ProcDead(pid);
      }
    }

    /** What the queue makes of the listed processes and their count. */
    ghost function Hears(): Tally
      reads this
    {
      Heard(Tally(Pids(buckets), curprocnum), queue, reload, reloadTag, stuck, exceptionRestart)
    }

    /** The first message in do_recv(0). */
    method RecvNext()
      requires Valid() && queue != []
      modifies this`buckets, this`curprocnum, this`adjustTime, this`queue, this`log
      ensures Valid() && |queue| < |old(queue)| && Quietly(old(log), log) && Hears() == old(Hears())
      ensures (adjustTime == old(adjustTime) || adjustTime == clock)
      ensures !exceptionRestart || Single(old(queue)) ==>
                (exceptionRestart ==> Single(queue)) && Replay(log).value.owed == old(Replay(log).value.owed)
      ensures old(curprocnum) == GROUP_UNUSED ==>
              buckets == old(buckets) && curprocnum == GROUP_UNUSED && log == old(log)
    {
      hide Bucket, PidsIn, Pids, Size, Replay, Sans, Without, Reports, Quietly;
      var msg := queue[0];
      var pid := msg.proc.pid;
      assert Pids(buckets) + {} == Pids(buckets);
      queue := queue[1..];
      NothingLeft(queue, pid);
      assert log + [] == log;
      QuietlyAtOnce(log);
      if !msg.exception {
        ReplayMore(log, Listed(pid, !msg.initialising));
        QuietlyOne(log, Listed(pid, !msg.initialising));
        RecvInfo(msg.proc, msg.initialising);
      } else if exceptionRestart {
        if Single(queue) {
          SingleWithout(queue, pid);
        }
        assert Doubles(pid, 0) == [];
        QuietlyDoubles(log, pid, Effective(pid));
        ProcessException(pid);
      }
    }

    /** do_recv(0): every queued message in its turn. */
    method DoRecv()
      requires Valid()
      modifies this`buckets, this`curprocnum, this`adjustTime, this`queue, this`log
      ensures Valid() && queue == [] && Quietly(old(log), log) && (adjustTime == old(adjustTime) || adjustTime == clock)
      ensures Tally(Pids(buckets), curprocnum) ==
              old(Heard(Tally(Pids(buckets), curprocnum), queue, reload, reloadTag, stuck, exceptionRestart))
      ensures !exceptionRestart || Single(old(queue)) ==> curprocnum - Size(buckets) == old(curprocnum - Size(buckets))
      ensures old(curprocnum) == GROUP_UNUSED ==>
              buckets == old(buckets) && curprocnum == GROUP_UNUSED && log == old(log)
    {
      hide Bucket, PidsIn, Pids, Size, Replay, Quietly, Single;
      QuietlyAtOnce(log);
      while queue != []
        invariant Valid() && Quietly(old(log), log) && Hears() == old(Hears())
        invariant adjustTime == old(adjustTime) || adjustTime == clock
        invariant !exceptionRestart || Single(old(queue)) ==>
                    (exceptionRestart ==> Single(queue)) && Replay(log).value.owed == old(Replay(log).value.owed)
        invariant old(curprocnum) == GROUP_UNUSED ==>
                  buckets == old(buckets) && curprocnum == GROUP_UNUSED && log == old(log)
        decreases |queue|
      {
        ghost var log0 := log;
        RecvNext();
        QuietlyTwice(old(log), log0, log);
      }
    }

    /** The loop of pre_reload_group: the listed processes, each taken off the front of its bucket. */
    method TakeAll() returns (procmap: set<nat>)
      requires Valid() && reload == PROC_RELOAD_NORMAL
      modifies this`buckets, this`curprocnum, this`log
      ensures Valid() && log == old(log)
      ensures Size(buckets) == 0 && Pids(buckets) == {} && procmap == old(Pids(buckets))
    {
      hide Bucket, PidsIn, Pids, Size, Replay, Sans;
      procmap := {};
      var i := 0;
      while i < BUCKET_SIZE
        invariant 0 <= i <= BUCKET_SIZE && Valid() && log == old(log)
        invariant procmap + Pids(buckets) == old(Pids(buckets))
        invariant forall b :: 0 <= b < i ==> buckets[b] == []
        decreases BUCKET_SIZE - i, Size(buckets)
      {
        if buckets[i] == [] {
          i := i + 1;
        } else {
          PidHashes(buckets, i, 0);
          var pid := buckets[i][0].pid;
          procmap := procmap + {pid};
          DelProc(pid);
        }
      }
      EmptyTable(buckets);
    }

    /** pre_reload_group, for a group that is not being reloaded: every listed process is recorded and leaves, and the
        count starts again at zero. */
    method PreReloadGroup(min: nat, max: nat, hb: nat)
      requires Valid() && reload == PROC_RELOAD_NORMAL
      modifies this
      ensures Valid() && reload == PROC_RELOAD_START && reloadTime == clock && curprocnum == 0 && Size(buckets) == 0
      ensures reloadTag == Some(old(Pids(buckets))) && Pids(buckets) == {}
      ensures minprocnum == min && maxprocnum == max && heartbeat == hb && clock == old(clock) && alive == old(alive)
      ensures stuck == old(stuck)
              && queue == old(queue)
      ensures log == old(log) + [Began(old(Pids(buckets)), min)]
    {
      hide Table, Pids, Size, Replay;
      var procmap := TakeAll();
      reloadTag := Some(procmap);
      ReplayMore(log, Began(procmap, min));
      log := log + [Began(procmap, min)];
      minprocnum, maxprocnum, heartbeat, adjustTime := min, max, hb, 0;
      reload := PROC_RELOAD_START;
      reloadTime := clock;
      curprocnum := 0;
    }

    /** reload_kill_group: exactly the recorded processes that are still alive are signalled. */
    method ReloadKillGroup(hard: bool)
      requires Replay(log).Some?
               && (reloadTag.Some? ==> Replay(log).value.Killing? && Replay(log).value.olds == reloadTag.value)
      modifies this`log
      ensures Replay(log) == old(Replay(log)) && old(log) <= log
      ensures Signals(old(log), log, if reloadTag.Some? then reloadTag.value * alive else {}, hard)
    {
      hide Replay, Signals;
      SignalsNobody(log, hard);
      if reloadTag.None? {
        return;
      }
      var todo, told := reloadTag.value, {};
      while todo != {}
        invariant todo <= reloadTag.value && Replay(log) == old(Replay(log))
        invariant told == (reloadTag.value - todo) * alive && Signals(old(log), log, told, hard)
        decreases |todo|
      {
        var pid :| pid in todo;
        todo := todo - {pid};
        if pid !in alive {
          assert told == (reloadTag.value - todo) * alive;
          continue;
        }
        ReplayMore(log, Signalled(pid, hard));
        SignalsMore(old(log), log, told, hard, pid);
        log := log + [Signalled(pid, hard)];
        told := told + {pid};
        assert told == (reloadTag.value - todo) * alive;
      }
      assert told == reloadTag.value * alive;
      SignalsGrow(old(log), log, told, hard);
    }

    /** reload_check_group_dead: true exactly when no recorded process is alive, and then the record goes. */
    method ReloadCheckGroupDead() returns (r: bool)
      modifies this`reloadTag
      ensures r <==> old(reloadTag.None?) || old(reloadTag).value !! alive
      ensures reloadTag == if r then None else old(reloadTag)
    {
      if reloadTag.None? {
        return true;
      }
      var todo := reloadTag.value;
      while todo != {}
        invariant todo <= reloadTag.value
        invariant forall pid :: pid in reloadTag.value && pid !in todo ==> pid !in alive
        decreases |todo|
      {
        var pid :| pid in todo;
        if pid in alive {
          return false;
        }
        todo := todo - {pid};
      }
      reloadTag := None;
      return true;
    }

    /** do_check of a group that is being reloaded. */
    method CheckReload()
      requires Valid() && reload != PROC_RELOAD_NORMAL && curprocnum != GROUP_UNUSED
      modifies this`reload, this`reloadTime, this`reloadTag, this`log
      ensures Valid() && old(log) <= log
      ensures Moved(old(Now()), Now())
    {
      hide Bucket, Pids, Size, Replay, Signals;
      SignalsNobody(log, true);
      TableSize(buckets);
      if reload == PROC_RELOAD_START {
        ReplayMore(log, Forked(minprocnum));
        log := log + [Forked(minprocnum)];
        reload, reloadTime := PROC_RELOAD_WAIT_NEW, clock;
      } else if reload == PROC_RELOAD_WAIT_NEW {
        if AsUnsigned(curprocnum) >= minprocnum || reloadTime + 30 < clock {
          ReplayMore(log, Released(Pids(buckets), clock - reloadTime));
          log := log + [Released(Pids(buckets), clock - reloadTime)];
          ReloadKillGroup(false);
          reload, reloadTime := PROC_RELOAD_KILLOLD, clock;
        }
      } else if reload == PROC_RELOAD_KILLOLD {
        ReloadKillGroup(false);
        reload, reloadTime := PROC_RELOAD_CLEAR, clock;
      } else {
        var dead := ReloadCheckGroupDead();
        if dead {
          ReplayMore(log, Settled(alive));
          log := log + [Settled(alive)];
          reload, reloadTime := PROC_RELOAD_NORMAL, clock;
        } else if reloadTime + 30 < clock {
          ReloadKillGroup(true);
        }
      }
    }

    /** The PROCUP loop: signals and takes out the first process of the first bucket that has one, `diff` times. The
        count goes down by as many exactly when none of them has a report of a fatal signal queued. */
    method Shrink(diff: nat) returns (killed: seq<nat>)
      requires Valid() && 0 < diff <= curprocnum
      modifies this`buckets, this`curprocnum, this`adjustTime, this`queue, this`log
      ensures Valid() && |killed| == diff && Distinct(killed) && Size(buckets) == old(Size(buckets)) - diff
      ensures forall pid :: pid in killed ==> pid in old(Pids(buckets)) && pid !in Pids(buckets)
      ensures forall pid :: pid in Pids(buckets) <==> pid in old(Pids(buckets)) && pid !in killed
      ensures curprocnum <= old(curprocnum) - diff && Quietly(old(log), log)
      ensures adjustTime == old(adjustTime) || adjustTime == clock
      ensures curprocnum == old(curprocnum) - diff <==> forall pid :: pid in killed ==> old(Effective(pid)) == 0
      ensures curprocnum == old(curprocnum) - diff ==> log == old(log)
      ensures NoReports(old(queue)) ==> NoReports(queue)
    {
      hide Bucket, PidsIn, Pids, Size, Replay, Sans, Without, Reports, NoReports;
      killed := [];
      var i := 0;
      while i < BUCKET_SIZE && |killed| < diff
        invariant 0 <= i <= BUCKET_SIZE && Valid() && |killed| <= diff && Distinct(killed)
        invariant Size(buckets) == old(Size(buckets)) - |killed|
        invariant forall pid :: pid in killed ==> pid in old(Pids(buckets)) && pid !in Pids(buckets)
        invariant forall pid :: pid in Pids(buckets) <==> pid in old(Pids(buckets)) && pid !in killed
        invariant curprocnum <= old(curprocnum) - |killed| && Quietly(old(log), log)
        invariant adjustTime == old(adjustTime) || adjustTime == clock
        invariant curprocnum == old(curprocnum) - |killed| <==> forall pid :: pid in killed ==> old(Effective(pid)) == 0
        invariant curprocnum == old(curprocnum) - |killed| ==> log == old(log)
        invariant NoReports(old(queue)) ==> NoReports(queue)
        invariant forall pid :: pid in Pids(buckets) ==> Reports(queue, pid) == old(Reports(queue, pid))
        invariant forall b :: 0 <= b < i ==> buckets[b] == []
        decreases BUCKET_SIZE - i, Size(buckets)
      {
        if buckets[i] == [] {
          i := i + 1;
        } else {
          PidHashes(buckets, i, 0);
          var pid := buckets[i][0].pid;
          ghost var before, log0 := queue, log;
          QuietlyDoubles(log, pid, Effective(pid));
          Dropped(buckets, pid);
          var _ := Retire(pid);
          if NoReports(before) {
            NoReportsWithout(before, pid);
          }
          forall r | r in Pids(buckets)
            ensures Reports(queue, r) == old(Reports(queue, r))
          {
            ReportsWithout(before, pid, r);
          }
          QuietlyTwice(old(log), log0, log);
          killed := killed + [pid];
        }
      }
      if i == BUCKET_SIZE {
        EmptyTable(buckets);
      }
    }

    /** do_fork. */
    ghost method Fork(n: nat)
      requires Valid() && n > 0 && reload == PROC_RELOAD_NORMAL
      modifies this`log
      ensures Valid() && log == old(log) + Forking(n) && Quietly(log, log)
    {
      hide Table, Pids, Size, Replay;
      ReplayMore(log, Forked(n));
      log := log + [Forked(n)];
    }

    /** check_group: how many processes to fork, or the group shrinks. Outside [min, max] the count is brought to the
        nearer bound; inside, it moves by one as the group is busy or not. It gets there exactly when no process that is
        taken out has a report of a fatal signal queued, and else it is left below. */
    method CheckGroup(busy: bool) returns (fork: nat, killed: seq<nat>)
      requires Valid() && reload == PROC_RELOAD_NORMAL
      modifies this`buckets, this`curprocnum, this`adjustTime, this`queue, this`log
      ensures Valid() && Quietly(old(log) + Forking(fork), log) && Pids(buckets) <= old(Pids(buckets))
      ensures fork == Forks(old(curprocnum), minprocnum, maxprocnum, busy, old(adjustTime), clock)
      ensures old(adjustTime) + ADJUST_PROC_DELAY > clock ==> killed == [] && unchanged(this)
      ensures old(adjustTime) + ADJUST_PROC_DELAY <= clock ==>
                var target := Target(old(curprocnum), minprocnum, maxprocnum, busy);
                && curprocnum + fork <= target
                && (curprocnum + fork == target <==> forall pid :: pid in killed ==> old(Effective(pid)) == 0)
      ensures (forall pid :: pid in killed ==> old(Effective(pid)) == 0) ==>
                log == old(log) + Forking(fork) && curprocnum - Size(buckets) == old(curprocnum - Size(buckets))
      ensures NoReports(old(queue)) ==> NoReports(queue)
      ensures adjustTime == if fork > 0 || killed != [] then clock else old(adjustTime)
    {
      hide Table, Pids, Size, Replay, Reports, Without, NoReports;
      fork, killed := 0, [];
      QuietlyAtOnce(log);
      assert log + [] == log;
      if adjustTime + ADJUST_PROC_DELAY > clock {
        return;
      }
      if minprocnum - curprocnum > 0 {
        adjustTime, fork := clock, minprocnum - curprocnum;
        Fork(fork);
      } else if curprocnum - maxprocnum > 0 {
        adjustTime := clock;
        killed := Shrink(curprocnum - maxprocnum);
      } else if !busy {
        if minprocnum < curprocnum {
          adjustTime := clock;
          killed := Shrink(1);
        }
      } else if maxprocnum > curprocnum {
        adjustTime, fork := clock, 1;
        Fork(fork);
      }
    }

    /** check_proc: a process without a heartbeat is signalled, and leaves once it is gone. */
    method CheckProc(b: nat, i: nat) returns (changed: bool)
      requires Valid() && b < BUCKET_SIZE && i < |buckets[b]|
      modifies this`buckets, this`curprocnum, this`adjustTime, this`queue, this`log
      ensures Valid() && (adjustTime == old(adjustTime) || adjustTime == clock)
      ensures changed <==> old(buckets[b][i].timestamp) < clock - heartbeat && old(buckets[b][i].pid) !in stuck
      ensures if changed then Retired(old(buckets[b][i].pid))
              else buckets == old(buckets) && queue == old(queue) && curprocnum == old(curprocnum) && log == old(log)
    {
      hide Bucket, PidsIn, Pids, Size, Replay, Sans, Reports, Without;
      changed := false;
      if buckets[b][i].timestamp < clock - heartbeat {
        adjustTime := clock;
        PidHashes(buckets, b, i);
        changed := ProcDead(buckets[b][i].pid);
      }
    }

    /** The loop of do_check over a group's processes, starting a bucket again whenever one of it was taken out. Those
        heard of in time stay, and of the others only those that outlive their exit signal. */
    method CheckProcs()
      requires Valid()
      modifies this`buckets, this`curprocnum, this`adjustTime, this`queue, this`log
      ensures Valid() && Quietly(old(log), log) && Pids(buckets) <= old(Pids(buckets))
      ensures (adjustTime == old(adjustTime) || adjustTime == clock) && curprocnum <= old(curprocnum)
      ensures Kept(old(buckets), buckets, clock - heartbeat)
              && Weeded(buckets, BUCKET_SIZE, 0, clock - heartbeat, stuck)
      ensures !exceptionRestart || NoReports(old(queue)) ==>
              curprocnum - Size(buckets) == old(curprocnum - Size(buckets))
      ensures NoReports(old(queue)) ==> NoReports(queue)
    {
      hide Bucket, PidsIn, Pids, Size, Replay, Kept, Weeded, Sans, Reports, Without, NoReports;
      var b, i := 0, 0;
      var cutoff := clock - heartbeat;
      KeptAtOnce(buckets, cutoff);
      WeededNone(buckets, cutoff, stuck);
      while b < BUCKET_SIZE
        invariant Valid() && 0 <= b <= BUCKET_SIZE && 0 <= i && (b < BUCKET_SIZE ==> i <= |buckets[b]|)
        invariant b == BUCKET_SIZE ==> i == 0
        invariant Quietly(old(log), log) && Pids(buckets) <= old(Pids(buckets))
        invariant (adjustTime == old(adjustTime) || adjustTime == clock) && curprocnum <= old(curprocnum)
        invariant Kept(old(buckets), buckets, cutoff) && Weeded(buckets, b, i, cutoff, stuck)
        invariant !exceptionRestart || NoReports(old(queue)) ==>
                    curprocnum - Size(buckets) == old(curprocnum - Size(buckets))
        invariant NoReports(old(queue)) ==> NoReports(queue)
        decreases BUCKET_SIZE - b, Size(buckets), if b < BUCKET_SIZE then |buckets[b]| - i else 0
      {
        if i == |buckets[b]| {
          WeededBucket(buckets, b, cutoff, stuck);
          b, i := b + 1, 0;
        } else {
          ghost var before, mail, log0 := buckets, queue, log;
          ghost var pid := buckets[b][i].pid;
          QuietlyDoubles(log, pid, Effective(pid));
          var changed := CheckProc(b, i);
          if changed {
            KeptWithout(old(buckets), before, cutoff, b, i);
            QuietlyTwice(old(log), log0, log);
            WeededAgain(before, b, i, cutoff, stuck);
            PidHashes(before, b, i);
            Dropped(before, pid);
            if NoReports(mail) {
              NoReportsWithout(mail, pid);
              NoneReports(mail, pid);
            }
            i := 0;
          } else {
            WeededOne(buckets, b, i, cutoff, stuck);
            i := i + 1;
          }
        }
      }
    }

    /** do_check for this group. */
    method DoCheck(busy: bool)
      requires Valid()
      modifies this
      ensures Valid() && old(log) <= log && clock == old(clock) && alive == old(alive) && stuck == old(stuck)
      ensures !exceptionRestart || NoReports(old(queue)) ==>
              curprocnum - Size(buckets) == old(curprocnum - Size(buckets))
      ensures NoReports(old(queue)) ==> NoReports(queue)
      ensures old(curprocnum) == GROUP_UNUSED ==> unchanged(this)
      ensures old(curprocnum) != GROUP_UNUSED ==> Checked(old(Now()), busy, Now())
    {
      hide Bucket, PidsIn, Pids, Size, Replay, Kept, Weeded, Sans, Reports, Without, NoReports;
      if curprocnum != GROUP_UNUSED {
        if reload > 0 {
          CheckReload();
        } else {
          ghost var mail := queue;
          if NoReports(mail) {
            forall pid: nat
              ensures Reports(mail, pid) == 0
            {
              NoneReports(mail, pid);
            }
          }
          var fork, _ := CheckGroup(busy);
          ghost var log1 := log;
          CheckProcs();
          QuietlyTwice(old(log) + Forking(fork), log1, log);
        }
      }
    }
  }

  datatype Event =
    | Post(msg: Msg)
    | Receive
    | Check(busy: bool)
    | Reload(min: nat, max: nat, heartbeat: nat)
    | World(clock: int, alive: set<nat>, stuck: set<nat>)

  /** What each event does: it is queued, the queue is read to its end, the group is checked, a reload begins. */
  ghost predicate Stepped(restart: bool, v: View, e: Event, v': View)
  {
    match e
    case Post(msg) => v' == v.(queue := v.queue + [msg])
    case Receive =>
      && v'.queue == [] && v'.reload == v.reload && v'.reloadTime == v.reloadTime && v'.tag == v.tag
      && v'.clock == v.clock && Quietly(v.log, v'.log) && v'.adjustTime in {v.adjustTime, v.clock}
      && Tally(Pids(v'.buckets), v'.count) ==
         Heard(Tally(Pids(v.buckets), v.count), v.queue, v.reload, v.tag, v.stuck, restart)
    case Check(busy) => if v.count == GROUP_UNUSED then v' == v else v'.clock == v.clock && Checked(v, busy, v')
    case Reload(min, max, heartbeat) =>
      if v.reload != PROC_RELOAD_NORMAL then v' == v
      else
        && v'.reload == PROC_RELOAD_START && v'.reloadTime == v.clock && v'.tag == Some(Pids(v.buckets))
        && Pids(v'.buckets) == {} && v'.count == 0
        && v'.min == min && v'.max == max && v'.heartbeat == heartbeat && v'.queue == v.queue && v'.clock == v.clock
        && v'.log == v.log + [Began(Pids(v.buckets), min)]
    case World(clock, alive, stuck) =>
      v' == if clock >= v.clock && (v.tag.Some? ==> alive * v.tag.value <= v.alive)
            then v.(clock := clock, alive := alive, stuck := stuck) else v
  }

  ghost predicate StepAt(restart: bool, trace: seq<View>, events: seq<Event>, k: nat)
  {
    k < |events| && k + 1 < |trace| && Stepped(restart, trace[k], events[k], trace[k + 1])
  }

  /** The states a run goes through. */
  ghost predicate RunOf(restart: bool, trace: seq<View>, events: seq<Event>)
  {
    |trace| == |events| + 1 && forall k :: 0 <= k < |events| ==> StepAt(restart, trace, events, k)
  }

  lemma StepLogs(restart: bool, v: View, e: Event, v': View)
    requires Stepped(restart, v, e, v')
    ensures v.log <= v'.log
  {
    hide Pids, Heard, Weeded, Kept, AsUnsigned;
  }

  /** A state of a reload is entered from the one before it, by a check, at its time. */
  lemma StepEnters(restart: bool, v: View, e: Event, v': View)
    requires Stepped(restart, v, e, v') && v.reload <= PROC_RELOAD_CLEAR && v'.reload != PROC_RELOAD_NORMAL
    ensures v'.reload == v.reload ==> v'.reloadTime == v.reloadTime
    ensures v'.reload == PROC_RELOAD_WAIT_NEW && v.reload != v'.reload ==>
              e.Check? && v.reload == PROC_RELOAD_START && v'.reloadTime == v.clock
    ensures v'.reload == PROC_RELOAD_CLEAR && v.reload != v'.reload ==>
              e.Check? && v.reload == PROC_RELOAD_KILLOLD && v'.reloadTime == v.clock
  {
    hide Pids, Heard, Weeded, Kept, Signals, Quietly, AsUnsigned;
  }

  /** Who logs that a reload is released, or a SIGKILL. */
  lemma StepActs(restart: bool, v: View, e: Event, v': View, i: nat)
    requires Stepped(restart, v, e, v') && |v.log| <= i < |v'.log| && v.reload <= PROC_RELOAD_CLEAR
    ensures v'.log[i].Released? ==>
              && e.Check? && v.reload == PROC_RELOAD_WAIT_NEW && v'.reload == PROC_RELOAD_KILLOLD && i == |v.log|
              && v'.log[i] == Released(Pids(v.buckets), v.clock - v.reloadTime)
              && (AsUnsigned(v.count) >= v.min || v.clock - v.reloadTime > 30)
    ensures v'.log[i].Signalled? && v'.log[i].hard ==>
              && e.Check? && v.reload == PROC_RELOAD_CLEAR && v.clock - v.reloadTime > 30
              && v.tag.Some? && v'.log[i].pid in v.tag.value * v.alive
  {
    hide Pids, Heard, Weeded, Kept, AsUnsigned;
  }

  /** The event that logged an entry. */
  lemma {:induction false} Logged(restart: bool, trace: seq<View>, events: seq<Event>, n: nat, i: nat)
      returns (k: nat)
    requires RunOf(restart, trace, events) && n <= |events| && |trace[0].log| <= i < |trace[n].log|
    ensures k < n && |trace[k].log| <= i < |trace[k + 1].log| && trace[k + 1].log[i] == trace[n].log[i]
    decreases n
  {
    hide Stepped;
    assert StepAt(restart, trace, events, n - 1);
    StepLogs(restart, trace[n - 1], events[n - 1], trace[n]);
    if i < |trace[n - 1].log| {
      k := Logged(restart, trace, events, n - 1, i);
    } else {
      k := n - 1;
    }
  }

  /** The event that began the state of a reload. */
  lemma {:induction false} Since(restart: bool, trace: seq<View>, events: seq<Event>, k: nat) returns (j: nat)
    requires RunOf(restart, trace, events) && k <= |events| && trace[0].reload <= PROC_RELOAD_CLEAR
    requires trace[k].reload != PROC_RELOAD_NORMAL && trace[k].reload != trace[0].reload
    ensures j < k && trace[j].reload != trace[k].reload
    ensures forall m :: j < m <= k ==> trace[m].reload == trace[k].reload && trace[m].reloadTime == trace[k].reloadTime
    decreases k
  {
    hide Stepped;
    assert StepAt(restart, trace, events, k - 1);
    StatesKnown(restart, trace, events, k - 1);
    StepEnters(restart, trace[k - 1], events[k - 1], trace[k]);
    if trace[k - 1].reload == trace[k].reload {
      j := Since(restart, trace, events, k - 1);
    } else {
      j := k - 1;
    }
  }

  lemma {:induction false} StatesKnown(restart: bool, trace: seq<View>, events: seq<Event>, k: nat)
    requires RunOf(restart, trace, events) && k <= |events| && trace[0].reload <= PROC_RELOAD_CLEAR
    ensures trace[k].reload <= PROC_RELOAD_CLEAR
  {
    hide Pids, Heard, Weeded, Kept, Signals, Quietly, AsUnsigned;
    if k > 0 {
      StatesKnown(restart, trace, events, k - 1);
      assert StepAt(restart, trace, events, k - 1);
    }
  }

  /** Over any run: a reload that was released had enough processes counted, the count taken as unsigned, or more than
      30 seconds had passed on the clock since the check that started the new processes. */
  lemma ReleasedInTime(restart: bool, trace: seq<View>, events: seq<Event>, i: nat) returns (j: nat, k: nat)
    requires RunOf(restart, trace, events) && |trace[0].log| <= i < |trace[|events|].log|
    requires trace[|events|].log[i].Released?
    requires trace[0].reload <= PROC_RELOAD_CLEAR && trace[0].reload != PROC_RELOAD_WAIT_NEW
    ensures j < k < |events| && events[j].Check? && events[k].Check? && i == |trace[k].log|
    ensures trace[j].reload == PROC_RELOAD_START && trace[k + 1].reload == PROC_RELOAD_KILLOLD
    ensures forall m :: j < m <= k ==> trace[m].reload == PROC_RELOAD_WAIT_NEW
    ensures trace[|events|].log[i] == Released(Pids(trace[k].buckets), trace[k].clock - trace[j].clock)
    ensures AsUnsigned(trace[k].count) >= trace[k].min || trace[k].clock - trace[j].clock > 30
  {
    hide Stepped, Pids, AsUnsigned;
    k := Logged(restart, trace, events, |events|, i);
    StatesKnown(restart, trace, events, k);
    assert StepAt(restart, trace, events, k);
    StepActs(restart, trace[k], events[k], trace[k + 1], i);
    j := Since(restart, trace, events, k);
    assert StepAt(restart, trace, events, j);
    StatesKnown(restart, trace, events, j);
    StepEnters(restart, trace[j], events[j], trace[j + 1]);
  }

  /** And a process that was sent SIGKILL was recorded and alive more than 30 seconds after the check that signalled the
      old processes for the second time. */
  lemma KilledInTime(restart: bool, trace: seq<View>, events: seq<Event>, i: nat) returns (j: nat, k: nat)
    requires RunOf(restart, trace, events) && |trace[0].log| <= i < |trace[|events|].log|
    requires trace[|events|].log[i].Signalled? && trace[|events|].log[i].hard
    requires trace[0].reload < PROC_RELOAD_CLEAR
    ensures j < k < |events| && events[j].Check? && events[k].Check?
    ensures trace[j].reload == PROC_RELOAD_KILLOLD && forall m :: j < m <= k ==> trace[m].reload == PROC_RELOAD_CLEAR
    ensures trace[k].clock - trace[j].clock > 30
    ensures trace[k].tag.Some? && trace[|events|].log[i].pid in trace[k].tag.value * trace[k].alive
  {
    hide Stepped, Pids, AsUnsigned;
    k := Logged(restart, trace, events, |events|, i);
    StatesKnown(restart, trace, events, k);
    assert StepAt(restart, trace, events, k);
    StepActs(restart, trace[k], events[k], trace[k + 1], i);
    j := Since(restart, trace, events, k);
    assert StepAt(restart, trace, events, j);
    StatesKnown(restart, trace, events, j);
    StepEnters(restart, trace[j], events[j], trace[j + 1]);
  }

  lemma StepAdjusts(restart: bool, v: View, e: Event, v': View)
    requires Stepped(restart, v, e, v') && !e.Reload?
    ensures v.clock <= v'.clock && v'.adjustTime in {v.adjustTime, v.clock}
  {
    hide Pids, Heard, Weeded, Kept, Signals, Quietly, AsUnsigned, Target;
  }

  /** A check outside a reload that starts processes. */
  predicate Adjusts(v: View, e: Event)
  {
    && e.Check? && v.reload == PROC_RELOAD_NORMAL && v.count != GROUP_UNUSED
    && Forks(v.count, v.min, v.max, e.busy, v.adjustTime, v.clock) > 0
  }

  lemma {:induction false} AdjustedSince(restart: bool, trace: seq<View>, events: seq<Event>, j: nat, k: nat)
    requires RunOf(restart, trace, events) && j < k <= |events| && Adjusts(trace[j], events[j])
    requires forall m :: j < m < k ==> !events[m].Reload?
    ensures trace[k].adjustTime >= trace[j].clock && trace[k].clock >= trace[j].clock
    decreases k
  {
    hide Stepped, Checked, Target;
    assert StepAt(restart, trace, events, k - 1);
    if j < k - 1 {
      AdjustedSince(restart, trace, events, j, k - 1);
      StepAdjusts(restart, trace[k - 1], events[k - 1], trace[k]);
    } else {
      AdjustsNow(restart, trace[j], events[j], trace[k]);
    }
  }

  lemma AdjustsNow(restart: bool, v: View, e: Event, v': View)
    requires Stepped(restart, v, e, v') && Adjusts(v, e)
    ensures v'.adjustTime == v'.clock == v.clock
  {
    hide Pids, Heard, Weeded, Kept, Signals, Quietly, AsUnsigned, Target;
  }

  /** Over any run without a reload in between, processes are started at most once per delay. */
  lemma ForksApart(restart: bool, trace: seq<View>, events: seq<Event>, j: nat, k: nat)
    requires RunOf(restart, trace, events) && j < k < |events|
    requires Adjusts(trace[j], events[j]) && Adjusts(trace[k], events[k])
    requires forall m :: j < m < k ==> !events[m].Reload?
    ensures trace[k].clock - trace[j].clock >= ADJUST_PROC_DELAY
  {
    AdjustedSince(restart, trace, events, j, k);
  }

  /** One step of the monitor or of the world around it. Time does not go back, no recorded pid comes back to life, and
      a reload is asked for only when none is going on. */
  method Step(g: CProcGroup, e: Event)
    requires g.Valid()
    modifies g
    ensures g.Valid() && old(g.log) <= g.log && Stepped(g.exceptionRestart, old(g.Now()), e, g.Now())
    ensures !g.exceptionRestart || NoReports(old(g.queue)) ==>
              || g.curprocnum - Size(g.buckets) == old(g.curprocnum - Size(g.buckets))
              || g.curprocnum - Size(g.buckets) == 0
    ensures NoReports(old(g.queue)) && (e.Post? ==> !(e.msg.own && e.msg.exception)) ==> NoReports(g.queue)
    ensures old(g.curprocnum) == GROUP_UNUSED && !e.Reload? ==>
            g.buckets == old(g.buckets) && g.curprocnum == GROUP_UNUSED
  {
    hide Table, Pids, Size, Replay, Checked, Heard;
    match e
    case Post(msg) => g.queue := g.queue + [msg];
    case Receive =>
      if NoReports(g.queue) {
        NoReportsSingle(g.queue);
      }
      g.DoRecv();
    case Check(busy) => g.DoCheck(busy);
    case Reload(min, max, heartbeat) =>
      if g.reload == PROC_RELOAD_NORMAL {
        g.PreReloadGroup(min, max, heartbeat);
      }
    case World(clock, alive, stuck) =>
      if clock >= g.clock && (g.reloadTag.Some? ==> alive * g.reloadTag.value <= g.alive) {
        g.clock, g.alive, g.stuck := clock, alive, stuck;
      }
  }

  /** Any run of the monitor over a group. The count is the number of listed processes less the times it has gone down
      for a process already out, which is never where fatal signals are not acted on or not reported under a process's
      own pid. Once it stands at GROUP_UNUSED, only a reload puts the group back to work. */
  method Serve(g: CProcGroup, events: seq<Event>) returns (ghost trace: seq<View>)
    requires g.Valid()
    modifies g
    ensures RunOf(g.exceptionRestart, trace, events) && trace[0] == old(g.Now()) && trace[|events|] == g.Now()
    ensures g.Valid() && old(g.log) <= g.log && g.curprocnum == |Pids(g.buckets)| - Owed(g.log)
    ensures !g.exceptionRestart
            || (NoReports(old(g.queue)) && forall k :: 0 <= k < |events| && events[k].Post? ==>
                                                 !(events[k].msg.own && events[k].msg.exception)) ==>
              old(g.curprocnum == |Pids(g.buckets)|) ==> g.curprocnum == |Pids(g.buckets)|
    ensures old(g.curprocnum) == GROUP_UNUSED && (forall k :: 0 <= k < |events| ==> !events[k].Reload?) ==>
              g.buckets == old(g.buckets) && g.curprocnum == GROUP_UNUSED
  {
    hide Bucket, PidsIn, Pids, Size, Replay, NoReports, Stepped;
    TableSize(g.buckets);
    trace := [g.Now()];
    for k := 0 to |events|
      invariant g.Valid() && old(g.log) <= g.log
      invariant |trace| == k + 1 && trace[0] == old(g.Now()) && trace[k] == g.Now()
      invariant forall j :: 0 <= j < k ==> StepAt(g.exceptionRestart, trace, events, j)
      invariant !g.exceptionRestart
                || (NoReports(old(g.queue)) && forall k :: 0 <= k < |events| && events[k].Post? ==>
                                                     !(events[k].msg.own && events[k].msg.exception)) ==>
                  (!g.exceptionRestart || NoReports(g.queue)) &&
                  (old(g.curprocnum == |Pids(g.buckets)|) ==> g.curprocnum == Size(g.buckets))
      invariant old(g.curprocnum) == GROUP_UNUSED && (forall k :: 0 <= k < |events| ==> !events[k].Reload?) ==>
                  g.buckets == old(g.buckets) && g.curprocnum == GROUP_UNUSED
    {
      Step(g, events[k]);
      ghost var more := trace + [g.Now()];
      assert forall j :: 0 <= j < k ==> StepAt(g.exceptionRestart, trace, events, j) ==>
                                        StepAt(g.exceptionRestart, more, events, j);
      trace := more;
    }
    TableSize(g.buckets);
    OwedTells(g.log);
  }

  /** The last process of a group falls silent with its report of a fatal signal in the queue: the count ends at
      GROUP_UNUSED with no process listed, and whatever is reported later, none is listed again until a reload. */
  method Forgotten(proc: Proc, min: nat, max: nat, hb: nat, now: int, events: seq<Event>) returns (g: CProcGroup)
    requires forall k :: 0 <= k < |events| ==> !events[k].Reload?
    ensures fresh(g) && g.curprocnum == GROUP_UNUSED && Pids(g.buckets) == {}
  {
    g := Silenced(proc, min, max, hb, now);
    ghost var trace := Serve(g, events);
  }

  method Silenced(proc: Proc, min: nat, max: nat, hb: nat, now: int) returns (g: CProcGroup)
    ensures fresh(g) && g.Valid() && g.curprocnum == GROUP_UNUSED && Pids(g.buckets) == {}
  {
    hide Bucket, PidsIn, Pids, Size, Replay, NoReports, Sans;
    g := new CProcGroup(min, max, hb, true, now);
    g.RecvInfo(proc, false);
    var i := g.FindProc(proc.pid);
    g.queue := [Msg(true, true, proc, false)];
    g.clock := proc.timestamp + hb + 1;
    assert Reports(g.queue, proc.pid) == 1 + Reports(g.queue[1..], proc.pid) && g.queue[1..] == [];
    OncePerBucket(g.buckets, proc.pid % BUCKET_SIZE, i);
    var _ := g.CheckProc(proc.pid % BUCKET_SIZE, i);
  }
}
