/** The message queue between the processes and their monitor, as a value. */
module ProcQueue {

  import opened Seqs
  import opened ProcTable

  /** A queued report, in good health or of a fatal signal (`exception`). `initialising` is reserve_[0] == 1. `own`
      says that its message type is the pid it reports on: the type is taken when the client object is made, so a
      process that then becomes a daemon reports under the pid of its launcher, and do_recv(pid) passes it over. */
  datatype Msg = Msg(own: bool, exception: bool, proc: Proc, initialising: bool)

  predicate Of(m: Msg, pid: nat) { m.own && m.proc.pid == pid }

  /** What msgrcv leaves when every message of this type has been taken. */
  function Without(q: seq<Msg>, pid: nat): seq<Msg>
  {
    if q == [] then []
    else if Of(q[0], pid) then Without(q[1..], pid)
    else [q[0]] + Without(q[1..], pid)
  }

  /** How many of them report a fatal signal. */
  function Reports(q: seq<Msg>, pid: nat): nat
  {
    if q == [] then 0 else (if Of(q[0], pid) && q[0].exception then 1 else 0) + Reports(q[1..], pid)
  }

  /** No process reports a fatal signal under its own pid after it has reported one. */
  predicate Single(q: seq<Msg>)
  {
    q == [] || ((q[0].exception ==> Reports(q[1..], q[0].proc.pid) == 0) && Single(q[1..]))
  }

  ghost predicate NoReports(q: seq<Msg>)
  {
    forall i :: 0 <= i < |q| ==> !(q[i].own && q[i].exception)
  }

  lemma {:induction false} NoneReports(q: seq<Msg>, pid: nat)
    requires NoReports(q)
    ensures Reports(q, pid) == 0
  {
    if q != [] {
      assert forall i :: 0 <= i < |q[1..]| ==> q[1..][i] == q[i + 1];
      NoneReports(q[1..], pid);
    }
  }

  /** msgrcv takes the first message of the type. */
  lemma {:induction false} TakenFirst(q: seq<Msg>, pid: nat, i: nat)
    requires i < |q| && Of(q[i], pid) && forall j :: 0 <= j < i ==> !Of(q[j], pid)
    ensures Without(Cut(q, i), pid) == Without(q, pid)
    ensures Reports(q, pid) == Reports(Cut(q, i), pid) + (if q[i].exception then 1 else 0)
  {
    if i == 0 {
      assert Cut(q, i) == q[1..];
    } else {
      assert forall j :: 0 <= j < |q[1..]| ==> q[1..][j] == q[j + 1];
      TakenFirst(q[1..], pid, i - 1);
      assert Cut(q, i) == [q[0]] + Cut(q[1..], i - 1);
    }
  }

  lemma {:induction false} NoneLeft(q: seq<Msg>, pid: nat)
    requires forall j :: 0 <= j < |q| ==> !Of(q[j], pid)
    ensures Without(q, pid) == q && Reports(q, pid) == 0
  {
    if q != [] {
      assert forall j :: 0 <= j < |q[1..]| ==> q[1..][j] == q[j + 1];
      NoneLeft(q[1..], pid);
    }
  }

  /** Taking one type leaves the reports of the others and of it none. */
  lemma {:induction false} ReportsWithout(q: seq<Msg>, pid: nat, r: nat)
    ensures Reports(Without(q, pid), r) == if r == pid then 0 else Reports(q, r)
    ensures |Without(q, pid)| <= |q|
  {
    if q != [] {
      ReportsWithout(q[1..], pid, r);
    }
  }

  lemma {:induction false} NothingLeft(q: seq<Msg>, pid: nat)
    ensures forall j :: 0 <= j < |Without(q, pid)| ==> !Of(Without(q, pid)[j], pid)
    ensures |Without(q, pid)| <= |q| && Without(Without(q, pid), pid) == Without(q, pid)
  {
    if q != [] {
      NothingLeft(q[1..], pid);
    }
  }

  lemma {:induction false} SingleWithout(q: seq<Msg>, pid: nat)
    requires Single(q)
    ensures Single(Without(q, pid))
  {
    if q != [] {
      SingleWithout(q[1..], pid);
      ReportsWithout(q[1..], pid, q[0].proc.pid);
    }
  }

  lemma {:induction false} NoReportsWithout(q: seq<Msg>, pid: nat)
    requires NoReports(q)
    ensures NoReports(Without(q, pid))
  {
    if q != [] {
      assert forall i :: 0 <= i < |q[1..]| ==> q[1..][i] == q[i + 1];
      NoReportsWithout(q[1..], pid);
    }
  }

  lemma {:induction false} NoReportsSingle(q: seq<Msg>)
    requires NoReports(q)
    ensures Single(q)
  {
    if q != [] {
      assert forall i :: 0 <= i < |q[1..]| ==> q[1..][i] == q[i + 1];
      NoReportsSingle(q[1..]);
      NoneReports(q[1..], q[0].proc.pid);
    }
  }
}
