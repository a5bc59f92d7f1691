/** The hash buckets of a process group, as values. */
module ProcTable {

  import opened Seqs

  const BUCKET_SIZE: nat := 10

  datatype Proc = Proc(pid: nat, timestamp: int)

  function PidsIn(bucket: seq<Proc>): set<nat>
  {
    if bucket == [] then {} else {bucket[0].pid} + PidsIn(bucket[1..])
  }

  lemma {:induction false} PidAt(bucket: seq<Proc>, i: nat)
    requires i < |bucket|
    ensures bucket[i].pid in PidsIn(bucket)
  {
    if i > 0 {
      PidAt(bucket[1..], i - 1);
    }
  }

  lemma {:induction false} PidWhere(bucket: seq<Proc>, pid: nat) returns (i: nat)
    requires pid in PidsIn(bucket)
    ensures i < |bucket| && bucket[i].pid == pid
  {
    if bucket[0].pid == pid {
      i := 0;
    } else {
      i := PidWhere(bucket[1..], pid);
      i := i + 1;
    }
  }

  lemma {:induction false} PidAbsent(bucket: seq<Proc>, pid: nat)
    requires forall i :: 0 <= i < |bucket| ==> bucket[i].pid != pid
    ensures pid !in PidsIn(bucket)
  {
    if bucket != [] {
      assert forall i :: 0 <= i < |bucket[1..]| ==> bucket[1..][i] == bucket[i + 1];
      PidAbsent(bucket[1..], pid);
    }
  }

  lemma {:induction false} PidsConcat(a: seq<Proc>, b: seq<Proc>)
    ensures PidsIn(a + b) == PidsIn(a) + PidsIn(b)
  {
    if a == [] {
      assert a + b == b;
    } else {
      assert (a + b)[1..] == a[1..] + b;
      PidsConcat(a[1..], b);
    }
  }

  /** In a bucket each pid is there once and hashes to the bucket. */
  ghost predicate Bucket(bucket: seq<Proc>, b: nat)
  {
    && (forall i :: 0 <= i < |bucket| ==> bucket[i].pid % BUCKET_SIZE == b)
    && (forall i, j :: 0 <= i < j < |bucket| ==> bucket[i].pid != bucket[j].pid)
  }

  ghost predicate Table(buckets: seq<seq<Proc>>)
  {
    |buckets| == BUCKET_SIZE && forall b :: 0 <= b < |buckets| ==> Bucket(buckets[b], b)
  }

  lemma BucketHashes(bucket: seq<Proc>, b: nat, pid: nat)
    requires Bucket(bucket, b) && pid in PidsIn(bucket)
    ensures pid % BUCKET_SIZE == b
  {
    var i := PidWhere(bucket, pid);
  }

  function Pids(buckets: seq<seq<Proc>>): set<nat>
  {
    if buckets == [] then {} else PidsIn(buckets[0]) + Pids(buckets[1..])
  }

  function Size(buckets: seq<seq<Proc>>): nat
  {
    if buckets == [] then 0 else |buckets[0]| + Size(buckets[1..])
  }

  lemma {:induction false} PidsAt(buckets: seq<seq<Proc>>, b: nat)
    requires b < |buckets|
    ensures PidsIn(buckets[b]) <= Pids(buckets)
  {
    if b > 0 {
      PidsAt(buckets[1..], b - 1);
    }
  }

  lemma {:induction false} PidsWhere(buckets: seq<seq<Proc>>, pid: nat) returns (b: nat)
    requires pid in Pids(buckets)
    ensures b < |buckets| && pid in PidsIn(buckets[b])
  {
    if pid in PidsIn(buckets[0]) {
      b := 0;
    } else {
      b := PidsWhere(buckets[1..], pid);
      b := b + 1;
    }
  }

  /** A pid can only be in its own bucket. */
  lemma Home(buckets: seq<seq<Proc>>, pid: nat)
    requires Table(buckets)
    ensures pid in Pids(buckets) <==> pid in PidsIn(buckets[pid % BUCKET_SIZE])
  {
    hide Bucket, PidsIn, Pids;
    PidsAt(buckets, pid % BUCKET_SIZE);
    if pid in Pids(buckets) {
      var b := PidsWhere(buckets, pid);
      BucketHashes(buckets[b], b, pid);
    }
  }

  lemma BucketTail(bucket: seq<Proc>, b: nat)
    requires Bucket(bucket, b) && bucket != []
    ensures Bucket(bucket[1..], b)
    ensures forall i :: 0 <= i < |bucket[1..]| ==> bucket[1..][i].pid != bucket[0].pid
  {
    assert forall i :: 0 <= i < |bucket[1..]| ==> bucket[1..][i] == bucket[i + 1];
  }

  lemma {:induction false} PidsInSize(bucket: seq<Proc>, b: nat)
    requires Bucket(bucket, b)
    ensures |PidsIn(bucket)| == |bucket|
  {
    hide Bucket;
    if bucket != [] {
      var rest := bucket[1..];
      BucketTail(bucket, b);
      PidsInSize(rest, b);
      PidAbsent(rest, bucket[0].pid);
    }
  }

  /** The buckets from number b on, whose pids hash there. */
  ghost predicate From(buckets: seq<seq<Proc>>, b: nat)
  {
    forall i :: 0 <= i < |buckets| ==> Bucket(buckets[i], b + i)
  }

  lemma {:induction false} PidsSize(buckets: seq<seq<Proc>>, b: nat)
    requires From(buckets, b)
    ensures |Pids(buckets)| == Size(buckets)
  {
    hide Bucket, PidsIn;
    if buckets != [] {
      var rest := buckets[1..];
      assert From(rest, b + 1) by {
        assert forall i :: 0 <= i < |rest| ==> rest[i] == buckets[i + 1] && Bucket(buckets[i + 1], b + (i + 1));
      }
      PidsSize(rest, b + 1);
      assert Bucket(buckets[0], b + 0);
      PidsInSize(buckets[0], b);
      forall pid | pid in Pids(rest)
        ensures pid % BUCKET_SIZE > b
      {
        var i := PidsWhere(rest, pid);
        assert Bucket(rest[i], b + 1 + i);
        BucketHashes(rest[i], b + 1 + i, pid);
      }
      forall pid | pid in PidsIn(buckets[0])
        ensures pid % BUCKET_SIZE == b
      {
        BucketHashes(buckets[0], b, pid);
      }
      assert PidsIn(buckets[0]) !! Pids(rest);
    }
  }

  /** The number of entries is the number of processes. */
  lemma TableSize(buckets: seq<seq<Proc>>)
    requires Table(buckets)
    ensures |Pids(buckets)| == Size(buckets)
  {
    PidsSize(buckets, 0);
  }

  lemma {:induction false} SizeUpdate(buckets: seq<seq<Proc>>, b: nat, bucket: seq<Proc>)
    requires b < |buckets|
    ensures Size(buckets[b := bucket]) == Size(buckets) - |buckets[b]| + |bucket|
  {
    if b > 0 {
      SizeUpdate(buckets[1..], b - 1, bucket);
      assert buckets[b := bucket][1..] == buckets[1..][b - 1 := bucket];
    } else {
      assert buckets[b := bucket][1..] == buckets[1..];
    }
  }

  /** Apart from bucket b the pids are the same. */
  lemma SamePids(buckets: seq<seq<Proc>>, buckets': seq<seq<Proc>>, b: nat)
    requires b < |buckets| == |buckets'| && buckets' == buckets[b := buckets'[b]]
    ensures forall pid :: pid in Pids(buckets') ==> pid in Pids(buckets) || pid in PidsIn(buckets'[b])
    ensures forall pid :: pid in Pids(buckets) ==> pid in Pids(buckets') || pid in PidsIn(buckets[b])
    ensures PidsIn(buckets'[b]) <= Pids(buckets') && PidsIn(buckets[b]) <= Pids(buckets)
  {
    hide PidsIn, Pids;
    PidsAt(buckets, b);
    PidsAt(buckets', b);
    forall pid | pid in Pids(buckets')
      ensures pid in Pids(buckets) || pid in PidsIn(buckets'[b])
    {
      var i := PidsWhere(buckets', pid);
      PidsAt(buckets, i);
      assert i != b ==> buckets'[i] == buckets[i];
    }
    forall pid | pid in Pids(buckets)
      ensures pid in Pids(buckets') || pid in PidsIn(buckets[b])
    {
      var i := PidsWhere(buckets, pid);
      PidsAt(buckets', i);
      assert i != b ==> buckets'[i] == buckets[i];
    }
  }

  lemma FrontPids(bucket: seq<Proc>, proc: Proc, b: nat)
    requires Bucket(bucket, b) && proc.pid !in PidsIn(bucket) && proc.pid % BUCKET_SIZE == b
    ensures Bucket([proc] + bucket, b) && PidsIn([proc] + bucket) == PidsIn(bucket) + {proc.pid}
  {
    assert ([proc] + bucket)[1..] == bucket;
    forall i | 0 <= i < |bucket|
      ensures bucket[i].pid != proc.pid
    {
      PidAt(bucket, i);
    }
  }

  /** add_proc at the front of the pid's bucket. */
  lemma Added(buckets: seq<seq<Proc>>, proc: Proc)
    requires Table(buckets) && proc.pid !in Pids(buckets)
    ensures var b := proc.pid % BUCKET_SIZE;
            var buckets' := buckets[b := [proc] + buckets[b]];
            && Table(buckets') && Size(buckets') == Size(buckets) + 1
            && Pids(buckets') == Pids(buckets) + {proc.pid}
  {
    hide Bucket, PidsIn, Pids, Size;
    var b := proc.pid % BUCKET_SIZE;
    var buckets' := buckets[b := [proc] + buckets[b]];
    SizeUpdate(buckets, b, [proc] + buckets[b]);
    Home(buckets, proc.pid);
    FrontPids(buckets[b], proc, b);
    assert buckets'[b] == [proc] + buckets[b];
    SamePids(buckets, buckets', b);
  }

  lemma CutBucket(bucket: seq<Proc>, i: nat, b: nat)
    requires Bucket(bucket, b) && i < |bucket|
    ensures Bucket(Cut(bucket, i), b)
    ensures forall j :: 0 <= j < |Cut(bucket, i)| ==> Cut(bucket, i)[j].pid != bucket[i].pid
  {
  }

  lemma CutPids(bucket: seq<Proc>, i: nat, b: nat)
    requires Bucket(bucket, b) && i < |bucket|
    ensures Bucket(Cut(bucket, i), b) && PidsIn(Cut(bucket, i)) == PidsIn(bucket) - {bucket[i].pid}
  {
    hide Bucket;
    CutBucket(bucket, i, b);
    var a, x, c := bucket[..i], [bucket[i]], bucket[i + 1..];
    assert bucket == a + (x + c) && Cut(bucket, i) == a + c;
    PidsConcat(a, x + c);
    PidsConcat(x, c);
    PidsConcat(a, c);
    PidAbsent(Cut(bucket, i), bucket[i].pid);
  }

  lemma PidHashes(buckets: seq<seq<Proc>>, b: nat, i: nat)
    requires Table(buckets) && b < |buckets| && i < |buckets[b]|
    ensures buckets[b][i].pid % BUCKET_SIZE == b && buckets[b][i].pid in Pids(buckets)
  {
    assert Bucket(buckets[b], b);
    PidAt(buckets[b], i);
    PidsAt(buckets, b);
  }

  lemma OncePerBucket(buckets: seq<seq<Proc>>, b: nat, i: nat)
    requires Table(buckets) && b < |buckets| && i < |buckets[b]|
    ensures forall j :: 0 <= j < |buckets[b]| && buckets[b][j].pid == buckets[b][i].pid ==> j == i
  {
    assert Bucket(buckets[b], b);
  }

  /** del_proc of a listed process. */
  lemma Deleted(buckets: seq<seq<Proc>>, b: nat, i: nat)
    requires Table(buckets) && b < |buckets| && i < |buckets[b]|
    ensures var buckets' := buckets[b := Cut(buckets[b], i)];
            && Table(buckets') && Size(buckets') == Size(buckets) - 1
            && Pids(buckets') == Pids(buckets) - {buckets[b][i].pid}
  {
    hide Bucket, PidsIn, Pids, Size;
    var pid := buckets[b][i].pid;
    var buckets' := buckets[b := Cut(buckets[b], i)];
    CutPids(buckets[b], i, b);
    SizeUpdate(buckets, b, Cut(buckets[b], i));
    assert buckets'[b] == Cut(buckets[b], i);
    SamePids(buckets, buckets', b);
    PidHashes(buckets, b, i);
    Home(buckets', pid);
  }

  lemma {:induction false} SameBucketPids(bucket: seq<Proc>, i: nat, proc: Proc)
    requires i < |bucket| && proc.pid == bucket[i].pid
    ensures PidsIn(bucket[i := proc]) == PidsIn(bucket)
  {
    if i == 0 {
      assert bucket[i := proc][1..] == bucket[1..];
    } else {
      assert bucket[i := proc][1..] == bucket[1..][i - 1 := proc];
      SameBucketPids(bucket[1..], i - 1, proc);
    }
  }

  /** do_recv refreshes a listed process. */
  lemma Refreshed(buckets: seq<seq<Proc>>, b: nat, i: nat, proc: Proc)
    requires Table(buckets) && b < |buckets| && i < |buckets[b]| && proc.pid == buckets[b][i].pid
    ensures var buckets' := buckets[b := buckets[b][i := proc]];
            Table(buckets') && Size(buckets') == Size(buckets) && Pids(buckets') == Pids(buckets)
  {
    hide PidsIn, Pids, Size;
    var bucket' := buckets[b][i := proc];
    assert Bucket(buckets[b], b) && Bucket(bucket', b);
    SameBucketPids(buckets[b], i, proc);
    SizeUpdate(buckets, b, bucket');
    SamePids(buckets, buckets[b := bucket'], b);
  }

  lemma {:induction false} NoPids(buckets: seq<seq<Proc>>)
    requires forall b :: 0 <= b < |buckets| ==> buckets[b] == []
    ensures Size(buckets) == 0 && Pids(buckets) == {}
  {
    if buckets != [] {
      NoPids(buckets[1..]);
    }
  }

  lemma EmptyTable(buckets: seq<seq<Proc>>)
    requires |buckets| == BUCKET_SIZE && forall b :: 0 <= b < |buckets| ==> buckets[b] == []
    ensures Table(buckets) && Size(buckets) == 0 && Pids(buckets) == {}
  {
    NoPids(buckets);
  }

  /** Every process heard of since `cutoff` is still listed. */
  ghost predicate Kept(buckets: seq<seq<Proc>>, buckets': seq<seq<Proc>>, cutoff: int)
  {
    && |buckets| == |buckets'|
    && forall b, p :: 0 <= b < |buckets| && p in buckets[b] && p.timestamp >= cutoff ==> p in buckets'[b]
  }

  lemma KeptAtOnce(buckets: seq<seq<Proc>>, cutoff: int)
    ensures Kept(buckets, buckets, cutoff)
  {
  }

  /** The bucket without a pid's record. */
  function Sans(bucket: seq<Proc>, pid: nat): seq<Proc>
  {
    if bucket == [] then []
    else if bucket[0].pid == pid then Sans(bucket[1..], pid)
    else [bucket[0]] + Sans(bucket[1..], pid)
  }

  /** The buckets without a pid's record. */
  function Drop(buckets: seq<seq<Proc>>, pid: nat): seq<seq<Proc>>
    requires |buckets| == BUCKET_SIZE
  {
    buckets[pid % BUCKET_SIZE := Sans(buckets[pid % BUCKET_SIZE], pid)]
  }

  lemma {:induction false} SansAbsent(bucket: seq<Proc>, pid: nat)
    requires pid !in PidsIn(bucket)
    ensures Sans(bucket, pid) == bucket
  {
    if bucket != [] {
      SansAbsent(bucket[1..], pid);
    }
  }

  lemma {:induction false} SansHolds(bucket: seq<Proc>, pid: nat, p: Proc)
    ensures p in Sans(bucket, pid) <==> p in bucket && p.pid != pid
  {
    if bucket != [] {
      SansHolds(bucket[1..], pid, p);
      assert bucket == [bucket[0]] + bucket[1..];
    }
  }

  /** A refreshed record is the one taken out. */
  lemma {:induction false} SansRefreshed(bucket: seq<Proc>, i: nat, p: Proc)
    requires i < |bucket| && p.pid == bucket[i].pid
    ensures Sans(bucket[i := p], p.pid) == Sans(bucket, p.pid)
  {
    if i == 0 {
      assert bucket[i := p][1..] == bucket[1..];
    } else {
      assert bucket[i := p][1..] == bucket[1..][i - 1 := p];
      SansRefreshed(bucket[1..], i - 1, p);
    }
  }

  /** Taking out the one record of a pid. */
  lemma {:induction false} SansCut(bucket: seq<Proc>, i: nat, b: nat)
    requires Bucket(bucket, b) && i < |bucket|
    ensures Sans(bucket, bucket[i].pid) == Cut(bucket, i)
  {
    hide Bucket;
    var rest := bucket[1..];
    BucketTail(bucket, b);
    if i == 0 {
      PidAbsent(rest, bucket[0].pid);
      SansAbsent(rest, bucket[0].pid);
      assert Cut(bucket, 0) == rest;
    } else {
      SansCut(rest, i - 1, b);
      assert rest[i - 1] == bucket[i];
      assert Cut(bucket, i) == [bucket[0]] + Cut(rest, i - 1);
    }
  }

  lemma DropAbsent(buckets: seq<seq<Proc>>, pid: nat)
    requires Table(buckets) && pid !in Pids(buckets)
    ensures Drop(buckets, pid) == buckets
  {
    hide Bucket, PidsIn, Pids, Sans;
    Home(buckets, pid);
    SansAbsent(buckets[pid % BUCKET_SIZE], pid);
  }

  /** del_proc of a process, listed or not. */
  lemma Dropped(buckets: seq<seq<Proc>>, pid: nat)
    requires Table(buckets)
    ensures var buckets' := Drop(buckets, pid);
            && Table(buckets') && Pids(buckets') == Pids(buckets) - {pid}
            && Size(buckets') == Size(buckets) - (if pid in Pids(buckets) then 1 else 0)
  {
    hide Bucket, PidsIn, Pids, Size, Sans;
    var b := pid % BUCKET_SIZE;
    if pid in Pids(buckets) {
      Home(buckets, pid);
      var i := PidWhere(buckets[b], pid);
      SansCut(buckets[b], i, b);
      Deleted(buckets, b, i);
    } else {
      DropAbsent(buckets, pid);
    }
  }

  /** Taking out one that was not heard of. */
  lemma KeptWithout(start: seq<seq<Proc>>, buckets: seq<seq<Proc>>, cutoff: int, b: nat, i: nat)
    requires Kept(start, buckets, cutoff) && Table(buckets) && b < BUCKET_SIZE && i < |buckets[b]|
    requires buckets[b][i].timestamp < cutoff
    ensures Kept(start, Drop(buckets, buckets[b][i].pid), cutoff)
  {
    hide Bucket, Pids, Size, Sans;
    var pid := buckets[b][i].pid;
    PidHashes(buckets, b, i);
    OncePerBucket(buckets, b, i);
    forall p | p in buckets[b] && p.timestamp >= cutoff
      ensures p in Sans(buckets[b], pid)
    {
      SansHolds(buckets[b], pid, p);
    }
  }

  /** Up to place i of bucket b, only processes heard of since `cutoff` or `stuck` are listed. */
  ghost predicate Weeded(buckets: seq<seq<Proc>>, b: nat, i: nat, cutoff: int, stuck: set<nat>)
  {
    forall c, j :: 0 <= c < |buckets| && 0 <= j < |buckets[c]| && (c < b || (c == b && j < i)) ==>
                     buckets[c][j].timestamp >= cutoff || buckets[c][j].pid in stuck
  }

  lemma WeededNone(buckets: seq<seq<Proc>>, cutoff: int, stuck: set<nat>)
    ensures Weeded(buckets, 0, 0, cutoff, stuck)
  {
  }

  lemma WeededBucket(buckets: seq<seq<Proc>>, b: nat, cutoff: int, stuck: set<nat>)
    requires b < |buckets| && Weeded(buckets, b, |buckets[b]|, cutoff, stuck)
    ensures Weeded(buckets, b + 1, 0, cutoff, stuck)
  {
  }

  lemma WeededOne(buckets: seq<seq<Proc>>, b: nat, i: nat, cutoff: int, stuck: set<nat>)
    requires b < |buckets| && i < |buckets[b]| && Weeded(buckets, b, i, cutoff, stuck)
    requires buckets[b][i].timestamp >= cutoff || buckets[b][i].pid in stuck
    ensures Weeded(buckets, b, i + 1, cutoff, stuck)
  {
  }

  lemma WeededAgain(buckets: seq<seq<Proc>>, b: nat, i: nat, cutoff: int, stuck: set<nat>)
    requires Table(buckets) && b < |buckets| && i < |buckets[b]| && Weeded(buckets, b, i, cutoff, stuck)
    ensures Weeded(Drop(buckets, buckets[b][i].pid), b, 0, cutoff, stuck)
  {
    hide Bucket, Sans;
    PidHashes(buckets, b, i);
  }
}
