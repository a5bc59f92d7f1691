/** sq_put and sq_get, each call as one step: a FIFO of byte strings in a node ring that skips its
    tail end when a message would not fit there in one piece. */
module ShmQueue {
  import opened Bytes
  import opened Seqs
  import opened SqNodes

  /** (pos + k) % nodes, for a step of at most one turn. */
  function Next(nodes: nat, pos: nat, k: nat): (r: nat)
    requires pos < nodes && k <= nodes
    ensures r < nodes
  {
    if pos + k < nodes then pos + k else pos + k - nodes
  }

  lemma NextIsMod(nodes: nat, pos: nat, k: nat)
    requires pos < nodes && k <= nodes
    ensures Next(nodes, pos, k) == (pos + k) % nodes
  {
    ModStep(nodes, pos + k);
  }

  lemma ModStep(n: nat, x: nat)
    requires 0 < n && x < 2 * n
    ensures x % n == if x < n then x else x - n
  {
    if x >= n {
      var y: nat := x - n;
      assert x == 1 * n + y;
      assert x / n == 1;
    }
  }

  /** Nodes from `from` forward to `to`. */
  function Distance(nodes: nat, from: nat, to: nat): (d: nat)
    requires from < nodes && to < nodes
    ensures d < nodes
  {
    if from <= to then to - from else to + nodes - from
  }

  /** SQ_EMPTY_NODES2 is what is left of the ring, less the one node that keeps full and empty apart. */
  lemma EmptyNodes(nodes: nat, head: nat, tail: nat)
    requires head < nodes && tail < nodes
    ensures (head + (nodes - 1) - tail) % nodes == nodes - 1 - Distance(nodes, head, tail)
  {
    ModStep(nodes, head + (nodes - 1) - tail);
  }

  /** SQ_EMPTY_NODES2. */
  function Empty(nodes: nat, head: nat, tail: nat): (r: nat)
    requires head < nodes && tail < nodes
    ensures r == nodes - 1 - Distance(nodes, head, tail)
  {
    EmptyNodes(nodes, head, tail);
    (head + (nodes - 1) - tail) % nodes
  }

  datatype Scan = Found(at: nat, need: nat, len: nat) | AtEnd

  /** The reader's search for a start token from `pos` on, over any memory. */
  ghost function Search(mem: seq<Byte>, size: nat, nodes: nat, pos: nat, tail: nat): (r: Scan)
    requires size > NODE_HEAD && nodes * size <= |mem| && pos < nodes && tail < nodes
    decreases Distance(nodes, pos, tail)
  {
    NodeBounds(size, pos, nodes);
    if pos == tail then AtEnd
    else if TokenAt(mem, size, pos) != START_TOKEN then
      Search(mem, size, nodes, Next(nodes, pos, 1), tail)
    else
      var len := LenAt(mem, size, pos);
      var need := Need(size, len);
      if Distance(nodes, pos, tail) < need then Search(mem, size, nodes, Next(nodes, pos, 1), tail)
      else Found(pos, need, len)
  }

  // ---- how messages lie in the ring ----

  /** Unwrapped, the messages fill head..tail. Wrapped, the older ones fill head..edge, the nodes from edge
      to the end were skipped, and the newer ones fill 0..tail. */
  ghost predicate Shape(mem: seq<Byte>, size: nat, nodes: nat, head: nat, tail: nat,
                        edge: nat, up: seq<Slot>, lo: seq<Slot>)
  {
    && size > NODE_HEAD && nodes * size == |mem| && head < nodes && tail < nodes
    && (head <= tail ==> lo == [] && Tiles(mem, size, up, head, tail))
    && (tail < head ==> head <= edge < nodes && Tiles(mem, size, up, head, edge)
                        && lo != [] && Tiles(mem, size, lo, 0, tail))
  }

  /** No free or skipped node carries a start token. */
  ghost predicate Clean(mem: seq<Byte>, size: nat, nodes: nat, head: nat, tail: nat, edge: nat)
  {
    if head <= tail then TokenFree(mem, size, 0, head) && TokenFree(mem, size, tail, nodes)
    else TokenFree(mem, size, tail, head) && TokenFree(mem, size, edge, nodes)
  }

  /** A node the reader would take for a message. */
  ghost predicate Plausible(mem: seq<Byte>, size: nat, nodes: nat, tail: nat, i: nat)
    requires size > NODE_HEAD && nodes * size <= |mem| && i < nodes && tail < nodes
  {
    NodeBounds(size, i, nodes);
    TokenAt(mem, size, i) == START_TOKEN && Need(size, LenAt(mem, size, i)) <= Distance(nodes, i, tail)
  }

  /** The first of the nodes from `pos` to the end of the ring that the reader would take for a message. */
  ghost predicate FirstPlausible(mem: seq<Byte>, size: nat, nodes: nat, pos: nat, tail: nat, i: nat)
    requires size > NODE_HEAD && nodes * size <= |mem| && pos <= i < nodes && tail < nodes
  {
    && Plausible(mem, size, nodes, tail, i)
    && forall j :: pos <= j < i ==> !Plausible(mem, size, nodes, tail, j)
  }

  /** Searching through nodes to the end of the ring comes to node 0 if none of them looks like a message, ... */
  lemma {:induction false} SearchToEnd(mem: seq<Byte>, size: nat, nodes: nat, pos: nat, tail: nat)
    requires size > NODE_HEAD && nodes * size <= |mem| && tail < pos < nodes
    requires forall i :: pos <= i < nodes ==> !Plausible(mem, size, nodes, tail, i)
    ensures Search(mem, size, nodes, pos, tail) == Search(mem, size, nodes, 0, tail)
    decreases nodes - pos
  {
    NodeBounds(size, pos, nodes);
    assert !Plausible(mem, size, nodes, tail, pos);
    if pos + 1 < nodes {
      SearchToEnd(mem, size, nodes, pos + 1, tail);
    }
  }

  /** ... and else stops at the first that does. */
  lemma {:induction false} SearchStops(mem: seq<Byte>, size: nat, nodes: nat, pos: nat, tail: nat, at: nat)
    requires size > NODE_HEAD && nodes * size <= |mem| && tail < pos <= at < nodes
    requires FirstPlausible(mem, size, nodes, pos, tail, at)
    ensures at * size + 8 <= |mem|
    ensures Search(mem, size, nodes, pos, tail) == Found(at, Need(size, LenAt(mem, size, at)), LenAt(mem, size, at))
    decreases at - pos
  {
    NodeBounds(size, pos, nodes);
    NodeBounds(size, at, nodes);
    if pos < at {
      assert !Plausible(mem, size, nodes, tail, pos);
      SearchStops(mem, size, nodes, pos + 1, tail, at);
    }
  }

  lemma {:induction false} FirstExists(mem: seq<Byte>, size: nat, nodes: nat, pos: nat, tail: nat, i: nat)
      returns (at: nat)
    requires size > NODE_HEAD && nodes * size <= |mem| && pos <= i < nodes && tail < nodes
    requires Plausible(mem, size, nodes, tail, i)
    ensures pos <= at < nodes && FirstPlausible(mem, size, nodes, pos, tail, at)
  {
    at := pos;
    while !Plausible(mem, size, nodes, tail, at)
      invariant pos <= at <= i && forall j :: pos <= j < at ==> !Plausible(mem, size, nodes, tail, j)
      decreases i - at
    {
      at := at + 1;
    }
  }

  /** What the scan finds lies in the ring and ends no further than tail. */
  lemma {:induction false} SearchBounds(mem: seq<Byte>, size: nat, nodes: nat, pos: nat, tail: nat)
    requires size > NODE_HEAD && nodes * size <= |mem| && pos < nodes && tail < nodes
    ensures var r := Search(mem, size, nodes, pos, tail);
            r.Found? ==> r.at < nodes && r.need == Need(size, r.len) <= Distance(nodes, r.at, tail)
    decreases Distance(nodes, pos, tail)
  {
    NodeBounds(size, pos, nodes);
    if pos != tail {
      SearchBounds(mem, size, nodes, Next(nodes, pos, 1), tail);
    }
  }

  /** The older part is used up, and some skipped node looks like a message. */
  ghost predicate Misled(mem: seq<Byte>, size: nat, nodes: nat, head: nat, tail: nat, up: seq<Slot>)
  {
    && up == [] && tail < head < nodes && size > NODE_HEAD && nodes * size <= |mem|
    && exists i :: head <= i < nodes && Plausible(mem, size, nodes, tail, i)
  }

  /** The reader finds the oldest message exactly when no skipped node misleads it. */
  lemma SkipIsExact(mem: seq<Byte>, size: nat, nodes: nat, head: nat, tail: nat,
                    edge: nat, up: seq<Slot>, lo: seq<Slot>)
    requires Shape(mem, size, nodes, head, tail, edge, up, lo) && up + lo != []
    ensures var s := (up + lo)[0];
            Search(mem, size, nodes, head, tail) == Found(s.start, Need(size, |s.data|), |s.data|)
            <==> !Misled(mem, size, nodes, head, tail, up)
  {
    if up != [] {
      StoredReads(mem, size, up[0]);
    } else if Misled(mem, size, nodes, head, tail, up) {
      var i :| head <= i < nodes && Plausible(mem, size, nodes, tail, i);
      var at := FirstExists(mem, size, nodes, head, tail, i);
      SearchStops(mem, size, nodes, head, tail, at);
    } else {
      SearchToEnd(mem, size, nodes, head, tail);
      StoredReads(mem, size, lo[0]);
    }
  }

  lemma MisledMeans(mem: seq<Byte>, size: nat, nodes: nat, head: nat, tail: nat, up: seq<Slot>)
    requires Misled(mem, size, nodes, head, tail, up)
    ensures up == [] && tail < head
  {
  }

  lemma NotMisled(mem: seq<Byte>, size: nat, nodes: nat, head: nat, tail: nat, up: seq<Slot>)
    requires head == tail
    ensures !Misled(mem, size, nodes, head, tail, up)
  {
  }

  /** What a misled reader finds instead. */
  lemma FindsStale(mem: seq<Byte>, size: nat, nodes: nat, head: nat, tail: nat, up: seq<Slot>) returns (at: nat)
    requires Misled(mem, size, nodes, head, tail, up)
    ensures head <= at < nodes && FirstPlausible(mem, size, nodes, head, tail, at) && at * size + NODE_HEAD <= |mem|
    ensures Search(mem, size, nodes, head, tail) == Found(at, Need(size, LenAt(mem, size, at)), LenAt(mem, size, at))
    ensures Need(size, LenAt(mem, size, at)) <= Distance(nodes, at, tail)
  {
    var i :| head <= i < nodes && Plausible(mem, size, nodes, tail, i);
    at := FirstExists(mem, size, nodes, head, tail, i);
    SearchStops(mem, size, nodes, head, tail, at);
    NodeBounds(size, at, nodes);
  }

  /** What is handed out for the node at `at`, as it was before the call. */
  ghost predicate Handed(mem: seq<Byte>, size: nat, at: nat, len: nat, bufSize: int, ret: int, data: seq<Byte>,
      time: seq<Byte>)
  {
    && at * size + NODE_HEAD <= |mem| && time == mem[at * size + 8..at * size + NODE_HEAD]
    && ret == (if len > bufSize then -2 else len) && |data| == (if len > bufSize then 0 else len)
    && (len <= bufSize && at * size + NODE_HEAD + len <= |mem| ==>
          data == mem[at * size + NODE_HEAD..at * size + NODE_HEAD + len])
  }

  /** Where what is found at node `at` ends. */
  ghost function EndAt(mem: seq<Byte>, size: nat, at: nat): nat
  {
    if size > NODE_HEAD && at * size + 8 <= |mem| then at + Need(size, LenAt(mem, size, at)) else 0
  }

  /** A skipped node is taken for a message. */
  ghost predicate StaleTaken(mem: seq<Byte>, mem': seq<Byte>, size: nat, nodes: nat, head: nat, tail: nat, head': nat,
                             at: nat, bufSize: int, ret: int, data: seq<Byte>, time: seq<Byte>)
  {
    && size > NODE_HEAD && nodes * size <= |mem| && head <= at < nodes && tail < nodes && at * size + NODE_HEAD <= |mem|
    && FirstPlausible(mem, size, nodes, head, tail, at)
    && head' == (if EndAt(mem, size, at) < nodes then EndAt(mem, size, at) else EndAt(mem, size, at) - nodes)
    && Handed(mem, size, at, LenAt(mem, size, at), bufSize, ret, data, time)
    && if ret >= 0 then Reset(mem, mem', size, nodes, head, head') else mem' == mem
  }

  /** The oldest message is taken. */
  ghost predicate FrontTaken(mem: seq<Byte>, mem': seq<Byte>, size: nat, nodes: nat, head: nat, head': nat,
                             s: Slot, bufSize: int, ret: int, data: seq<Byte>, time: seq<Byte>)
  {
    && size > NODE_HEAD && head' == s.start + Need(size, |s.data|) && time == s.time
    && if |s.data| <= bufSize then ret == |data| > 0 && data == s.data && Reset(mem, mem', size, nodes, head, head')
       else ret == -2 && data == [] && mem' == mem
  }

  /** What sq_get comes to on any bytes, by what the scan finds. */
  ghost predicate Answered(mem: seq<Byte>, mem': seq<Byte>, size: nat, nodes: nat, head: nat, tail: nat, head': nat,
                           bufSize: int, ret: int, data: seq<Byte>, time: seq<Byte>)
  {
    && size > NODE_HEAD && nodes * size <= |mem| && head < nodes && tail < nodes
    && match Search(mem, size, nodes, head, tail)
       case AtEnd => ret == 0 && data == [] && head' == tail && Reset(mem, mem', size, nodes, head, tail)
                     && (head == tail ==> mem' == mem)
       case Found(at, need, len) =>
         && at < nodes && need <= nodes && head' == Next(nodes, at, need)
         && Handed(mem, size, at, len, bufSize, ret, data, time)
         && if len <= bufSize then Reset(mem, mem', size, nodes, head, head') else mem' == mem
  }

  lemma AnsweredNothing(mem: seq<Byte>, mem': seq<Byte>, size: nat, nodes: nat, head: nat, head': nat,
                        bufSize: int, ret: int, data: seq<Byte>, time: seq<Byte>)
    requires Answered(mem, mem', size, nodes, head, head, head', bufSize, ret, data, time)
    ensures ret == 0 && head' == head && mem' == mem
  {
  }

  /** Where no free or skipped node carries a start token nothing misleads. */
  lemma CleanLeads(mem: seq<Byte>, size: nat, nodes: nat, head: nat, tail: nat, edge: nat, up: seq<Slot>, lo: seq<Slot>)
    requires Shape(mem, size, nodes, head, tail, edge, up, lo) && Clean(mem, size, nodes, head, tail, edge)
    ensures !Misled(mem, size, nodes, head, tail, up)
  {
  }

  // ---- storing ----

  lemma BlitLeaves(mem: seq<Byte>, size: nat, at: nat, need: nat, bytes: seq<Byte>, lo: nat, hi: nat)
    requires at * size + |bytes| <= |mem| && |bytes| <= need * size
    requires lo <= hi && hi * size <= |mem| && (hi <= at || at + need <= lo)
    ensures SameNodes(mem, Blit(mem, at * size, bytes), size, lo, hi)
  {
    MulBetween(size, 0, lo, hi);
    if hi <= at {
      MulBetween(size, lo, hi, at);
    } else {
      MulBetween(size, at, at + need, lo);
    }
  }

  lemma BlitStores(mem: seq<Byte>, size: nat, s: Slot)
    requires Storable(s) && s.start * size + NODE_HEAD + |s.data| <= |mem|
    ensures Stored(Blit(mem, s.start * size, NodeImage(s)), size, s)
  {
  }

  /** A message stored behind tail, short of the end of the ring; the ring not wrapped, ... */
  lemma PutUpper(mem: seq<Byte>, size: nat, nodes: nat, head: nat, tail: nat, edge: nat, up: seq<Slot>, s: Slot)
    requires Shape(mem, size, nodes, head, tail, edge, up, []) && Storable(s) && s.start == tail
    requires head <= tail && tail + Need(size, |s.data|) < nodes
    ensures tail * size + |NodeImage(s)| <= |mem|
    ensures var mem' := Blit(mem, tail * size, NodeImage(s));
            var tail' := tail + Need(size, |s.data|);
            && Shape(mem', size, nodes, head, tail', edge, up + [s], [])
            && (Clean(mem, size, nodes, head, tail, edge) ==> Clean(mem', size, nodes, head, tail', edge))
  {
    hide Blit, NodeImage, Need, Stored, Tiles, TokenFree, SameNodes;
    var n := Need(size, |s.data|);
    MulBetween(size, tail, tail + n, nodes);
    MulBetween(size, head, tail, nodes);
    var mem' := Blit(mem, tail * size, NodeImage(s));
    BlitStores(mem, size, s);
    BlitLeaves(mem, size, tail, n, NodeImage(s), head, tail);
    TilesSame(mem, mem', size, up, head, tail);
    TilesAppend(mem', size, up, head, tail, s);
    BlitLeaves(mem, size, tail, n, NodeImage(s), 0, head);
    BlitLeaves(mem, size, tail, n, NodeImage(s), tail + n, nodes);
    if Clean(mem, size, nodes, head, tail, edge) {
      TokenFreeSame(mem, mem', size, 0, head);
      TokenFreeTo(mem, size, tail, tail + n, nodes);
      TokenFreeSame(mem, mem', size, tail + n, nodes);
    }
  }

  /** ... or wrapped, and short of head. */
  lemma PutLower(mem: seq<Byte>, size: nat, nodes: nat, head: nat, tail: nat,
                 edge: nat, up: seq<Slot>, lo: seq<Slot>, s: Slot)
    requires Shape(mem, size, nodes, head, tail, edge, up, lo) && Storable(s) && s.start == tail
    requires tail + Need(size, |s.data|) < head
    ensures tail * size + |NodeImage(s)| <= |mem|
    ensures var mem' := Blit(mem, tail * size, NodeImage(s));
            var tail' := tail + Need(size, |s.data|);
            && Shape(mem', size, nodes, head, tail', edge, up, lo + [s])
            && (Clean(mem, size, nodes, head, tail, edge) ==> Clean(mem', size, nodes, head, tail', edge))
  {
    hide Blit, NodeImage, Need, Stored, Tiles, TokenFree, SameNodes;
    var n := Need(size, |s.data|);
    MulBetween(size, tail, tail + n, head);
    MulBetween(size, head, edge, nodes);
    var mem' := Blit(mem, tail * size, NodeImage(s));
    BlitStores(mem, size, s);
    BlitLeaves(mem, size, tail, n, NodeImage(s), 0, tail);
    TilesSame(mem, mem', size, lo, 0, tail);
    TilesAppend(mem', size, lo, 0, tail, s);
    BlitLeaves(mem, size, tail, n, NodeImage(s), head, edge);
    TilesSame(mem, mem', size, up, head, edge);
    BlitLeaves(mem, size, tail, n, NodeImage(s), tail + n, head);
    BlitLeaves(mem, size, tail, n, NodeImage(s), edge, nodes);
    if Clean(mem, size, nodes, head, tail, edge) {
      TokenFreeTo(mem, size, tail, tail + n, head);
      TokenFreeSame(mem, mem', size, tail + n, head);
      TokenFreeSame(mem, mem', size, edge, nodes);
    }
  }

  lemma TokenFreeTo(mem: seq<Byte>, size: nat, lo: nat, mid: nat, hi: nat)
    requires TokenFree(mem, size, lo, hi) && lo <= mid <= hi
    ensures TokenFree(mem, size, mid, hi) && TokenFree(mem, size, lo, mid)
  {
    MulBetween(size, lo, mid, hi);
  }

  lemma TilesOne(mem: seq<Byte>, size: nat, s: Slot)
    requires size > NODE_HEAD && Stored(mem, size, s)
    ensures Tiles(mem, size, [s], s.start, s.start + Need(size, |s.data|))
  {
  }

  /** A message stored at node 0, the nodes from tail on skipped. */
  lemma PutWrapped(mem: seq<Byte>, size: nat, nodes: nat, head: nat, tail: nat, edge: nat, up: seq<Slot>, s: Slot)
    requires Shape(mem, size, nodes, head, tail, edge, up, []) && Storable(s) && s.start == 0
    requires head <= tail && Need(size, |s.data|) < head
    ensures |NodeImage(s)| <= |mem|
    ensures var mem' := Blit(mem, 0, NodeImage(s));
            var tail' := Need(size, |s.data|);
            && Shape(mem', size, nodes, head, tail', tail, up, [s])
            && (Clean(mem, size, nodes, head, tail, edge) ==> Clean(mem', size, nodes, head, tail', tail))
  {
    hide Blit, NodeImage, Need, Stored, Tiles, TokenFree, SameNodes;
    var n := Need(size, |s.data|);
    MulBetween(size, 0, n, nodes);
    var mem' := Blit(mem, 0, NodeImage(s));
    BlitStores(mem, size, s);
    TilesOne(mem', size, s);
    BlitLeaves(mem, size, 0, n, NodeImage(s), head, tail);
    TilesSame(mem, mem', size, up, head, tail);
    BlitLeaves(mem, size, 0, n, NodeImage(s), n, head);
    BlitLeaves(mem, size, 0, n, NodeImage(s), tail, nodes);
    if Clean(mem, size, nodes, head, tail, edge) {
      TokenFreeTo(mem, size, 0, n, head);
      TokenFreeSame(mem, mem', size, n, head);
      TokenFreeSame(mem, mem', size, tail, nodes);
    }
  }

  // ---- taking ----

  /** From `from` round to `to` no node carries a token any more; all other nodes are as before. */
  ghost predicate Reset(mem: seq<Byte>, mem': seq<Byte>, size: nat, nodes: nat, from: nat, to: nat)
  {
    if from <= to then
      SameNodes(mem, mem', size, 0, from) && TokenFree(mem', size, from, to) && SameNodes(mem, mem', size, to, nodes)
    else
      TokenFree(mem', size, from, nodes) && TokenFree(mem', size, 0, to) && SameNodes(mem, mem', size, to, from)
  }

  lemma ResetNothing(mem: seq<Byte>, size: nat, nodes: nat, from: nat)
    requires nodes * size == |mem| && from < nodes
    ensures Reset(mem, mem, size, nodes, from, from)
  {
    MulBetween(size, 0, from, nodes);
  }

  /** The nodes `lo`..`hi` keep what they share, and a token-free run grows by the node just cleared. */
  lemma ClearOne(mem: seq<Byte>, mid: seq<Byte>, size: nat, nodes: nat, cur: nat, lo: nat, hi: nat)
    requires size > NODE_HEAD && nodes * size == |mem| == |mid| && cur < nodes && lo <= hi <= nodes
    requires cur * size + 4 <= |mid|
    ensures var mem' := Blit(mid, cur * size, Le32(0));
            && TokenFree(mem', size, cur, cur + 1)
            && (hi <= cur || cur < lo ==>
                  && (SameNodes(mem, mid, size, lo, hi) ==> SameNodes(mem, mem', size, lo, hi))
                  && (TokenFree(mid, size, lo, hi) ==> TokenFree(mem', size, lo, hi)))
  {
    var mem' := Blit(mid, cur * size, Le32(0));
    NodeBounds(size, cur, nodes);
    MulBetween(size, cur, cur + 1, nodes);
    assert mem'[cur * size..cur * size + 4] == Le32(0);
    WordOfLe32(0);
    MulBetween(size, lo, hi, nodes);
    if hi <= cur || cur < lo {
      BlitLeaves(mid, size, cur, 1, Le32(0), lo, hi);
      if TokenFree(mid, size, lo, hi) {
        TokenFreeSame(mid, mem', size, lo, hi);
      }
    }
  }

  lemma TokenFreeJoin(mem: seq<Byte>, size: nat, lo: nat, mid: nat, hi: nat)
    requires TokenFree(mem, size, lo, mid) && TokenFree(mem, size, mid, hi)
    ensures TokenFree(mem, size, lo, hi)
  {
  }

  lemma ResetOneMore(mem: seq<Byte>, mid: seq<Byte>, size: nat, nodes: nat, from: nat, cur: nat)
    requires size > NODE_HEAD && nodes * size == |mem| == |mid| && from < nodes && cur < nodes
    requires Reset(mem, mid, size, nodes, from, cur) && Next(nodes, cur, 1) != from
    ensures cur * size + 4 <= |mid|
    ensures Reset(mem, Blit(mid, cur * size, Le32(0)), size, nodes, from, Next(nodes, cur, 1))
  {
    hide Blit, Le32, TokenFree, SameNodes;
    NodeBounds(size, cur, nodes);
    var mem' := Blit(mid, cur * size, Le32(0));
    if from <= cur {
      ClearOne(mem, mid, size, nodes, cur, 0, from);
      ClearOne(mem, mid, size, nodes, cur, from, cur);
      SameShrinks(mem, mid, size, cur, nodes, cur + 1);
      ClearOne(mem, mid, size, nodes, cur, cur + 1, nodes);
      TokenFreeJoin(mem', size, from, cur, cur + 1);
      if cur + 1 == nodes {
        EmptyFree(mem', size);
      }
    } else {
      ClearOne(mem, mid, size, nodes, cur, from, nodes);
      ClearOne(mem, mid, size, nodes, cur, 0, cur);
      SameShrinks(mem, mid, size, cur, from, cur + 1);
      ClearOne(mem, mid, size, nodes, cur, cur + 1, from);
      TokenFreeJoin(mem', size, 0, cur, cur + 1);
    }
  }

  lemma EmptyFree(mem: seq<Byte>, size: nat)
    ensures TokenFree(mem, size, 0, 0)
  {
  }

  /** The oldest message taken from the upper part. */
  lemma TakeUpper(mem: seq<Byte>, mem': seq<Byte>, size: nat, nodes: nat, head: nat, tail: nat,
                  edge: nat, up: seq<Slot>, lo: seq<Slot>)
    requires Shape(mem, size, nodes, head, tail, edge, up, lo) && up != []
    requires head + Need(size, |up[0].data|) < nodes && |mem'| == |mem|
    requires Reset(mem, mem', size, nodes, head, head + Need(size, |up[0].data|))
    ensures var head' := head + Need(size, |up[0].data|);
            && Shape(mem', size, nodes, head', tail, edge, up[1..], lo)
            && (Clean(mem, size, nodes, head, tail, edge) ==> Clean(mem', size, nodes, head', tail, edge))
  {
    hide Need, Stored, TokenFree, SameNodes;
    var head' := head + Need(size, |up[0].data|);
    var end := if head <= tail then tail else edge;
    SameShrinks(mem, mem', size, head', nodes, end);
    TilesSame(mem, mem', size, up[1..], head', end);
    if tail < head {
      SameShrinks(mem, mem', size, 0, head, tail);
      TilesSame(mem, mem', size, lo, 0, tail);
    }
    if Clean(mem, size, nodes, head, tail, edge) {
      if head <= tail {
        TokenFreeSame(mem, mem', size, 0, head);
        TokenFreeJoin(mem', size, 0, head, head');
        TokenFreeSame(mem, mem', size, tail, nodes);
      } else {
        TokenFreeSame(mem, mem', size, tail, head);
        TokenFreeJoin(mem', size, tail, head, head');
        TokenFreeSame(mem, mem', size, edge, nodes);
      }
    }
  }

  /** The oldest message taken from node 0, the skipped nodes left behind. */
  lemma TakeLower(mem: seq<Byte>, mem': seq<Byte>, size: nat, nodes: nat, head: nat, tail: nat, edge: nat,
      lo: seq<Slot>)
    requires Shape(mem, size, nodes, head, tail, edge, [], lo) && tail < head && |mem'| == |mem|
    requires Reset(mem, mem', size, nodes, head, Need(size, |lo[0].data|))
    ensures var head' := Need(size, |lo[0].data|);
            && Shape(mem', size, nodes, head', tail, edge, lo[1..], [])
            && (Clean(mem, size, nodes, head, tail, edge) ==> Clean(mem', size, nodes, head', tail, edge))
  {
    hide Need, Stored, TokenFree, SameNodes;
    var head' := Need(size, |lo[0].data|);
    assert head == edge;
    SameShrinks(mem, mem', size, head', head, tail);
    TilesSame(mem, mem', size, lo[1..], head', tail);
    if Clean(mem, size, nodes, head, tail, edge) {
      TokenFreeSame(mem, mem', size, tail, head);
      TokenFreeJoin(mem', size, tail, head, nodes);
    }
  }

  /** A stale message taken from skipped nodes, ending no further than the ring: those stored stay. */
  lemma TakeStale(mem: seq<Byte>, mem': seq<Byte>, size: nat, nodes: nat, head: nat, tail: nat, edge: nat,
                  lo: seq<Slot>, end: nat)
    requires Shape(mem, size, nodes, head, tail, edge, [], lo) && tail < head < end <= nodes && |mem'| == |mem|
    requires mem' == mem || Reset(mem, mem', size, nodes, head, if end < nodes then end else 0)
    ensures if end < nodes then Shape(mem', size, nodes, end, tail, end, [], lo)
            else Shape(mem', size, nodes, 0, tail, edge, lo, [])
  {
    hide Need, Stored, TokenFree;
    MulBetween(size, 0, tail, head);
    MulBetween(size, tail, head, nodes);
    if mem' != mem {
      SameShrinks(mem, mem', size, 0, head, tail);
    }
    TilesSame(mem, mem', size, lo, 0, tail);
  }

  lemma ShapeBounds(mem: seq<Byte>, size: nat, nodes: nat, head: nat, tail: nat,
                    edge: nat, up: seq<Slot>, lo: seq<Slot>)
    requires Shape(mem, size, nodes, head, tail, edge, up, lo)
    ensures size > NODE_HEAD && nodes * size == |mem| && head < nodes && tail < nodes
    ensures head <= tail ==> lo == []
    ensures up + lo == [] <==> head == tail
  {
  }

  /** Where the oldest message lies. */
  lemma FrontLies(mem: seq<Byte>, size: nat, nodes: nat, head: nat, tail: nat,
                  edge: nat, up: seq<Slot>, lo: seq<Slot>)
    requires Shape(mem, size, nodes, head, tail, edge, up, lo) && up + lo != []
    ensures var s := (up + lo)[0]; var n := Need(size, |s.data|); var at := s.start * size;
            && (if up != [] then s == up[0] && s.start == head else s == lo[0] && s.start == 0 && tail < head)
            && s.start + n < nodes && at + NODE_HEAD + |s.data| <= |mem| && |s.data| >= 1
            && mem[at + 8..at + NODE_HEAD] == s.time
            && mem[at + NODE_HEAD..at + NODE_HEAD + |s.data|] == s.data
  {
    var s := (up + lo)[0];
    StoredReads(mem, size, s);
  }

  /** Head moved past the oldest message without its token being reset. */
  lemma DropFront(mem: seq<Byte>, size: nat, nodes: nat, head: nat, tail: nat,
                  edge: nat, up: seq<Slot>, lo: seq<Slot>)
    requires Shape(mem, size, nodes, head, tail, edge, up, lo) && up + lo != []
    ensures var s := (up + lo)[0]; var head' := s.start + Need(size, |s.data|);
            var up', lo' := if up != [] then up[1..] else lo[1..], if up != [] then lo else [];
            && Shape(mem, size, nodes, head', tail, edge, up', lo') && up' + lo' == (up + lo)[1..]
            && !Clean(mem, size, nodes, head', tail, edge)
  {
    var s := (up + lo)[0];
    StoredReads(mem, size, s);
    if up != [] {
      assert up[1..] + lo == (up + lo)[1..];
    }
  }

  /** The oldest message is what was handed out. */
  lemma FrontHanded(mem: seq<Byte>, mem': seq<Byte>, size: nat, nodes: nat, head: nat, tail: nat, edge: nat,
                    up: seq<Slot>, lo: seq<Slot>, head': nat, bufSize: int, ret: int, data: seq<Byte>, time: seq<Byte>)
    requires Shape(mem, size, nodes, head, tail, edge, up, lo) && up + lo != []
    requires var s := (up + lo)[0];
             && s.start < nodes && Need(size, |s.data|) <= nodes && head' == Next(nodes, s.start, Need(size, |s.data|))
             && Handed(mem, size, s.start, |s.data|, bufSize, ret, data, time)
    requires if |(up + lo)[0].data| <= bufSize then Reset(mem, mem', size, nodes, head, head') else mem' == mem
    ensures FrontTaken(mem, mem', size, nodes, head, head', (up + lo)[0], bufSize, ret, data, time)
  {
    hide Shape, Reset, Need;
    FrontLies(mem, size, nodes, head, tail, edge, up, lo);
    ShapeBounds(mem, size, nodes, head, tail, edge, up, lo);
  }

  function UpLeft(up: seq<Slot>, lo: seq<Slot>): seq<Slot>
    requires up + lo != []
  {
    if up != [] then up[1..] else lo[1..]
  }

  lemma FrontIs(mem: seq<Byte>, mem': seq<Byte>, size: nat, nodes: nat, head: nat, head': nat,
                s: Slot, bufSize: int, ret: int, data: seq<Byte>, time: seq<Byte>)
    requires FrontTaken(mem, mem', size, nodes, head, head', s, bufSize, ret, data, time)
    ensures size > NODE_HEAD && head' == s.start + Need(size, |s.data|)
    ensures ret > 0 <==> |s.data| <= bufSize
    ensures ret > 0 ==> ret == |data| && data == s.data && time == s.time && Reset(mem, mem', size, nodes, head, head')
    ensures ret <= 0 ==> ret == -2 && data == [] && mem' == mem
  {
  }

  function LoLeft(up: seq<Slot>, lo: seq<Slot>): seq<Slot>
  {
    if up != [] then lo else []
  }

  /** The oldest message has been taken, and with `reset` its tokens are gone. */
  lemma FrontLeft(mem: seq<Byte>, mem': seq<Byte>, size: nat, nodes: nat, head: nat, tail: nat,
                  edge: nat, up: seq<Slot>, lo: seq<Slot>, reset: bool)
    requires Shape(mem, size, nodes, head, tail, edge, up, lo) && up + lo != [] && |mem'| == |mem|
    requires var head' := (up + lo)[0].start + Need(size, |(up + lo)[0].data|);
             if reset then Reset(mem, mem', size, nodes, head, head') else mem' == mem
    ensures var head' := (up + lo)[0].start + Need(size, |(up + lo)[0].data|);
            && Shape(mem', size, nodes, head', tail, edge, UpLeft(up, lo), LoLeft(up, lo))
            && UpLeft(up, lo) + LoLeft(up, lo) == (up + lo)[1..]
            && (reset && Clean(mem, size, nodes, head, tail, edge) ==> Clean(mem', size, nodes, head', tail, edge))
            && (!reset ==> !Clean(mem', size, nodes, head', tail, edge))
  {
    hide Shape, Clean, Reset, Stored, Need;
    FrontLies(mem, size, nodes, head, tail, edge, up, lo);
    if !reset {
      DropFront(mem, size, nodes, head, tail, edge, up, lo);
    } else if up != [] {
      TakeUpper(mem, mem', size, nodes, head, tail, edge, up, lo);
    } else {
      TakeLower(mem, mem', size, nodes, head, tail, edge, lo);
    }
    if up != [] {
      assert up[1..] + lo == (up + lo)[1..];
    }
  }

  lemma ZeroIsFree(mem: seq<Byte>, size: nat, nodes: nat)
    requires size > NODE_HEAD && nodes * size == |mem| && 0 < nodes
    requires forall k :: 0 <= k < |mem| ==> mem[k] == 0
    ensures Shape(mem, size, nodes, 0, 0, 0, [], []) && Clean(mem, size, nodes, 0, 0, 0)
  {
    forall i | 0 <= i < nodes
      ensures i * size + 4 <= |mem| && TokenAt(mem, size, i) != START_TOKEN
    {
      NodeBounds(size, i, nodes);
    }
  }

  // ---- the queue ----

  datatype Item = Item(time: seq<Byte>, data: seq<Byte>)

  function Items(slots: seq<Slot>): (r: seq<Item>)
    ensures |r| == |slots|
  {
    seq(|slots|, i requires 0 <= i < |slots| => Item(slots[i].time, slots[i].data))
  }

  lemma ItemsRest(slots: seq<Slot>)
    requires slots != []
    ensures Items(slots) != [] && Items(slots[1..]) == Items(slots)[1..]
  {
  }

  /** Whether `n` nodes in one piece can be had: behind tail, or at node 0 in front of head. */
  predicate Fits(nodes: nat, head: nat, tail: nat, n: nat)
  {
    if head <= tail then tail + n < nodes || n < head else tail + n < head
  }

  class ShmQueue {
    const eleSize: nat
    const eleCount: nat
    const mem: array<Byte>
    var headPos: nat
    var tailPos: nat
    ghost var edge: nat
    ghost var up: seq<Slot>
    ghost var lo: seq<Slot>

    /** SQ_NODE_SIZE and the number of nodes, one of which is always left empty. */
    const size: nat := NODE_HEAD + eleSize
    const nodes: nat := eleCount + 1

    /** The positions are nodes of the ring, whatever its bytes are. */
    ghost predicate Laid()
      reads this
    {
      size > NODE_HEAD && nodes * size == mem.Length && headPos < nodes && tailPos < nodes
    }

    ghost predicate Formed()
      reads this, mem
    {
      Shape(mem[..], size, nodes, headPos, tailPos, edge, up, lo)
    }

    ghost predicate Valid()
      reads this, mem
    {
      Formed() && Clean(mem[..], size, nodes, headPos, tailPos, edge)
    }

    ghost function Slots(): seq<Slot>
      reads this
    {
      up + lo
    }

    ghost function Now(): Ring
      reads this
    {
      Ring(headPos, tailPos, Slots())
    }

    /** The messages in the queue, oldest first. */
    ghost function Contents(): seq<Item>
      reads this
    {
      Items(up + lo)
    }

    constructor (eleSize: nat, eleCount: nat)
      requires eleSize > 0 && eleCount > 0
      ensures Valid() && Contents() == [] && fresh(mem) && headPos == tailPos == 0
      ensures this.eleSize == (eleSize + 7) / 8 * 8 && this.eleCount == eleCount
    {
      this.eleSize := (eleSize + 7) / 8 * 8;
      this.eleCount := eleCount;
      var bytes := (eleCount + 1) * (NODE_HEAD + (eleSize + 7) / 8 * 8);
      mem := new Byte[bytes](_ => 0);
      headPos, tailPos, edge, up, lo := 0, 0, 0, [], [];
      new;
      ZeroIsFree(mem[..], size, nodes);
    }

    /** The message is written over what was at node `idx`, and nothing else is. */
    ghost predicate Wrote(before: seq<Byte>, idx: nat, now: seq<Byte>, data: seq<Byte>)
      reads mem
    {
      && Storable(Slot(idx, now, data)) && idx * size + NODE_HEAD + |data| <= |before|
      && mem[..] == Blit(before, idx * size, NodeImage(Slot(idx, now, data)))
    }

    /** On any bytes: refused for a bad length or when no run of nodes in one piece is free, and otherwise written to
        that run. On a well formed ring: the message joins the queue. */
    method Put(data: seq<Byte>, now: seq<Byte>) returns (ret: int, ghost idx: nat)
      requires Laid() && |now| == TIME_LEN
      modifies this, mem
      ensures Laid() && (old(Formed()) ==> Formed()) && (old(Valid()) ==> Valid())
      ensures ret in {0, -1, -2}
      ensures ret == -1 <==> |data| == 0 || |data| > MAX_SQ_DATA_LENGTH
      ensures ret == 0 <==>
              1 <= |data| <= MAX_SQ_DATA_LENGTH && Fits(nodes, old(headPos), old(tailPos), Need(size, |data|))
      ensures ret == 0 ==>
                && idx == (if headPos <= old(tailPos) && old(tailPos) + Need(size, |data|) >= nodes
                           then 0 else old(tailPos))
                && headPos == old(headPos) && tailPos == idx + Need(size, |data|) && Wrote(old(mem[..]), idx, now, data)
      ensures ret == 0 && old(Formed()) ==>
                && Contents() == old(Contents()) + [Item(now, data)] && up + lo == old(up + lo) + [Slot(idx, now, data)]
      ensures ret != 0 ==> unchanged(this) && unchanged(mem)
    {
      hide Shape, Clean, NodeImage, Blit, Wrote;
      if |data| == 0 || |data| > MAX_SQ_DATA_LENGTH {
        return -1, 0;
      }
      var need := Need(size, |data|);
      if Empty(nodes, headPos, tailPos) < need {
        return -2, 0;
      }
      var at := tailPos;
      var newTail := Next(nodes, tailPos, need);
      if newTail < tailPos {
        at := 0;
        newTail := need;
        if headPos - 1 < need {
          return -2, 0;
        }
      }
      StoreMessage(at, newTail, need, data, now);
      return 0, at;
    }

    /** The header and the data go to consecutive nodes from `idx`, then tail moves. */
    method StoreMessage(idx: nat, newTail: nat, need: nat, data: seq<Byte>, now: seq<Byte>)
      requires Laid() && |now| == TIME_LEN && 1 <= |data| <= MAX_SQ_DATA_LENGTH
      requires need == Need(size, |data|)
      requires || (idx == tailPos && newTail == tailPos + need
                   && (if headPos <= tailPos then newTail < nodes else newTail < headPos))
               || (idx == 0 && newTail == need && headPos <= tailPos && need < headPos)
      modifies this, mem
      ensures Laid() && (old(Formed()) ==> Formed()) && (old(Valid()) ==> Valid())
      ensures headPos == old(headPos) && tailPos == newTail && Wrote(old(mem[..]), idx, now, data)
      ensures old(Formed()) ==>
                Contents() == old(Contents()) + [Item(now, data)] && up + lo == old(up + lo) + [Slot(idx, now, data)]
    {
      hide Shape, Clean, NodeImage, Blit;
      ghost var before := mem[..];
      MulBetween(size, idx, idx + need, nodes);
      WriteNode(idx, data, now);
      if old(Formed()) {
        Join(before, Slot(idx, now, data), newTail);
      }
      tailPos := newTail;
    }

    /** The message just written behind tail becomes the last of the queue. */
    ghost method Join(before: seq<Byte>, s: Slot, newTail: nat)
      requires Shape(before, size, nodes, headPos, tailPos, edge, up, lo) && Storable(s)
      requires newTail == s.start + Need(size, |s.data|) && s.start * size + NODE_HEAD + |s.data| <= |before|
      requires || (s.start == tailPos && (if headPos <= tailPos then newTail < nodes else newTail < headPos))
               || (s.start == 0 && headPos <= tailPos && newTail < headPos)
      requires mem[..] == Blit(before, s.start * size, NodeImage(s))
      modifies this`edge, this`up, this`lo
      ensures Shape(mem[..], size, nodes, headPos, newTail, edge, up, lo)
      ensures Clean(before, size, nodes, headPos, tailPos, old(edge)) ==>
              Clean(mem[..], size, nodes, headPos, newTail, edge)
      ensures up + lo == old(up + lo) + [s]
    {
      hide Shape, Clean, NodeImage, Blit;
      ShapeBounds(before, size, nodes, headPos, tailPos, edge, up, lo);
      if s.start == 0 && headPos <= tailPos && newTail < headPos {
        PutWrapped(before, size, nodes, headPos, tailPos, edge, up, s);
        edge := tailPos;
        lo := [s];
      } else if headPos <= tailPos {
        PutUpper(before, size, nodes, headPos, tailPos, edge, up, s);
        up := up + [s];
        assert up + [] == up;
      } else {
        PutLower(before, size, nodes, headPos, tailPos, edge, up, lo, s);
        assert up + (lo + [s]) == up + lo + [s];
        lo := lo + [s];
      }
    }

    method WriteNode(idx: nat, data: seq<Byte>, now: seq<Byte>)
      requires |now| == TIME_LEN && 1 <= |data| <= MAX_SQ_DATA_LENGTH
      requires idx * size + NODE_HEAD + |data| <= mem.Length
      modifies mem
      ensures mem[..] == Blit(old(mem[..]), idx * size, NodeImage(Slot(idx, now, data)))
    {
      hide Blit;
      var at := idx * size;
      Copy(mem, at, Le32(START_TOKEN));
      Copy(mem, at + 4, Le32(|data|));
      BlitAdjacent(old(mem[..]), at, Le32(START_TOKEN), Le32(|data|));
      Copy(mem, at + 8, now);
      BlitAdjacent(old(mem[..]), at, Le32(START_TOKEN) + Le32(|data|), now);
      Copy(mem, at + NODE_HEAD, data);
      BlitAdjacent(old(mem[..]), at, Le32(START_TOKEN) + Le32(|data|) + now, data);
    }

    /** The scan for a start token; it ends because the ring distance to tail shrinks. */
    method Find() returns (r: Scan)
      requires size > NODE_HEAD && nodes * size == mem.Length && headPos < nodes && tailPos < nodes
      ensures r == Search(mem[..], size, nodes, headPos, tailPos)
    {
      hide Word, Need, Empty;
      ghost var bytes := mem[..];
      var head: nat := headPos;
      while head != tailPos
        invariant head < nodes
        invariant Search(bytes, size, nodes, head, tailPos) == Search(bytes, size, nodes, headPos, tailPos)
        decreases Distance(nodes, head, tailPos)
      {
        NodeBounds(size, head, nodes);
        var at := head * size;
        assert bytes[at..at + 4] == mem[at..at + 4] && bytes[at + 4..at + 8] == mem[at + 4..at + 8];
        if Word(mem[at..at + 4]) == START_TOKEN {
          var len := Word(mem[at + 4..at + 8]);
          var need := Need(size, len);
          if eleCount - Empty(nodes, head, tailPos) >= need {
            return Found(head, need, len);
          }
        }
        head := Next(nodes, head, 1);
      }
      return AtEnd;
    }

    /** Nodes found to hold nothing up to tail are given back. */
    method FindStart() returns (r: Scan)
      requires size > NODE_HEAD && nodes * size == mem.Length && headPos < nodes && tailPos < nodes
      modifies this`headPos, mem
      ensures r == Search(old(mem[..]), size, nodes, old(headPos), tailPos)
      ensures r.Found? || old(headPos) == tailPos ==> headPos == old(headPos) && unchanged(mem)
      ensures r.AtEnd? ==> headPos == tailPos && Reset(old(mem[..]), mem[..], size, nodes, old(headPos), tailPos)
    {
      hide Reset, Search;
      r := Find();
      if r.AtEnd? {
        ResetNothing(mem[..], size, nodes, headPos);
        if headPos != tailPos {
          var oldHead := headPos;
          headPos := tailPos;
          ResetTokens(oldHead, tailPos);
        }
      }
    }

    method ResetTokens(oldHead: nat, newHead: nat)
      requires size > NODE_HEAD && nodes * size == mem.Length && oldHead < nodes && newHead < nodes
      modifies mem
      ensures Reset(old(mem[..]), mem[..], size, nodes, oldHead, newHead)
    {
      hide Reset, Blit, Le32;
      ghost var before := mem[..];
      ResetNothing(before, size, nodes, oldHead);
      var cur: nat := oldHead;
      while cur != newHead
        invariant cur < nodes && Reset(before, mem[..], size, nodes, oldHead, cur)
        invariant Distance(nodes, oldHead, cur) + Distance(nodes, cur, newHead) == Distance(nodes, oldHead, newHead)
        decreases Distance(nodes, cur, newHead)
      {
        ResetOneMore(before, mem[..], size, nodes, oldHead, cur);
        Copy(mem, cur * size, Le32(0));
        cur := Next(nodes, cur, 1);
      }
    }

    /** The bytes of `len` from `off` on; what lies behind the ring is not known. */
    method CopyOut(off: nat, len: nat) returns (data: seq<Byte>)
      requires off <= mem.Length
      ensures |data| == len && (off + len <= mem.Length ==> data == mem[off..off + len])
    {
      if off + len <= mem.Length {
        return mem[off..off + len];
      }
      var beyond: seq<Byte> :| |beyond| == off + len - mem.Length by {
        assert |seq(off + len - mem.Length, _ => 0 as Byte)| == off + len - mem.Length;
      }
      return mem[off..] + beyond;
    }

    /** What is found is taken: head moves past it, and the buffer decides whether it is handed out and its tokens are
        reset. */
    method Take(at: nat, need: nat, len: nat, bufSize: int) returns (ret: int, data: seq<Byte>, time: seq<Byte>)
      requires size > NODE_HEAD && nodes * size == mem.Length && headPos < nodes && at < nodes && need <= nodes
      modifies this`headPos, mem
      ensures headPos == Next(nodes, at, need) && Handed(old(mem[..]), size, at, len, bufSize, ret, data, time)
      ensures len > bufSize ==> unchanged(mem)
      ensures len <= bufSize ==> Reset(old(mem[..]), mem[..], size, nodes, old(headPos), headPos)
    {
      hide Reset;
      NodeBounds(size, at, nodes);
      var oldHead := headPos;
      headPos := Next(nodes, at, need);
      var off := at * size;
      time := mem[off + 8..off + NODE_HEAD];
      if len > bufSize {
        return -2, [], time;
      }
      data := CopyOut(off + NODE_HEAD, len);
      ResetTokens(oldHead, headPos);
      return len, data, time;
    }

    /** The reader is about to take a skipped node for a message. */
    ghost predicate Astray()
      reads this, mem
    {
      Misled(mem[..], size, nodes, headPos, tailPos, up)
    }

    /** sq_get on any bytes: the scan decides what is taken, and the buffer whether it is handed out and reset. */
    method ScanAndTake(bufSize: int) returns (ret: int, data: seq<Byte>, time: seq<Byte>)
      requires Laid() && bufSize >= 1
      modifies this`headPos, mem
      ensures Laid()
      ensures Answered(old(mem[..]), mem[..], size, nodes, old(headPos), tailPos, headPos, bufSize, ret, data, time)
    {
      hide Search, Reset, Need, Handed;
      SearchBounds(mem[..], size, nodes, headPos, tailPos);
      ghost var before := mem[..];
      var r := FindStart();
      if r.Found? {
        assert mem[..] == before;
        ret, data, time := Take(r.at, r.need, r.len, bufSize);
      } else {
        if old(headPos) == tailPos {
          assert mem[..] == before;
          ResetNothing(before, size, nodes, tailPos);
        }
        ret, data, time := 0, [], [];
      }
    }

    /** On a well formed ring, takes the oldest message exactly when no skipped node looks like one; else it takes the
        first that does. What is taken is handed out when the buffer can hold it, and is gone from the queue all the
        same when it cannot. */
    method Get(bufSize: int) returns (ret: int, data: seq<Byte>, time: seq<Byte>, ghost at: nat)
      requires Laid()
      modifies this, mem
      ensures Laid() && tailPos == old(tailPos)
      ensures bufSize < 1 ==> ret == -1 && unchanged(this) && unchanged(mem)
      ensures bufSize >= 1 ==>
                Answered(old(mem[..]), mem[..], size, nodes, old(headPos), tailPos, headPos, bufSize, ret, data, time)
      ensures bufSize >= 1 && old(Formed()) && old(Contents()) == [] ==>
              ret == 0 && unchanged(this) && mem[..] == old(mem[..])
      ensures bufSize >= 1 && old(Formed()) && old(Contents()) != [] && !old(Astray()) ==>
                && Formed() && Contents() == old(Contents())[1..] && up + lo == old(up + lo)[1..]
                && FrontTaken(old(mem[..]), mem[..], size, nodes, old(headPos), headPos, old((up + lo)[0]), bufSize,
                   ret, data, time)
                && (if ret > 0 then old(Valid()) ==> Valid() else !Valid())
      ensures bufSize >= 1 && old(Formed()) && old(Astray()) ==>
                && StaleTaken(old(mem[..]), mem[..], size, nodes, old(headPos), tailPos, headPos, at, bufSize, ret,
                   data, time)
                && (EndAt(old(mem[..]), size, at) <= nodes ==>
                      Formed() && Contents() == old(Contents()) && up + lo == old(up + lo))
    {
      hide Shape, Clean, Search, Reset, Need, Misled, FrontTaken, StaleTaken, Items, Answered;
      at := 0;
      if bufSize < 1 {
        return -1, [], [], 0;
      }
      ghost var before, head0, formed := mem[..], headPos, Formed();
      ret, data, time := ScanAndTake(bufSize);
      if formed {
        ShapeBounds(before, size, nodes, head0, tailPos, edge, up, lo);
        if up + lo == [] {
          AnsweredNothing(before, mem[..], size, nodes, head0, headPos, bufSize, ret, data, time);
          NotMisled(before, size, nodes, head0, tailPos, up);
        } else {
          at := Account(before, head0, bufSize, ret, data, time);
          ItemsRest(old(up + lo));
        }
      }
    }

    /** What has been taken off a well formed ring. */
    ghost method Account(before: seq<Byte>, head0: nat, bufSize: int, ret: int, data: seq<Byte>, time: seq<Byte>)
        returns (at: nat)
      requires Shape(before, size, nodes, head0, tailPos, edge, up, lo) && up + lo != [] && mem.Length == |before|
      requires Answered(before, mem[..], size, nodes, head0, tailPos, headPos, bufSize, ret, data, time)
      modifies this`edge, this`up, this`lo
      ensures !Misled(before, size, nodes, head0, tailPos, old(up)) ==>
                && Formed() && up + lo == old(up + lo)[1..]
                && FrontTaken(before, mem[..], size, nodes, head0, headPos, old((up + lo)[0]), bufSize, ret, data, time)
                && (if ret > 0 then Clean(before, size, nodes, head0, tailPos, old(edge)) ==> Valid() else !Valid())
      ensures Misled(before, size, nodes, head0, tailPos, old(up)) ==>
                && StaleTaken(before, mem[..], size, nodes, head0, tailPos, headPos, at, bufSize, ret, data, time)
                && (EndAt(before, size, at) <= nodes ==> Formed() && up + lo == old(up + lo))
    {
      hide Shape, Clean, NodeImage, Blit, Search, Reset, Stored, Need, Misled, FirstPlausible, UpLeft, LoLeft,
        FrontTaken;
      SkipIsExact(before, size, nodes, head0, tailPos, edge, up, lo);
      FrontLies(before, size, nodes, head0, tailPos, edge, up, lo);
      at := 0;
      if !Misled(before, size, nodes, head0, tailPos, up) {
        var fits := |(up + lo)[0].data| <= bufSize;
        FrontHanded(before, mem[..], size, nodes, head0, tailPos, edge, up, lo, headPos, bufSize, ret, data, time);
        FrontIs(before, mem[..], size, nodes, head0, headPos, (up + lo)[0], bufSize, ret, data, time);
        FrontLeft(before, mem[..], size, nodes, head0, tailPos, edge, up, lo, fits);
        up, lo := UpLeft(up, lo), LoLeft(up, lo);
      } else {
        at := FindsStale(before, size, nodes, head0, tailPos, up);
        var end := EndAt(before, size, at);
        MisledMeans(before, size, nodes, head0, tailPos, up);
        assert StaleTaken(before, mem[..], size, nodes, head0, tailPos, headPos, at, bufSize, ret, data, time);
        if end <= nodes {
          TakeStale(before, mem[..], size, nodes, head0, tailPos, edge, lo, end);
          if end < nodes {
            edge := end;
          } else {
            up, lo := lo, [];
          }
          assert up + lo == old(up + lo);
        }
      }
    }
  }

  /** A buffer shorter than the oldest message: the message leaves the queue, and asking again finds nothing. */
  method ShortBuffer() returns (put: int, short: int, retry: int)
    ensures put == 0 && short == -2 && retry == 0
  {
    hide Shape, Clean, NodeImage, Misled, Answered, StaleTaken;
    var q := new ShmQueue(8, 3);
    ShapeBounds(q.mem[..], q.size, q.nodes, q.headPos, q.tailPos, q.edge, q.up, q.lo);
    ghost var idx, at;
    var data, time;
    put, idx := q.Put([1, 2], Epoch());
    CleanLeads(q.mem[..], q.size, q.nodes, q.headPos, q.tailPos, q.edge, q.up, q.lo);
    short, data, time, at := q.Get(1);
    retry, data, time, at := q.Get(100);
  }

  function Epoch(): seq<Byte> { seq(TIME_LEN, _ => 0) }

  /** In a ring of ten nodes of 32 bytes, node 8 still holds a dropped message, and 6, 7 and 9 hold none. */
  ghost predicate Lurks(mem: seq<Byte>, c: seq<Byte>)
  {
    && |mem| == 320 && TokenFree(mem, 32, 6, 8) && Stored(mem, 32, Slot(8, Epoch(), c)) && TokenFree(mem, 32, 9, 10)
  }

  lemma LurksSame(a: seq<Byte>, b: seq<Byte>, c: seq<Byte>)
    requires Lurks(a, c) && |c| <= 8 && SameNodes(a, b, 32, 6, 9)
             && (SameNodes(a, b, 32, 9, 10) || TokenFree(b, 32, 9, 10))
    ensures Lurks(b, c)
  {
    hide TokenFree, Stored, NodeImage;
    SameShrinks(a, b, 32, 6, 9, 8);
    TokenFreeSame(a, b, 32, 6, 8);
    StoredSame(a, b, 32, 8, 9, Slot(8, Epoch(), c));
    if SameNodes(a, b, 32, 9, 10) {
      TokenFreeSame(a, b, 32, 9, 10);
    }
  }

  lemma StoredSame(a: seq<Byte>, b: seq<Byte>, size: nat, lo: nat, hi: nat, s: Slot)
    requires Stored(a, size, s) && SameNodes(a, b, size, lo, hi)
    requires lo * size <= s.start * size && s.start * size + NODE_HEAD + |s.data| <= hi * size
    ensures Stored(b, size, s)
  {
    SameInside(a, b, size, lo, hi, s.start * size, s.start * size + NODE_HEAD + |s.data|);
  }

  /** A message stored short of node 6 leaves it. */
  lemma LurksPut(a: seq<Byte>, b: seq<Byte>, c: seq<Byte>, s: Slot)
    requires Lurks(a, c) && |c| <= 8 && Storable(s) && s.start + Need(32, |s.data|) <= 6
    requires s.start * 32 + NODE_HEAD + |s.data| <= |a| && b == Blit(a, s.start * 32, NodeImage(s))
    ensures Lurks(b, c)
  {
    hide TokenFree, Stored, NodeImage, Blit, SameNodes;
    BlitLeaves(a, 32, s.start, Need(32, |s.data|), NodeImage(s), 6, 9);
    BlitLeaves(a, 32, s.start, Need(32, |s.data|), NodeImage(s), 9, 10);
    LurksSame(a, b, c);
  }

  /** Taking the messages short of node 6, or those round the end from node 9, leaves it. */
  lemma LurksReset(a: seq<Byte>, b: seq<Byte>, c: seq<Byte>, from: nat, to: nat)
    requires Lurks(a, c) && |c| <= 8 && |b| == |a| && Reset(a, b, 32, 10, from, to) && to <= 6
             && (from <= to || from == 9)
    ensures Lurks(b, c)
  {
    hide TokenFree, Stored, NodeImage, Blit, SameNodes;
    if from <= to {
      SameShrinks(a, b, 32, to, 10, 6);
      SameShrinks(a, b, 32, 6, 10, 9);
    } else {
      SameShrinks(a, b, 32, to, 9, 6);
    }
    LurksSame(a, b, c);
  }

  /** The ring of the run below, empty, with a dropped message in node 8. */
  ghost predicate Empties(q: ShmQueue, pos: nat, c: seq<Byte>)
    reads q, q.mem
  {
    q.size == 32 && q.nodes == 10 && q.Formed() && q.headPos == q.tailPos == pos && Lurks(q.mem[..], c)
  }

  /** A message of eight nodes goes through. */
  method Warm() returns (q: ShmQueue)
    ensures fresh(q) && fresh(q.mem) && q.Valid() && q.size == 32 && q.nodes == 10 && q.headPos == q.tailPos == 8
    ensures q.Contents() == []
  {
    hide Shape, NodeImage, Misled, Clean, Reset, Blit, Answered, StaleTaken;
    q := new ShmQueue(8, 9);
    ShapeBounds(q.mem[..], q.size, q.nodes, q.headPos, q.tailPos, q.edge, q.up, q.lo);
    var ret, idx := q.Put(seq(232, _ => 0), Epoch());
    CleanLeads(q.mem[..], q.size, q.nodes, q.headPos, q.tailPos, q.edge, q.up, q.lo);
    ghost var at;
    var data, time;
    ret, data, time, at := q.Get(1000);
  }

  /** The next one is dropped by a short buffer. */
  method DropOne(q: ShmQueue, c: seq<Byte>) returns (short: int)
    requires q.Valid() && q.size == 32 && q.nodes == 10 && q.headPos == q.tailPos == 8 && 2 <= |c| <= 8
    modifies q, q.mem
    ensures Empties(q, 9, c) && short == -2
  {
    hide Shape, NodeImage, Misled, TokenFree, Stored, Clean, Reset, Blit, Answered, StaleTaken;
    ShapeBounds(q.mem[..], q.size, q.nodes, q.headPos, q.tailPos, q.edge, q.up, q.lo);
    ghost var before := q.mem[..];
    var ret, idx := q.Put(c, Epoch());
    LurksNow(before, q.mem[..], q.edge, c);
    CleanLeads(q.mem[..], q.size, q.nodes, q.headPos, q.tailPos, q.edge, q.up, q.lo);
    ghost var at;
    var data, time;
    short, data, time, at := q.Get(1);
  }

  lemma LurksNow(before: seq<Byte>, mem: seq<Byte>, edge: nat, c: seq<Byte>)
    requires |before| == 320 && 1 <= |c| <= 8 && mem == Blit(before, 8 * 32, NodeImage(Slot(8, Epoch(), c)))
    requires Clean(mem, 32, 10, 8, 9, edge)
    ensures Lurks(mem, c)
  {
    BlitStores(before, 32, Slot(8, Epoch(), c));
    TokenFreeTo(mem, 32, 0, 6, 8);
  }

  /** With a message at the head, or nothing but token-free nodes up to the end of the ring, the reader is not misled.
      */
  lemma Straight(mem: seq<Byte>, head: nat, tail: nat, edge: nat, up: seq<Slot>, lo: seq<Slot>)
    requires Shape(mem, 32, 10, head, tail, edge, up, lo) && up + lo != []
    requires (up + lo)[0].start == head > 0 || TokenFree(mem, 32, head, 10)
    ensures !Misled(mem, 32, 10, head, tail, up)
  {
  }

  /** A message that fits short of node 6 goes through, over the end of the ring if it must. */
  method PassOne(q: ShmQueue, data: seq<Byte>, n: nat, pos: nat, ghost c: seq<Byte>) returns (got: seq<Byte>)
    requires Empties(q, pos, c) && |c| <= 8 && 1 <= |data| <= 1000 && n == Need(32, |data|) && 0 < pos
    requires if pos == 9 then 2 <= n <= 6 else pos + n <= 6
    modifies q, q.mem
    ensures Empties(q, if pos == 9 then n else pos + n, c) && got == data
  {
    hide Shape, NodeImage, Misled, TokenFree, Stored, Clean, Reset, Blit, Lurks, Answered, StaleTaken;
    ShapeBounds(q.mem[..], q.size, q.nodes, q.headPos, q.tailPos, q.edge, q.up, q.lo);
    ghost var before := q.mem[..];
    var ret, idx := q.Put(data, Epoch());
    LurksPut(before, q.mem[..], c, Slot(idx, Epoch(), data));
    LurksMeans(q.mem[..], c);
    Straight(q.mem[..], q.headPos, q.tailPos, q.edge, q.up, q.lo);
    ghost var mid, at := q.mem[..], 0;
    var time;
    ret, got, time, at := q.Get(1000);
    LurksReset(mid, q.mem[..], c, pos, q.headPos);
  }

  lemma LurksMeans(mem: seq<Byte>, c: seq<Byte>)
    requires Lurks(mem, c)
    ensures TokenFree(mem, 32, 9, 10)
  {
  }

  /** What node 8 looks like to a reader that comes by from node 6. */
  lemma LurksPlausible(mem: seq<Byte>, tail: nat, c: seq<Byte>)
    requires Lurks(mem, c) && 1 <= |c| <= 8 && tail < 6
    ensures FirstPlausible(mem, 32, 10, 6, tail, 8) && Misled(mem, 32, 10, 6, tail, [])
    ensures LenAt(mem, 32, 8) == |c| && EndAt(mem, 32, 8) == 9
    ensures forall i :: 6 <= i < 10 && FirstPlausible(mem, 32, 10, 6, tail, i) ==> i == 8
    ensures mem[8 * 32 + NODE_HEAD..8 * 32 + NODE_HEAD + |c|] == c
  {
    StoredReads(mem, 32, Slot(8, Epoch(), c));
    assert Plausible(mem, 32, 10, tail, 8);
    assert !Plausible(mem, 32, 10, tail, 6) && !Plausible(mem, 32, 10, tail, 7);
  }

  /** The reader comes by node 8 and hands out what was dropped. */
  method Revive(q: ShmQueue, c: seq<Byte>) returns (got: seq<Byte>)
    requires q.size == 32 && q.nodes == 10 && q.Formed() && q.headPos == 6 && q.tailPos == 4 && |q.up + q.lo| == 1
    requires Lurks(q.mem[..], c) && 1 <= |c| <= 8
    modifies q, q.mem
    ensures got == c && q.Formed() && q.up + q.lo == old(q.up + q.lo) && q.headPos == 9 && q.tailPos == 4
    ensures TokenFree(q.mem[..], 32, 9, 10)
  {
    hide NodeImage, Misled, TokenFree, Stored, Clean, Blit, Lurks, FirstPlausible, Tiles, SameNodes, Answered;
    LurksPlausible(q.mem[..], 4, c);
    LurksMeans(q.mem[..], c);
    assert q.up == [];
    ghost var before, at := q.mem[..], 0;
    var ret, time;
    ret, got, time, at := q.Get(1000);
    TokenFreeSame(before, q.mem[..], 32, 9, 10);
  }

  /** A message that a short buffer dropped is handed out later, after messages put long after it and before one of
      them. In a ring of ten nodes, c takes one and is dropped, d and e go through, and f and g are put. */
  method Revived(c: seq<Byte>, d: seq<Byte>, e: seq<Byte>, f: seq<Byte>, g: seq<Byte>)
    returns (short: int, got: seq<seq<Byte>>)
    requires 2 <= |c| <= 8 < |d| <= 40 < |e| <= 72 < |g| <= 104 && 1 <= |f| <= 8
    ensures short == -2 && got == [d, e, f, c, g]
  {
    hide Shape, NodeImage, Misled, TokenFree, Stored, Clean, Reset, Blit, Lurks, Answered, StaleTaken;
    var q := Warm();
    short := DropOne(q, c);
    var first := PassOne(q, d, 2, 9, c);
    var second := PassOne(q, e, 3, 2, c);
    var third := FillUp(q, f, g, c);
    var fourth := Revive(q, c);
    ShapeBounds(q.mem[..], q.size, q.nodes, q.headPos, q.tailPos, q.edge, q.up, q.lo);
    Straight(q.mem[..], q.headPos, q.tailPos, q.edge, q.up, q.lo);
    var _, fifth, _, _ := q.Get(1000);
    got := [first, second, third, fourth, fifth];
  }

  /** One message behind head, one over the end of the ring, and the first is taken. */
  method FillUp(q: ShmQueue, f: seq<Byte>, g: seq<Byte>, c: seq<Byte>) returns (got: seq<Byte>)
    requires Empties(q, 5, c) && |c| <= 8 && 1 <= |f| <= 8 && 72 < |g| <= 104
    modifies q, q.mem
    ensures q.Formed() && q.headPos == 6 && q.tailPos == 4 && q.up + q.lo == [Slot(0, Epoch(), g)]
    ensures Lurks(q.mem[..], c) && got == f
  {
    hide Shape, NodeImage, Misled, TokenFree, Stored, Clean, Reset, Blit, Lurks, Answered, StaleTaken;
    ShapeBounds(q.mem[..], q.size, q.nodes, q.headPos, q.tailPos, q.edge, q.up, q.lo);
    ghost var before := q.mem[..];
    var ret, idx := q.Put(f, Epoch());
    LurksPut(before, q.mem[..], c, Slot(5, Epoch(), f));
    before := q.mem[..];
    ret, idx := q.Put(g, Epoch());
    LurksPut(before, q.mem[..], c, Slot(0, Epoch(), g));
    Straight(q.mem[..], q.headPos, q.tailPos, q.edge, q.up, q.lo);
    before := q.mem[..];
    ghost var at;
    var time;
    ret, got, time, at := q.Get(1000);
    LurksReset(before, q.mem[..], c, 5, 6);
  }

  datatype Call = PutCall(data: seq<Byte>, now: seq<Byte>) | GetCall(bufSize: int)

  datatype Reply = Queued | BadArgument | Full | Gave(item: Item) | Nothing

  /** The ring as nothing but its messages and where they lie. */
  datatype Ring = Ring(head: nat, tail: nat, slots: seq<Slot>)

  /** One call on a FIFO in a ring of nodes; a get has room for what it finds. */
  function Fifo(size: nat, nodes: nat, q: Ring, c: Call): (Ring, Reply)
    requires size > NODE_HEAD
  {
    match c
    case PutCall(data, now) =>
      var n := Need(size, |data|);
      if |data| == 0 || |data| > MAX_SQ_DATA_LENGTH then (q, BadArgument)
      else if !Fits(nodes, q.head, q.tail, n) then (q, Full)
      else
        var at := if q.head <= q.tail && q.tail + n >= nodes then 0 else q.tail;
        (Ring(q.head, at + n, q.slots + [Slot(at, now, data)]), Queued)
    case GetCall(bufSize) =>
      if bufSize < 1 then (q, BadArgument)
      else if q.slots == [] then (q, Nothing)
      else
        var s := q.slots[0];
        (Ring(s.start + Need(size, |s.data|), q.tail, q.slots[1..]), Gave(Item(s.time, s.data)))
  }

  /** The ring after the first n calls of a run. */
  function RingAfter(size: nat, nodes: nat, q: Ring, calls: seq<Call>, n: nat): Ring
    requires size > NODE_HEAD && n <= |calls|
  {
    if n == 0 then q else Fifo(size, nodes, RingAfter(size, nodes, q, calls, n - 1), calls[n - 1]).0
  }

  /** The replies of a run are those of the FIFO. */
  ghost predicate Replied(size: nat, nodes: nat, q: Ring, calls: seq<Call>, replies: seq<Reply>)
    requires size > NODE_HEAD
  {
    && |replies| <= |calls|
    && forall k :: 0 <= k < |replies| ==>
       replies[k] == Fifo(size, nodes, RingAfter(size, nodes, q, calls, k), calls[k]).1
  }

  /** What the first n calls put in. */
  function Accepted(calls: seq<Call>, replies: seq<Reply>, n: nat): seq<Item>
    requires n <= |replies| <= |calls|
  {
    if n == 0 then []
    else Accepted(calls, replies, n - 1) + Took(calls[n - 1], replies[n - 1])
  }

  function Took(c: Call, r: Reply): seq<Item>
  {
    if c.PutCall? && r.Queued? then [Item(c.now, c.data)] else []
  }

  /** What the first n calls handed out. */
  function Delivered(replies: seq<Reply>, n: nat): seq<Item>
    requires n <= |replies|
  {
    if n == 0 then [] else Delivered(replies, n - 1) + GaveOut(replies[n - 1])
  }

  function GaveOut(r: Reply): seq<Item>
  {
    if r.Gave? then [r.item] else []
  }

  lemma FifoStepConserves(size: nat, nodes: nat, q: Ring, c: Call)
    requires size > NODE_HEAD
    ensures var (q', r) := Fifo(size, nodes, q, c); Items(q.slots) + Took(c, r) == GaveOut(r) + Items(q'.slots)
  {
    hide Need;
    var (q', r) := Fifo(size, nodes, q, c);
    if r.Gave? {
      ItemsRest(q.slots);
      assert Items(q.slots)[0] == r.item;
    }
  }

  /** Over any run of the FIFO, what was in the queue plus what was accepted is what was delivered plus what is left. */
  lemma {:induction false} FifoConserves(size: nat, nodes: nat, q: Ring, calls: seq<Call>, replies: seq<Reply>, n: nat)
    requires size > NODE_HEAD && Replied(size, nodes, q, calls, replies) && n <= |replies|
    ensures Items(q.slots) + Accepted(calls, replies, n) ==
              Delivered(replies, n) + Items(RingAfter(size, nodes, q, calls, n).slots)
  {
    hide Fifo, Items, Took, GaveOut;
    if n == 0 {
      assert Items(q.slots) + [] == [] + Items(q.slots);
    } else {
      var before := RingAfter(size, nodes, q, calls, n - 1);
      var c, r := calls[n - 1], replies[n - 1];
      FifoConserves(size, nodes, q, calls, replies, n - 1);
      FifoStepConserves(size, nodes, before, c);
      Regroup(Items(q.slots), Accepted(calls, replies, n - 1), Took(c, r), Delivered(replies, n - 1),
        Items(before.slots), GaveOut(r), Items(RingAfter(size, nodes, q, calls, n).slots));
    }
  }

  lemma ReplyMore(size: nat, nodes: nat, q: Ring, calls: seq<Call>, replies: seq<Reply>, r: Reply)
    requires size > NODE_HEAD && Replied(size, nodes, q, calls, replies) && |replies| < |calls|
    requires r == Fifo(size, nodes, RingAfter(size, nodes, q, calls, |replies|), calls[|replies|]).1
    ensures Replied(size, nodes, q, calls, replies + [r])
  {
    hide Fifo, RingAfter;
  }

  /** The buffer of a call is refused, or can hold this message. */
  predicate Roomy(call: Call, data: seq<Byte>)
  {
    call.GetCall? ==> call.bufSize < 1 || |data| <= call.bufSize
  }

  /** One call whose buffer is refused or can hold the oldest message is that call on the FIFO. */
  method Handle(q: ShmQueue, c: Call) returns (r: Reply)
    requires q.Valid() && (c.PutCall? ==> |c.now| == TIME_LEN)
    requires q.Slots() != [] ==> Roomy(c, q.Slots()[0].data)
    modifies q, q.mem
    ensures q.Valid() && q.size > NODE_HEAD
    ensures (q.Now(), r) == Fifo(q.size, q.nodes, old(q.Now()), c)
  {
    hide Shape, Clean, Need, Misled, StaleTaken, Reset, Answered, ShmQueue.Wrote;
    ShapeBounds(q.mem[..], q.size, q.nodes, q.headPos, q.tailPos, q.edge, q.up, q.lo);
    match c
    case PutCall(data, now) =>
      var ret, _ := q.Put(data, now);
      r := if ret == 0 then Queued else if ret == -1 then BadArgument else Full;
    case GetCall(bufSize) =>
      CleanLeads(q.mem[..], q.size, q.nodes, q.headPos, q.tailPos, q.edge, q.up, q.lo);
      var ret, data, time, _ := q.Get(bufSize);
      r := if ret == -1 then BadArgument else if ret > 0 then Gave(Item(time, data)) else Nothing;
  }

  /** Any run of calls whose buffers are refused or can hold what was in the queue and what was put before gives the
      replies of a FIFO and leaves its messages: what was in the queue plus what was accepted is what was handed out
      plus what is left, in order, and every call that is not refused puts its message in or takes the oldest out. */
  method Serve(q: ShmQueue, calls: seq<Call>) returns (replies: seq<Reply>)
    requires q.Valid()
    requires forall i :: 0 <= i < |calls| && calls[i].PutCall? ==> |calls[i].now| == TIME_LEN
    requires forall i, x :: 0 <= i < |calls| && x in q.Slots() ==> Roomy(calls[i], x.data)
    requires forall i, j :: 0 <= j < i < |calls| && calls[j].PutCall? ==> Roomy(calls[i], calls[j].data)
    modifies q, q.mem
    ensures q.Valid() && q.size > NODE_HEAD && |replies| == |calls|
    ensures Replied(q.size, q.nodes, old(q.Now()), calls, replies)
    ensures q.Now() == RingAfter(q.size, q.nodes, old(q.Now()), calls, |calls|)
    ensures old(q.Contents()) + Accepted(calls, replies, |calls|) == Delivered(replies, |calls|) + q.Contents()
  {
    hide Shape, Clean, Need, Fifo, Items;
    replies := [];
    ShapeBounds(q.mem[..], q.size, q.nodes, q.headPos, q.tailPos, q.edge, q.up, q.lo);
    for i := 0 to |calls|
      invariant q.Valid() && |replies| == i && Replied(q.size, q.nodes, old(q.Now()), calls, replies)
      invariant q.Now() == RingAfter(q.size, q.nodes, old(q.Now()), calls, i)
      invariant forall k, x :: i <= k < |calls| && x in q.Slots() ==> Roomy(calls[k], x.data)
    {
      ghost var before := q.Now();
      if before.slots != [] {
        assert before.slots[0] in q.Slots();
      }
      var r := Handle(q, calls[i]);
      FifoSlots(q.size, q.nodes, before, calls[i]);
      ReplyMore(q.size, q.nodes, old(q.Now()), calls, replies, r);
      replies := replies + [r];
    }
    FifoConserves(q.size, q.nodes, old(q.Now()), calls, replies, |calls|);
  }

  /** A call leaves no message in the queue but those that were there and the one it puts. */
  lemma FifoSlots(size: nat, nodes: nat, q: Ring, c: Call)
    requires size > NODE_HEAD
    ensures forall x :: x in Fifo(size, nodes, q, c).0.slots ==> x in q.slots || (c.PutCall? && x.data == c.data)
  {
  }
}
