/** The memory of a report queue (shm_queue): a ring of fixed-size nodes over flat bytes, in which a
    message takes consecutive nodes and its data overlays the headers of all nodes but the first. */
module SqNodes {
  import opened Bytes

  const START_TOKEN: U32 := 0x0000db03
  const NODE_HEAD := 24
  const TIME_LEN := 16
  const MAX_SQ_DATA_LENGTH := 65536

  /** A stored message: its first node, its enqueue time and its data. */
  datatype Slot = Slot(start: nat, time: seq<Byte>, data: seq<Byte>)

  /** Nodes needed for `len` bytes, for nodes of `size` bytes. */
  function Need(size: nat, len: nat): (n: nat)
    requires size > NODE_HEAD
    ensures n >= 1 && len + NODE_HEAD <= n * size < len + NODE_HEAD + size
  {
    (len + NODE_HEAD + size - 1) / size
  }

  /** A node ends before a later one begins. */
  lemma NodeBounds(size: nat, i: nat, j: nat)
    requires i < j
    ensures 0 <= i * size && i * size + size <= j * size
  {
    var k: nat := j - i - 1;
    assert j * size == (i + 1 + k) * size == i * size + size + k * size;
  }

  predicate Storable(s: Slot)
  {
    |s.time| == TIME_LEN && 1 <= |s.data| <= MAX_SQ_DATA_LENGTH
  }

  function NodeImage(s: Slot): (b: seq<Byte>)
    requires Storable(s)
    ensures |b| == NODE_HEAD + |s.data|
  {
    Le32(START_TOKEN) + Le32(|s.data|) + s.time + s.data
  }

  function TokenAt(mem: seq<Byte>, size: nat, i: nat): U32
    requires i * size + 4 <= |mem|
  {
    Word(mem[i * size..i * size + 4])
  }

  function LenAt(mem: seq<Byte>, size: nat, i: nat): U32
    requires i * size + 8 <= |mem|
  {
    Word(mem[i * size + 4..i * size + 8])
  }

  ghost predicate Stored(mem: seq<Byte>, size: nat, s: Slot)
  {
    && Storable(s)
    && s.start * size + NODE_HEAD + |s.data| <= |mem|
    && mem[s.start * size..s.start * size + NODE_HEAD + |s.data|] == NodeImage(s)
  }

  /** What the reader finds at the first node of a stored message. */
  lemma StoredReads(mem: seq<Byte>, size: nat, s: Slot)
    requires Stored(mem, size, s)
    ensures TokenAt(mem, size, s.start) == START_TOKEN && LenAt(mem, size, s.start) == |s.data|
    ensures var at := s.start * size;
            && mem[at + 8..at + NODE_HEAD] == s.time
            && mem[at + NODE_HEAD..at + NODE_HEAD + |s.data|] == s.data
  {
    var at, im, n := s.start * size, NodeImage(s), NODE_HEAD + |s.data|;
    SliceOfSlice(mem, at, at + n, 0, 4);
    SliceOfSlice(mem, at, at + n, 4, 8);
    SliceOfSlice(mem, at, at + n, 8, NODE_HEAD);
    SliceOfSlice(mem, at, at + n, NODE_HEAD, n);
    assert im[0..4] == Le32(START_TOKEN) && im[4..8] == Le32(|s.data|);
    assert im[8..NODE_HEAD] == s.time && im[NODE_HEAD..n] == s.data;
    WordOfLe32(START_TOKEN);
    WordOfLe32(|s.data|);
  }

  /** Messages that fill nodes `lo`..`hi` exactly, one after the other. */
  ghost predicate Tiles(mem: seq<Byte>, size: nat, slots: seq<Slot>, lo: nat, hi: nat)
    requires size > NODE_HEAD
    decreases |slots|
  {
    if slots == [] then lo == hi
    else
      var s := slots[0];
      && s.start == lo && Stored(mem, size, s)
      && lo + Need(size, |s.data|) <= hi
      && Tiles(mem, size, slots[1..], lo + Need(size, |s.data|), hi)
  }

  /** No node in `lo`..`hi` looks like the start of a message. */
  ghost predicate TokenFree(mem: seq<Byte>, size: nat, lo: nat, hi: nat)
  {
    && hi * size <= |mem|
    && forall i :: lo <= i < hi ==> i * size + 4 <= |mem| && TokenAt(mem, size, i) != START_TOKEN
  }

  /** Two memories agree on the bytes of nodes `lo`..`hi`. */
  ghost predicate SameNodes(a: seq<Byte>, b: seq<Byte>, size: nat, lo: nat, hi: nat)
  {
    && |a| == |b| && lo <= hi && lo * size <= hi * size <= |a|
    && a[lo * size..hi * size] == b[lo * size..hi * size]
  }

  lemma SameInside(a: seq<Byte>, b: seq<Byte>, size: nat, lo: nat, hi: nat, x: nat, y: nat)
    requires SameNodes(a, b, size, lo, hi)
    requires lo * size <= x <= y <= hi * size
    ensures a[x..y] == b[x..y]
  {
    SliceOfSlice(a, lo * size, hi * size, x - lo * size, y - lo * size);
    SliceOfSlice(b, lo * size, hi * size, x - lo * size, y - lo * size);
  }

  lemma {:induction false} TilesSame(a: seq<Byte>, b: seq<Byte>, size: nat, slots: seq<Slot>, lo: nat, hi: nat)
    requires size > NODE_HEAD && Tiles(a, size, slots, lo, hi) && SameNodes(a, b, size, lo, hi)
    ensures Tiles(b, size, slots, lo, hi)
    decreases |slots|
  {
    if slots != [] {
      var s, n := slots[0], Need(size, |slots[0].data|);
      MulBetween(size, lo, lo + n, hi);
      SameInside(a, b, size, lo, hi, lo * size, lo * size + NODE_HEAD + |s.data|);
      SameShrinks(a, b, size, lo, hi, lo + n);
      TilesSame(a, b, size, slots[1..], lo + n, hi);
    }
  }

  lemma MulBetween(size: nat, i: nat, j: nat, k: nat)
    requires i <= j <= k
    ensures i * size <= j * size <= k * size && j * size == i * size + (j - i) * size
  {
  }

  lemma SameShrinks(a: seq<Byte>, b: seq<Byte>, size: nat, lo: nat, hi: nat, mid: nat)
    requires SameNodes(a, b, size, lo, hi) && lo <= mid <= hi
    ensures SameNodes(a, b, size, lo, mid) && SameNodes(a, b, size, mid, hi)
  {
    MulBetween(size, lo, mid, hi);
    SameInside(a, b, size, lo, hi, lo * size, mid * size);
    SameInside(a, b, size, lo, hi, mid * size, hi * size);
  }

  lemma TokenFreeSame(a: seq<Byte>, b: seq<Byte>, size: nat, lo: nat, hi: nat)
    requires size > NODE_HEAD && TokenFree(a, size, lo, hi) && SameNodes(a, b, size, lo, hi)
    ensures TokenFree(b, size, lo, hi)
  {
    forall i | lo <= i < hi
      ensures i * size + 4 <= |b| && TokenAt(b, size, i) != START_TOKEN
    {
      MulBetween(size, lo, i, hi);
      NodeBounds(size, i, hi);
      SameInside(a, b, size, lo, hi, i * size, i * size + 4);
    }
  }

  lemma {:induction false} TilesAppend(mem: seq<Byte>, size: nat, slots: seq<Slot>, lo: nat, hi: nat, s: Slot)
    requires size > NODE_HEAD && Tiles(mem, size, slots, lo, hi)
    requires s.start == hi && Stored(mem, size, s)
    ensures Tiles(mem, size, slots + [s], lo, hi + Need(size, |s.data|))
    decreases |slots|
  {
    if slots == [] {
      assert (slots + [s])[1..] == [];
    } else {
      TilesAppend(mem, size, slots[1..], lo + Need(size, |slots[0].data|), hi, s);
      assert (slots + [s])[1..] == slots[1..] + [s];
    }
  }
}
