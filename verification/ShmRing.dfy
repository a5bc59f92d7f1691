/** Geometry of a byte ring whose two indices range over 0..N, N included:
    position N is the same place as position 0 and both are in use. */
module ShmRing {
  import opened Bytes

  function Wrap(n: nat, i: nat): (r: nat)
    requires i < 2 * n
    ensures r < n
  {
    if i < n then i else i - n
  }

  /** Where an index stands after moving `len` bytes on: it stops at N rather than at 0. */
  function Advance(n: nat, pos: nat, len: nat): (r: nat)
    requires pos <= n && len <= n
    ensures r <= n
  {
    if pos + len <= n then pos + len else pos + len - n
  }

  /** How far round from `pos` index `i` lies. */
  function Offset(n: nat, pos: nat, i: nat): (d: nat)
    requires pos <= n && i < n
    ensures d < n || n == 0
    ensures d < n ==> Wrap(n, pos + d) == i
  {
    if i >= pos then i - pos else i + n - pos
  }

  /** Bytes from `tail` round to `head`, as enqueue computes it. */
  function FreeLen(n: nat, head: nat, tail: nat): int
  {
    if head > tail then head - tail else head + n - tail
  }

  /** Bytes from `head` round to `tail`, as dequeue computes it. */
  function UsedLen(n: nat, head: nat, tail: nat): int
  {
    if tail > head then tail - head else tail + n - head
  }

  /** With fewer than N bytes in use the indices tell how many, and coincide only when none are. */
  lemma IndicesTellLength(n: nat, head: nat, len: nat)
    requires head <= n && len < n
    ensures var tail := Advance(n, head, len);
            && FreeLen(n, head, tail) == n - len
            && (len > 0 ==> UsedLen(n, head, tail) == len)
            && (head == tail <==> len == 0)
  {
  }

  lemma AdvanceTwice(n: nat, pos: nat, a: nat, b: nat)
    requires pos <= n && a + b < n
    ensures Advance(n, Advance(n, pos, a), b) == Advance(n, pos, a + b)
  {
  }

  /** The `len` bytes met going round from `pos`. */
  function Span(block: seq<Byte>, pos: nat, len: nat): (b: seq<Byte>)
    requires pos <= |block| && len <= |block|
    ensures |b| == len
    ensures forall k :: 0 <= k < len ==> b[k] == block[Wrap(|block|, pos + k)]
  {
    if pos + len <= |block| then block[pos..pos + len]
    else block[pos..] + block[..pos + len - |block|]
  }

  /** The block after storing `bytes` going round from `pos`. */
  function Store(block: seq<Byte>, pos: nat, bytes: seq<Byte>): (r: seq<Byte>)
    requires pos <= |block| && |bytes| <= |block|
    ensures |r| == |block|
  {
    var room := |block| - pos;
    if |bytes| <= room then Blit(block, pos, bytes)
    else Blit(Blit(block, pos, bytes[..room]), 0, bytes[room..])
  }

  lemma SpanSplit(block: seq<Byte>, pos: nat, a: nat, b: nat)
    requires pos <= |block| && a + b < |block|
    ensures Span(block, pos, a + b) == Span(block, pos, a) + Span(block, Advance(|block|, pos, a), b)
  {
    var n := |block|;
    var mid := Advance(n, pos, a);
    var whole, left, right := Span(block, pos, a + b), Span(block, pos, a), Span(block, mid, b);
    forall k | 0 <= k < a + b
      ensures whole[k] == (left + right)[k]
    {
      if k >= a {
        assert Wrap(n, mid + (k - a)) == Wrap(n, pos + k);
      }
    }
  }

  /** Reading back what was stored. */
  lemma SpanOfStore(block: seq<Byte>, pos: nat, bytes: seq<Byte>)
    requires pos <= |block| && |bytes| <= |block|
    ensures Span(Store(block, pos, bytes), pos, |bytes|) == bytes
  {
  }

  /** A store after `used` bytes leaves those bytes alone when the ring has room for both. */
  lemma SpanBesideStore(block: seq<Byte>, pos: nat, used: nat, bytes: seq<Byte>)
    requires pos <= |block| && used + |bytes| < |block|
    ensures Span(Store(block, Advance(|block|, pos, used), bytes), pos, used) == Span(block, pos, used)
  {
    var n := |block|;
    var tail := Advance(n, pos, used);
    var before, after := Span(block, pos, used), Span(Store(block, tail, bytes), pos, used);
    forall k | 0 <= k < used
      ensures after[k] == before[k]
    {
      assert after[k] == Store(block, tail, bytes)[Wrap(n, pos + k)];
    }
  }

  /** Bytes known to lie at `pos` may be read in two parts. */
  lemma SpanParts(block: seq<Byte>, pos: nat, bytes: seq<Byte>, k: nat)
    requires pos <= |block| && |bytes| < |block| && k <= |bytes|
    requires Span(block, pos, |bytes|) == bytes
    ensures Span(block, pos, k) == bytes[..k]
    ensures Span(block, Advance(|block|, pos, k), |bytes| - k) == bytes[k..]
  {
    SpanSplit(block, pos, k, |bytes| - k);
    var left, right := Span(block, pos, k), Span(block, Advance(|block|, pos, k), |bytes| - k);
    assert bytes == left + right;
  }

  /** Storing one byte beyond `used + done` bytes does not touch the first `used`. */
  lemma SpanBesideByte(block: seq<Byte>, pos: nat, used: nat, done: nat, x: Byte)
    requires pos <= |block| && used + done < |block|
    ensures var at := Wrap(|block|, Advance(|block|, pos, used) + done);
            Span(block[at := x], pos, used) == Span(block, pos, used)
  {
    var n := |block|;
    var at := Wrap(n, Advance(n, pos, used) + done);
    var before, after := Span(block, pos, used), Span(block[at := x], pos, used);
    forall k | 0 <= k < used
      ensures after[k] == before[k]
    {
      assert Wrap(n, pos + k) != at;
    }
  }

  /** One more byte of `bytes` stored where the last one ended. */
  lemma SpanOneMore(block: seq<Byte>, pos: nat, done: nat, bytes: seq<Byte>)
    requires pos <= |block| && done < |bytes| < |block|
    requires Span(block, pos, done) == bytes[..done]
    ensures Span(block[Wrap(|block|, pos + done) := bytes[done]], pos, done + 1) == bytes[..done + 1]
  {
    var n := |block|;
    var block' := block[Wrap(n, pos + done) := bytes[done]];
    var before, after := Span(block, pos, done), Span(block', pos, done + 1);
    forall k | 0 <= k < done + 1
      ensures after[k] == bytes[k]
    {
      if k < done {
        assert before[k] == block[Wrap(n, pos + k)];
      }
    }
  }

  /** A store that fills the block to its end goes on at 0. */
  lemma StoreSeam(block: seq<Byte>, at: nat, u: seq<Byte>, v: seq<Byte>)
    requires at + |u| == |block| && 0 < |v| <= at
    ensures Store(block, at, u + v) == Blit(Blit(block, at, u), 0, v)
  {
    SplitBefore(u, v, |u|);
  }

  /** Three pieces stored one after the other are one store, wherever the end of the block cuts them:
      behind the last piece, ... */
  lemma StoreWhole(block: seq<Byte>, at: nat, x: seq<Byte>, y: seq<Byte>, z: seq<Byte>)
    requires at + |x| + |y| + |z| <= |block|
    ensures Blit(Blit(Blit(block, at, x), at + |x|, y), at + |x| + |y|, z) == Store(block, at, x + y + z)
  {
    BlitThree(block, at, x, y, z);
  }

  /** ... inside the second piece, ... */
  lemma StoreCutSecond(block: seq<Byte>, at: nat, x: seq<Byte>, y0: seq<Byte>, y1: seq<Byte>, z: seq<Byte>)
    requires at + |x| + |y0| == |block| && 0 < |y1| + |z| <= at
    ensures var half := Blit(Blit(block, at, x), at + |x|, y0);
            Blit(Blit(half, 0, y1), |y1|, z) == Store(block, at, x + (y0 + y1) + z)
  {
    BlitAdjacent(block, at, x, y0);
    BlitAdjacent(Blit(block, at, x + y0), 0, y1, z);
    StoreSeam(block, at, x + y0, y1 + z);
    assert x + (y0 + y1) + z == (x + y0) + (y1 + z);
  }

  /** ... inside the last piece, ... */
  lemma StoreCutLast(block: seq<Byte>, at: nat, x: seq<Byte>, y: seq<Byte>, z0: seq<Byte>, z1: seq<Byte>)
    requires at + |x| + |y| + |z0| == |block| && 0 < |z1| <= at
    ensures var half := Blit(Blit(block, at, x), at + |x|, y);
            Blit(Blit(half, at + |x| + |y|, z0), 0, z1) == Store(block, at, x + y + (z0 + z1))
  {
    StoreWhole(block, at, x, y, z0);
    StoreSeam(block, at, x + y + z0, z1);
    assert x + y + (z0 + z1) == (x + y + z0) + z1;
  }

  /** ... or inside the first. */
  lemma StoreCutFirst(block: seq<Byte>, at: nat, x0: seq<Byte>, x1: seq<Byte>, y: seq<Byte>, z: seq<Byte>)
    requires at + |x0| == |block| && 0 < |x1| && |x1| + |y| + |z| <= at
    ensures var half := Blit(Blit(block, at, x0), 0, x1);
            Blit(Blit(half, |x1|, y), |x1| + |y|, z) == Store(block, at, (x0 + x1) + y + z)
  {
    StoreWhole(Blit(block, at, x0), 0, x1, y, z);
    StoreSeam(block, at, x0, x1 + y + z);
    assert (x0 + x1) + y + z == x0 + (x1 + y + z);
  }
}
