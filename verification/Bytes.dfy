/** Raw memory: bytes, little-endian 32-bit words and block copies. */
module Bytes {

  const U32_SIZE := 0x1_0000_0000

  type Byte = x: int | 0 <= x < 256
  type U32 = x: int | 0 <= x < U32_SIZE

  /** The four bytes an x86 store of a 32-bit word leaves in memory. */
  function Le32(n: U32): (b: seq<Byte>)
    ensures |b| == 4
  {
    [n % 256, n / 256 % 256, n / 65536 % 256, n / 16777216]
  }

  /** The 32-bit word an x86 load reads from four bytes. */
  function Word(b: seq<Byte>): U32
    requires |b| == 4
  {
    var b0: int, b1: int, b2: int, b3: int := b[0], b[1], b[2], b[3];
    b0 + 256 * b1 + 65536 * b2 + 16777216 * b3
  }

  lemma WordOfLe32(n: U32)
    ensures Word(Le32(n)) == n
  {
    var n1 := n / 256;
    var n2 := n1 / 256;
    var n3 := n2 / 256;
    assert n / 65536 == n2 && n / 16777216 == n3;
    assert n == n % 256 + 256 * (n1 % 256) + 65536 * (n2 % 256) + 16777216 * n3;
  }

  /** Memory after copying `bytes` to offset `off`. */
  function Blit(mem: seq<Byte>, off: nat, bytes: seq<Byte>): (r: seq<Byte>)
    requires off + |bytes| <= |mem|
    ensures |r| == |mem|
    ensures forall k :: 0 <= k < |mem| ==> r[k] == if off <= k < off + |bytes| then bytes[k - off] else mem[k]
  {
    seq(|mem|, k requires 0 <= k < |mem| => if off <= k < off + |bytes| then bytes[k - off] else mem[k])
  }

  /** Two copies to adjacent places are one copy. */
  lemma BlitAdjacent(mem: seq<Byte>, off: nat, x: seq<Byte>, y: seq<Byte>)
    requires off + |x| + |y| <= |mem|
    ensures Blit(Blit(mem, off, x), off + |x|, y) == Blit(mem, off, x + y)
  {
  }

  lemma BlitThree(mem: seq<Byte>, off: nat, x: seq<Byte>, y: seq<Byte>, z: seq<Byte>)
    requires off + |x| + |y| + |z| <= |mem|
    ensures Blit(Blit(Blit(mem, off, x), off + |x|, y), off + |x| + |y|, z) == Blit(mem, off, x + y + z)
  {
  }

  /** Slicing a concatenation at or before the joint. */
  lemma SplitBefore<T>(x: seq<T>, y: seq<T>, k: nat)
    requires k <= |x|
    ensures (x + y)[..k] == x[..k]
    ensures (x + y)[k..] == x[k..] + y
  {
  }

  lemma SliceOfSlice<T>(s: seq<T>, lo: nat, hi: nat, i: nat, j: nat)
    requires lo <= hi <= |s| && i <= j <= hi - lo
    ensures s[lo..hi][i..j] == s[lo + i..lo + j]
  {
    forall k | 0 <= k < j - i
      ensures s[lo..hi][i..j][k] == s[lo + i..lo + j][k]
    {
    }
  }

  /** The bytes of a sequence of things, one after the other. */
  function Concat<T>(image: T -> seq<Byte>, xs: seq<T>): seq<Byte>
  {
    if xs == [] then [] else image(xs[0]) + Concat(image, xs[1..])
  }

  lemma {:induction false} ConcatAppend<T>(image: T -> seq<Byte>, xs: seq<T>, ys: seq<T>)
    ensures Concat(image, xs + ys) == Concat(image, xs) + Concat(image, ys)
  {
    if xs == [] {
      assert xs + ys == ys;
    } else {
      ConcatAppend(image, xs[1..], ys);
      assert (xs + ys)[0] == xs[0] && (xs + ys)[1..] == xs[1..] + ys;
    }
  }

  lemma ConcatSingle<T>(image: T -> seq<Byte>, x: T)
    ensures Concat(image, [x]) == image(x)
  {
    assert Concat(image, [x]) == image(x) + Concat(image, []);
  }

  /** memcpy into an array. */
  method Copy(dst: array<Byte>, off: nat, bytes: seq<Byte>)
    requires off + |bytes| <= dst.Length
    modifies dst
    ensures dst[..] == Blit(old(dst[..]), off, bytes)
  {
    for i := 0 to |bytes|
      invariant dst[..] == Blit(old(dst[..]), off, bytes[..i])
    {
      BlitAdjacent(old(dst[..]), off, bytes[..i], [bytes[i]]);
      assert bytes[..i + 1] == bytes[..i] + [bytes[i]];
      dst[off + i] := bytes[i];
      assert dst[..] == Blit(Blit(old(dst[..]), off, bytes[..i]), off + i, [bytes[i]]);
    }
    assert bytes[..|bytes|] == bytes;
  }
}
