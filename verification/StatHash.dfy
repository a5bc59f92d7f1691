/** hashid: the JS hash of a statistics id, as a bucket number. */
module StatHash {

  import opened Bytes

  const BUCKET_NUM: nat := 200

  type Id = seq<Byte>

  /** A char of the source is signed. */
  function CharBits(c: Byte): bv32
  {
    if c < 128 then c as bv32 else (c as bv32) | 0xFFFF_FF00
  }

  function Turn(hash: bv32, c: Byte): bv32
  {
    hash ^ ((hash << 5) + CharBits(c) + (hash >> 2))
  }

  function JsHash(id: Id): bv32
  {
    if id == [] then 1315423911 else Turn(JsHash(id[..|id| - 1]), id[|id| - 1])
  }

  function Reduce(hash: bv32): (b: nat)
    ensures b < BUCKET_NUM
  {
    hash as nat % BUCKET_NUM
  }

  function HashId(id: Id): (b: nat)
    ensures b < BUCKET_NUM
  {
    Reduce(JsHash(id))
  }

  method HashOf(id: Id) returns (b: nat)
    ensures b == HashId(id)
  {
    hide Turn, Reduce;
    var hash: bv32 := 1315423911;
    for i := 0 to |id|
      invariant hash == JsHash(id[..i])
    {
      assert id[..i + 1][..i] == id[..i];
      hash := Turn(hash, id[i]);
    }
    assert id[..|id|] == id;
    b := Reduce(hash);
  }
}
