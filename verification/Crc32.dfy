/** CCrc32 and pwdtok: the table-driven CRC register and the IPC keys made from it. */
module Crc32 {

  const POLY: bv32 := 0xEDB88320

  /** One step of the reflected CRC-32 register (section 8 of RFC 1952), without initial or final complement. */
  function Shift(c: bv32): bv32
  {
    if c & 1 == 1 then POLY ^ (c >> 1) else c >> 1
  }

  function Shift8(c: bv32): bv32
  {
    Shift(Shift(Shift(Shift(Shift(Shift(Shift(Shift(c))))))))
  }

  // ---- crc_table, sixteen entries to a row ----

  function Pick(i: bv32, a0: bv32, a1: bv32, a2: bv32, a3: bv32, a4: bv32, a5: bv32, a6: bv32, a7: bv32,
                a8: bv32, a9: bv32, aA: bv32, aB: bv32, aC: bv32, aD: bv32, aE: bv32, aF: bv32): bv32
  {
    if i < 8 then
      if i < 4 then (if i < 2 then (if i == 0 then a0 else a1) else (if i == 2 then a2 else a3))
      else (if i < 6 then (if i == 4 then a4 else a5) else (if i == 6 then a6 else a7))
    else
      if i < 12 then (if i < 10 then (if i == 8 then a8 else a9) else (if i == 10 then aA else aB))
      else (if i < 14 then (if i == 12 then aC else aD) else (if i == 14 then aE else aF))
  }

  function Row0(i: bv32): bv32
  {
    Pick(i, 0x00000000, 0x77073096, 0xee0e612c, 0x990951ba, 0x076dc419,
         0x706af48f, 0xe963a535, 0x9e6495a3, 0x0edb8832, 0x79dcb8a4, 0xe0d5e91e,
         0x97d2d988, 0x09b64c2b, 0x7eb17cbd, 0xe7b82d07, 0x90bf1d91)
  }

  function Row1(i: bv32): bv32
  {
    Pick(i, 0x1db71064, 0x6ab020f2, 0xf3b97148, 0x84be41de, 0x1adad47d,
         0x6ddde4eb, 0xf4d4b551, 0x83d385c7, 0x136c9856, 0x646ba8c0, 0xfd62f97a,
         0x8a65c9ec, 0x14015c4f, 0x63066cd9, 0xfa0f3d63, 0x8d080df5)
  }

  function Row2(i: bv32): bv32
  {
    Pick(i, 0x3b6e20c8, 0x4c69105e, 0xd56041e4, 0xa2677172, 0x3c03e4d1,
         0x4b04d447, 0xd20d85fd, 0xa50ab56b, 0x35b5a8fa, 0x42b2986c, 0xdbbbc9d6,
         0xacbcf940, 0x32d86ce3, 0x45df5c75, 0xdcd60dcf, 0xabd13d59)
  }

  function Row3(i: bv32): bv32
  {
    Pick(i, 0x26d930ac, 0x51de003a, 0xc8d75180, 0xbfd06116, 0x21b4f4b5,
         0x56b3c423, 0xcfba9599, 0xb8bda50f, 0x2802b89e, 0x5f058808, 0xc60cd9b2,
         0xb10be924, 0x2f6f7c87, 0x58684c11, 0xc1611dab, 0xb6662d3d)
  }

  function Row4(i: bv32): bv32
  {
    Pick(i, 0x76dc4190, 0x01db7106, 0x98d220bc, 0xefd5102a, 0x71b18589,
         0x06b6b51f, 0x9fbfe4a5, 0xe8b8d433, 0x7807c9a2, 0x0f00f934, 0x9609a88e,
         0xe10e9818, 0x7f6a0dbb, 0x086d3d2d, 0x91646c97, 0xe6635c01)
  }

  function Row5(i: bv32): bv32
  {
    Pick(i, 0x6b6b51f4, 0x1c6c6162, 0x856530d8, 0xf262004e, 0x6c0695ed,
         0x1b01a57b, 0x8208f4c1, 0xf50fc457, 0x65b0d9c6, 0x12b7e950, 0x8bbeb8ea,
         0xfcb9887c, 0x62dd1ddf, 0x15da2d49, 0x8cd37cf3, 0xfbd44c65)
  }

  function Row6(i: bv32): bv32
  {
    Pick(i, 0x4db26158, 0x3ab551ce, 0xa3bc0074, 0xd4bb30e2, 0x4adfa541,
         0x3dd895d7, 0xa4d1c46d, 0xd3d6f4fb, 0x4369e96a, 0x346ed9fc, 0xad678846,
         0xda60b8d0, 0x44042d73, 0x33031de5, 0xaa0a4c5f, 0xdd0d7cc9)
  }

  function Row7(i: bv32): bv32
  {
    Pick(i, 0x5005713c, 0x270241aa, 0xbe0b1010, 0xc90c2086, 0x5768b525,
         0x206f85b3, 0xb966d409, 0xce61e49f, 0x5edef90e, 0x29d9c998, 0xb0d09822,
         0xc7d7a8b4, 0x59b33d17, 0x2eb40d81, 0xb7bd5c3b, 0xc0ba6cad)
  }

  function Row8(i: bv32): bv32
  {
    Pick(i, 0xedb88320, 0x9abfb3b6, 0x03b6e20c, 0x74b1d29a, 0xead54739,
         0x9dd277af, 0x04db2615, 0x73dc1683, 0xe3630b12, 0x94643b84, 0x0d6d6a3e,
         0x7a6a5aa8, 0xe40ecf0b, 0x9309ff9d, 0x0a00ae27, 0x7d079eb1)
  }

  function Row9(i: bv32): bv32
  {
    Pick(i, 0xf00f9344, 0x8708a3d2, 0x1e01f268, 0x6906c2fe, 0xf762575d,
         0x806567cb, 0x196c3671, 0x6e6b06e7, 0xfed41b76, 0x89d32be0, 0x10da7a5a,
         0x67dd4acc, 0xf9b9df6f, 0x8ebeeff9, 0x17b7be43, 0x60b08ed5)
  }

  function RowA(i: bv32): bv32
  {
    Pick(i, 0xd6d6a3e8, 0xa1d1937e, 0x38d8c2c4, 0x4fdff252, 0xd1bb67f1,
         0xa6bc5767, 0x3fb506dd, 0x48b2364b, 0xd80d2bda, 0xaf0a1b4c, 0x36034af6,
         0x41047a60, 0xdf60efc3, 0xa867df55, 0x316e8eef, 0x4669be79)
  }

  function RowB(i: bv32): bv32
  {
    Pick(i, 0xcb61b38c, 0xbc66831a, 0x256fd2a0, 0x5268e236, 0xcc0c7795,
         0xbb0b4703, 0x220216b9, 0x5505262f, 0xc5ba3bbe, 0xb2bd0b28, 0x2bb45a92,
         0x5cb36a04, 0xc2d7ffa7, 0xb5d0cf31, 0x2cd99e8b, 0x5bdeae1d)
  }

  function RowC(i: bv32): bv32
  {
    Pick(i, 0x9b64c2b0, 0xec63f226, 0x756aa39c, 0x026d930a, 0x9c0906a9,
         0xeb0e363f, 0x72076785, 0x05005713, 0x95bf4a82, 0xe2b87a14, 0x7bb12bae,
         0x0cb61b38, 0x92d28e9b, 0xe5d5be0d, 0x7cdcefb7, 0x0bdbdf21)
  }

  function RowD(i: bv32): bv32
  {
    Pick(i, 0x86d3d2d4, 0xf1d4e242, 0x68ddb3f8, 0x1fda836e, 0x81be16cd,
         0xf6b9265b, 0x6fb077e1, 0x18b74777, 0x88085ae6, 0xff0f6a70, 0x66063bca,
         0x11010b5c, 0x8f659eff, 0xf862ae69, 0x616bffd3, 0x166ccf45)
  }

  function RowE(i: bv32): bv32
  {
    Pick(i, 0xa00ae278, 0xd70dd2ee, 0x4e048354, 0x3903b3c2, 0xa7672661,
         0xd06016f7, 0x4969474d, 0x3e6e77db, 0xaed16a4a, 0xd9d65adc, 0x40df0b66,
         0x37d83bf0, 0xa9bcae53, 0xdebb9ec5, 0x47b2cf7f, 0x30b5ffe9)
  }

  function RowF(i: bv32): bv32
  {
    Pick(i, 0xbdbdf21c, 0xcabac28a, 0x53b39330, 0x24b4a3a6, 0xbad03605,
         0xcdd70693, 0x54de5729, 0x23d967bf, 0xb3667a2e, 0xc4614ab8, 0x5d681b02,
         0x2a6f2b94, 0xb40bbe37, 0xc30c8ea1, 0x5a05df1b, 0x2d02ef8d)
  }

  /** crc_table[i]. */
  function Table(i: bv32): bv32
  {
    var lo := i & 0xF;
    Pick(i >> 4, Row0(lo), Row1(lo), Row2(lo), Row3(lo), Row4(lo), Row5(lo), Row6(lo), Row7(lo),
         Row8(lo), Row9(lo), RowA(lo), RowB(lo), RowC(lo), RowD(lo), RowE(lo), RowF(lo))
  }

  /** The table holds eight register steps for each index. */
  lemma TableIsShift8(i: bv32)
    requires i < 256
    ensures Table(i) == Shift8(i)
  {
  }

  // ---- the register, one bit of input at a time ----

  function Shifts(c: bv32, k: nat): bv32
    decreases k
  {
    if k == 0 then c else Shifts(Shift(c), k - 1)
  }

  function Halve(b: bv32, k: nat): bv32
    decreases k
  {
    if k == 0 then b else Halve(b >> 1, k - 1)
  }

  /** Feeds the low `k` bits of `b`, lowest first. */
  function FeedBits(c: bv32, b: bv32, k: nat): bv32
    decreases k
  {
    if k == 0 then c else FeedBits(Shift(c ^ (b & 1)), b >> 1, k - 1)
  }

  /** The register after a string of bytes, fed bit by bit. */
  function Feed(c: bv32, bytes: seq<bv8>): bv32
    decreases |bytes|
  {
    if bytes == [] then c else Feed(FeedBits(c, bytes[0] as bv32, 8), bytes[1..])
  }

  /** Higher input bits pass through a step unchanged. */
  lemma PeelBit(c: bv32, b: bv32)
    ensures Shift(c ^ b) == Shift(c ^ (b & 1)) ^ (b >> 1)
  {
  }

  /** Steps with the input folded in at once are steps fed bit by bit; input beyond them passes through. */
  lemma {:induction false} PeelBits(c: bv32, b: bv32, k: nat)
    ensures Shifts(c ^ b, k) == FeedBits(c, b, k) ^ Halve(b, k)
    decreases k
  {
    hide Shift;
    if k > 0 {
      var c', b' := Shift(c ^ (b & 1)), b >> 1;
      PeelBit(c, b);
      assert Shifts(c ^ b, k) == Shifts(c' ^ b', k - 1);
      PeelBits(c', b', k - 1);
      assert FeedBits(c, b, k) == FeedBits(c', b', k - 1);
      assert Halve(b, k) == Halve(b', k - 1);
    }
  }

  lemma EightShifts(c: bv32)
    ensures Shifts(c, 8) == Shift8(c)
  {
    hide Shift;
    var c1 := Shift(c);
    var c2 := Shift(c1);
    var c4 := Shift(Shift(c2));
    var c6 := Shift(Shift(c4));
    assert Shifts(c, 8) == Shifts(c1, 7) == Shifts(c2, 6);
    assert Shifts(c2, 6) == Shifts(c4, 4) == Shifts(c6, 2) == Shift(Shift(c6));
  }

  lemma HalveEight(b: bv32)
    ensures Halve(b, 8) == b >> 8
  {
    assert Halve(b, 8) == Halve(b >> 1, 7) == Halve(b >> 1 >> 1, 6);
    assert Halve(b >> 1 >> 1, 6) == Halve(b >> 1 >> 1 >> 1 >> 1, 4) == Halve(b >> 1 >> 1 >> 1 >> 1 >> 1 >> 1, 2);
  }

  lemma PeelByte(c: bv32, b: bv32)
    ensures Shift8(c ^ b) == FeedBits(c, b, 8) ^ (b >> 8)
  {
    hide Shift8, FeedBits, Halve;
    PeelBits(c, b, 8);
    EightShifts(c ^ b);
    HalveEight(b);
  }

  // ---- CCrc32 ----

  predicate IsXor(x: bv32, a: bv32, b: bv32)
  {
    x == a ^ b
  }

  lemma ShiftLinearOdd(a: bv32, b: bv32)
    requires a & 1 == 1 && b & 1 == 1
    ensures Shift(a ^ b) == Shift(a) ^ Shift(b)
  {
  }

  lemma ShiftLinearEven(a: bv32, b: bv32)
    requires a & 1 == 0
    ensures Shift(a ^ b) == Shift(a) ^ Shift(b)
  {
  }

  /** A register step is linear. */
  lemma ShiftLinear(x: bv32, a: bv32, b: bv32)
    requires IsXor(x, a, b)
    ensures IsXor(Shift(x), Shift(a), Shift(b))
  {
    hide Shift;
    assert (a & 1 == 0 || a & 1 == 1) && (b & 1 == 0 || b & 1 == 1);
    if a & 1 == 0 {
      ShiftLinearEven(a, b);
    } else if b & 1 == 0 {
      ShiftLinearEven(b, a);
      assert a ^ b == b ^ a && Shift(a) ^ Shift(b) == Shift(b) ^ Shift(a);
    } else {
      ShiftLinearOdd(a, b);
    }
  }

  lemma {:induction false} ShiftsLinear(x: bv32, a: bv32, b: bv32, k: nat)
    requires IsXor(x, a, b)
    ensures IsXor(Shifts(x, k), Shifts(a, k), Shifts(b, k))
    decreases k
  {
    hide Shift, IsXor;
    if k > 0 {
      ShiftLinear(x, a, b);
      ShiftsLinear(Shift(x), Shift(a), Shift(b), k - 1);
    }
  }

  function Low(c: bv32): bv32
  {
    c & 0xFF
  }

  function High(c: bv32): bv32
  {
    c & 0xFFFF_FF00
  }

  lemma HighShifts(c: bv32)
    ensures Shift8(High(c)) == c >> 8
  {
  }

  lemma Recombine(c: bv32)
    ensures IsXor(c, Low(c), High(c)) && Low(c) < 256
  {
  }

  /** Eight steps look only at the low byte; the rest moves down. */
  lemma ShiftSplits(c: bv32)
    ensures IsXor(Shift8(c), Shift8(Low(c)), c >> 8)
  {
    hide Shift8, Shifts, IsXor, Low, High;
    Recombine(c);
    ShiftsLinear(c, Low(c), High(c), 8);
    EightShifts(c);
    EightShifts(Low(c));
    EightShifts(High(c));
    HighShifts(c);
  }

  /** The value Update's loop assigns to crc for one byte. */
  function Turn(crc: bv32, b: bv8): bv32
  {
    Table((crc ^ (b as bv32)) & 0xFF) ^ (crc >> 8)
  }

  /** A byte changes nothing above the low byte. */
  lemma ByteIsLow(crc: bv32, b: bv8)
    ensures var y := crc ^ (b as bv32);
            y >> 8 == crc >> 8 && (b as bv32) >> 8 == 0 && y & 0xFF == Low(y)
  {
  }

  lemma TurnIsShift8(crc: bv32, b: bv8)
    ensures Turn(crc, b) == Shift8(crc ^ (b as bv32))
  {
    hide Table, Shift8, Low;
    var y := crc ^ (b as bv32);
    ByteIsLow(crc, b);
    Recombine(y);
    TableIsShift8(Low(y));
    ShiftSplits(y);
  }

  lemma XorNothing(x: bv32, a: bv32, z: bv32)
    requires IsXor(x, a, z) && z == 0
    ensures x == a
  {
  }

  /** PeelByte, for a register given as a sum. */
  lemma Peel(x: bv32, c: bv32, w: bv32)
    requires IsXor(x, c, w)
    ensures IsXor(Shift8(x), FeedBits(c, w, 8), Later(w))
  {
    PeelByte(c, w);
  }

  /** A word without its low byte. */
  function Later(w: bv32): bv32
  {
    w >> 8
  }

  lemma FeedIsShift8(crc: bv32, b: bv8)
    ensures FeedBits(crc, b as bv32, 8) == Shift8(crc ^ (b as bv32))
  {
    hide Shift8, FeedBits;
    var x := crc ^ (b as bv32);
    Peel(x, crc, b as bv32);
    ByteIsLow(crc, b);
    XorNothing(Shift8(x), FeedBits(crc, b as bv32, 8), Later(b as bv32));
  }

  /** One turn of Update's loop does what eight bits of input do. */
  lemma TurnIsFeed(crc: bv32, b: bv8)
    ensures Turn(crc, b) == FeedBits(crc, b as bv32, 8)
  {
    hide Turn, Shift8, FeedBits;
    TurnIsShift8(crc, b);
    FeedIsShift8(crc, b);
  }

  lemma {:induction false} FeedAppend(c: bv32, s: seq<bv8>, t: seq<bv8>)
    ensures Feed(c, s + t) == Feed(Feed(c, s), t)
    decreases |s|
  {
    hide FeedBits;
    if s == [] {
      assert s + t == t;
    } else {
      assert (s + t)[0] == s[0] && (s + t)[1..] == s[1..] + t;
      FeedAppend(FeedBits(c, s[0] as bv32, 8), s[1..], t);
    }
  }

  class CCrc32 {
    var crc: bv32

    constructor ()
      ensures crc == 0
    {
      crc := 0;
    }

    /** The table-driven loop is the bit-by-bit register. */
    method Update(bytes: seq<bv8>) returns (ret: int)
      modifies this
      ensures ret == -1 <==> bytes == []
      ensures ret == 0 <==> bytes != []
      ensures crc == Feed(old(crc), bytes)
    {
      hide FeedBits, Turn, Feed;
      FeedNone(crc);
      if bytes == [] {
        return -1;
      }
      var i := 0;
      while i < |bytes|
        invariant 0 <= i <= |bytes| && crc == Feed(old(crc), bytes[..i])
      {
        TurnIsFeed(crc, bytes[i]);
        FeedAppend(old(crc), bytes[..i], [bytes[i]]);
        assert bytes[..i + 1] == bytes[..i] + [bytes[i]];
        FeedOne(crc, bytes[i]);
        crc := Turn(crc, bytes[i]);
        i := i + 1;
      }
      assert bytes[..i] == bytes;
      return 0;
    }

    method Final() returns (r: bv32)
      modifies this
      ensures r == old(crc) && crc == 0
    {
      r := crc;
      crc := 0;
    }

    method Crc32(bytes: seq<bv8>) returns (r: bv32)
      modifies this
      ensures bytes == [] ==> r == 0 && crc == old(crc)
      ensures bytes != [] ==> r == Feed(old(crc), bytes) && crc == 0
    {
      var ret := Update(bytes);
      if ret < 0 {
        return 0;
      }
      r := Final();
    }

    /** Input given in several pieces counts as one string. */
    method UpdateAll(pieces: seq<seq<bv8>>)
      modifies this
      ensures crc == Feed(old(crc), Join(pieces))
    {
      hide Feed;
      ghost var start := crc;
      FeedNone(start);
      for i := 0 to |pieces|
        invariant crc == Feed(start, Join(pieces[..i]))
      {
        JoinOneMore(pieces[..i], pieces[i]);
        assert pieces[..i + 1] == pieces[..i] + [pieces[i]];
        FeedAppend(start, Join(pieces[..i]), pieces[i]);
        var _ := Update(pieces[i]);
      }
      assert pieces[..|pieces|] == pieces;
    }
  }

  lemma FeedOne(c: bv32, b: bv8)
    ensures Feed(c, [b]) == FeedBits(c, b as bv32, 8)
  {
    hide FeedBits;
    assert Feed(c, [b]) == Feed(FeedBits(c, b as bv32, 8), []);
  }

  lemma FeedNone(c: bv32)
    ensures Feed(c, []) == c
  {
  }

  function Join(pieces: seq<seq<bv8>>): seq<bv8>
  {
    if pieces == [] then [] else pieces[0] + Join(pieces[1..])
  }

  lemma {:induction false} JoinOneMore(pieces: seq<seq<bv8>>, p: seq<bv8>)
    ensures Join(pieces + [p]) == Join(pieces) + p
  {
    if pieces == [] {
      assert (pieces + [p])[1..] == [];
    } else {
      JoinOneMore(pieces[1..], p);
      assert (pieces + [p])[1..] == pieces[1..] + [p];
    }
  }

  // ---- keys ----

  /** The bytes of an int in memory. */
  function IdBytes(id: bv32): seq<bv8>
  {
    [(id & 0xFF) as bv8, ((id >> 8) & 0xFF) as bv8, ((id >> 16) & 0xFF) as bv8, ((id >> 24) & 0xFF) as bv8]
  }

  /** The key for `id`, of a program that lives in directory `dir`. */
  method Pwdtok(dir: seq<bv8>, id: bv32) returns (key: bv32)
    ensures key == Feed(0, dir + IdBytes(id))
  {
    var generator := new CCrc32();
    key := generator.Crc32(dir + IdBytes(id));
  }

  function Unshift(c: bv32): bv32
  {
    if c >> 31 == 1 then ((c ^ POLY) << 1) | 1 else c << 1
  }

  /** A register step can be undone. */
  lemma ShiftInvertible(c: bv32)
    ensures Unshift(Shift(c)) == c
  {
  }

  lemma {:induction false} ShiftsInjective(a: bv32, b: bv32, k: nat)
    requires Shifts(a, k) == Shifts(b, k)
    ensures a == b
    decreases k
  {
    hide Shift, Unshift;
    if k > 0 {
      ShiftsInjective(Shift(a), Shift(b), k - 1);
      ShiftInvertible(a);
      ShiftInvertible(b);
    }
  }

  lemma Shift8Injective(a: bv32, b: bv32)
    requires Shift8(a) == Shift8(b)
    ensures a == b
  {
    hide Shift8, Shifts;
    EightShifts(a);
    EightShifts(b);
    ShiftsInjective(a, b, 8);
  }

  ghost predicate SameLow(v: bv32, w: bv32, k: nat)
    decreases k
  {
    k == 0 || (v & 1 == w & 1 && SameLow(v >> 1, w >> 1, k - 1))
  }

  lemma {:induction false} FeedSees(c: bv32, v: bv32, w: bv32, k: nat)
    requires SameLow(v, w, k)
    ensures FeedBits(c, v, k) == FeedBits(c, w, k)
    decreases k
  {
    hide Shift;
    if k > 0 {
      FeedSees(Shift(c ^ (v & 1)), v >> 1, w >> 1, k - 1);
    }
  }

  lemma SameLowEight(w: bv32)
    ensures SameLow(w, w & 0xFF, 8)
  {
    var v := w & 0xFF;
    assert SameLow(w >> 1 >> 1 >> 1 >> 1 >> 1 >> 1, v >> 1 >> 1 >> 1 >> 1 >> 1 >> 1, 2);
    assert SameLow(w >> 1 >> 1 >> 1 >> 1, v >> 1 >> 1 >> 1 >> 1, 4);
    assert SameLow(w >> 1 >> 1, v >> 1 >> 1, 6);
  }

  /** Thirty-two register steps. */
  function Rounds(x: bv32): bv32
  {
    Shift8(Shift8(Shift8(Shift8(x))))
  }

  lemma RoundsInjective(x: bv32, y: bv32)
    requires Rounds(x) == Rounds(y)
    ensures x == y
  {
    hide Shift8;
    Shift8Injective(Shift8(Shift8(Shift8(x))), Shift8(Shift8(Shift8(y))));
    Shift8Injective(Shift8(Shift8(x)), Shift8(Shift8(y)));
    Shift8Injective(Shift8(x), Shift8(y));
    Shift8Injective(x, y);
  }

  /** Feeding the four bytes of a word one after the other is thirty-two steps on the whole word. */
  lemma FedIsRounds(x: bv32, r: bv32, id: bv32)
    requires IsXor(x, r, id)
    ensures var w1 := Later(id); var w2 := Later(w1); var w3 := Later(w2);
            FeedBits(FeedBits(FeedBits(FeedBits(r, id, 8), w1, 8), w2, 8), w3, 8) == Rounds(x)
  {
    hide FeedBits, Shift8, IsXor, Later;
    var w1 := Later(id);
    var w2 := Later(w1);
    var w3 := Later(w2);
    var c1 := FeedBits(r, id, 8);
    var c2 := FeedBits(c1, w1, 8);
    var c3 := FeedBits(c2, w2, 8);
    Peel(x, r, id);
    Peel(Shift8(x), c1, w1);
    Peel(Shift8(Shift8(x)), c2, w2);
    Peel(Shift8(Shift8(Shift8(x))), c3, w3);
    NothingLeft(id);
    XorNothing(Rounds(x), FeedBits(c3, w3, 8), Later(w3));
  }

  lemma NothingLeft(id: bv32)
    ensures Later(Later(Later(Later(id)))) == 0
  {
  }

  predicate LowByteOf(b: bv8, w: bv32)
  {
    b as bv32 == w & 0xFF
  }

  /** A byte of the id is fed like the rest of the word it starts. */
  lemma FeedFirst(c: bv32, w: bv32, b: bv8)
    requires LowByteOf(b, w)
    ensures FeedBits(c, b as bv32, 8) == FeedBits(c, w, 8)
  {
    hide FeedBits, SameLow;
    SameLowEight(w);
    FeedSees(c, w, w & 0xFF, 8);
  }

  lemma IdBytesAre(id: bv32)
    ensures var b := IdBytes(id); var w1 := Later(id); var w2 := Later(w1); var w3 := Later(w2);
            && |b| == 4
            && LowByteOf(b[0], id) && LowByteOf(b[1], w1) && LowByteOf(b[2], w2) && LowByteOf(b[3], w3)
  {
  }

  lemma FeedFour(c: bv32, b: seq<bv8>)
    requires |b| == 4
    ensures Feed(c, b) == FeedBits(FeedBits(FeedBits(FeedBits(c, b[0] as bv32, 8), b[1] as bv32, 8),
                                            b[2] as bv32, 8), b[3] as bv32, 8)
  {
    hide FeedBits;
    var c1 := FeedBits(c, b[0] as bv32, 8);
    var c2 := FeedBits(c1, b[1] as bv32, 8);
    assert Feed(c, b) == Feed(c1, b[1..]) && b[1..][1..] == b[2..];
    assert Feed(c1, b[1..]) == Feed(c2, b[2..]);
    assert b[2..] == [b[2]] + [b[3]];
    FeedAppend(c2, [b[2]], [b[3]]);
    FeedOne(c2, b[2]);
    FeedOne(FeedBits(c2, b[2] as bv32, 8), b[3]);
  }

  /** The register after the id bytes, from the register before them. */
  lemma FeedId(x: bv32, r: bv32, id: bv32)
    requires IsXor(x, r, id)
    ensures Feed(r, IdBytes(id)) == Rounds(x)
  {
    hide FeedBits, Feed, IsXor, Rounds, IdBytes, Later, LowByteOf;
    var b := IdBytes(id);
    var w1 := Later(id);
    var w2 := Later(w1);
    var w3 := Later(w2);
    IdBytesAre(id);
    FeedFour(r, b);
    FeedFirst(r, id, b[0]);
    var c1 := FeedBits(r, id, 8);
    FeedFirst(c1, w1, b[1]);
    var c2 := FeedBits(c1, w1, 8);
    FeedFirst(c2, w2, b[2]);
    var c3 := FeedBits(c2, w2, 8);
    FeedFirst(c3, w3, b[3]);
    FedIsRounds(x, r, id);
  }

  /** For one directory, two ids never share a key. */
  lemma KeysDiffer(dir: seq<bv8>, id: bv32, id': bv32)
    requires id != id'
    ensures Feed(0, dir + IdBytes(id)) != Feed(0, dir + IdBytes(id'))
  {
    hide Feed, Rounds, IdBytes;
    var r := Feed(0, dir);
    FeedAppend(0, dir, IdBytes(id));
    FeedAppend(0, dir, IdBytes(id'));
    FeedId(r ^ id, r, id);
    FeedId(r ^ id', r, id');
    if Rounds(r ^ id) == Rounds(r ^ id') {
      RoundsInjective(r ^ id, r ^ id');
      XorCancels(r, id, id');
      assert false;
    }
  }

  lemma XorCancels(r: bv32, a: bv32, b: bv32)
    requires r ^ a == r ^ b
    ensures a == b
  {
  }
}
