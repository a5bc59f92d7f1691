/** The frames CShmMQ lays out in shared memory: 4-byte magic, 4-byte total length,
    4-byte flow, payload, 4-byte magic. */
module ShmFrames {
  import opened Bytes

  const C_HEAD_SIZE := 8
  const C_SAFE_AREA_LEN := 4
  const C_SAFE_AREA_VAL: U32 := 0x58505053
  const OVERHEAD := C_HEAD_SIZE + 2 * C_SAFE_AREA_LEN

  datatype AnyMsg = Msg(flow: U32, data: seq<Byte>)

  /** A payload whose frame length still fits the 32-bit length field. */
  type Msg = m: AnyMsg | |m.data| + OVERHEAD < U32_SIZE witness Msg(0, [])

  function Header(total: U32, flow: U32): (h: seq<Byte>)
    ensures |h| == C_SAFE_AREA_LEN + C_HEAD_SIZE
  {
    Le32(C_SAFE_AREA_VAL) + Le32(total) + Le32(flow)
  }

  function Frame(m: Msg): (f: seq<Byte>)
    ensures |f| == |m.data| + OVERHEAD
  {
    Header(|m.data| + OVERHEAD, m.flow) + m.data + Le32(C_SAFE_AREA_VAL)
  }

  /** The byte image of a queue of messages. */
  function Image(q: seq<Msg>): seq<Byte>
  {
    Concat(Frame, q)
  }

  /** What the three words and the payload of a frame read back as. */
  lemma FrameFields(m: Msg)
    ensures var f := Frame(m); var n := |m.data|;
            && Word(f[0..4]) == C_SAFE_AREA_VAL
            && Word(f[4..8]) == n + OVERHEAD
            && Word(f[8..12]) == m.flow
            && f[12..12 + n] == m.data
            && Word(f[12 + n..16 + n]) == C_SAFE_AREA_VAL
  {
    var f, n := Frame(m), |m.data|;
    assert f[0..4] == Le32(C_SAFE_AREA_VAL);
    assert f[4..8] == Le32(n + OVERHEAD);
    assert f[8..12] == Le32(m.flow);
    assert f[12 + n..16 + n] == Le32(C_SAFE_AREA_VAL);
    WordOfLe32(C_SAFE_AREA_VAL);
    WordOfLe32(n + OVERHEAD);
    WordOfLe32(m.flow);
  }

  datatype Parsed = Whole(msgs: seq<Msg>) | Broken

  datatype Cut = Cut(msg: Msg, rest: seq<Byte>) | Malformed

  /** Takes one frame off the front of some bytes, checking both safe areas and the length. */
  function CutFrame(b: seq<Byte>): (c: Cut)
    ensures c.Cut? ==> |c.rest| < |b|
  {
    if |b| < OVERHEAD || Word(b[0..4]) != C_SAFE_AREA_VAL then Malformed
    else
      var total := Word(b[4..8]);
      if total < OVERHEAD || total > |b| || Word(b[total - 4..total]) != C_SAFE_AREA_VAL then Malformed
      else Cut(Msg(Word(b[8..12]), b[12..total - 4]), b[total..])
  }

  /** Reads bytes as a sequence of whole frames. */
  function Parse(b: seq<Byte>): Parsed
    decreases |b|
  {
    if b == [] then Whole([]) else
      match CutFrame(b)
      case Malformed => Broken
      case Cut(m, rest) =>
        match Parse(rest)
        case Broken => Broken
        case Whole(ms) => Whole([m] + ms)
  }

  lemma CutOfFrame(m: Msg, rest: seq<Byte>)
    ensures CutFrame(Frame(m) + rest) == Cut(m, rest)
  {
    var f := Frame(m);
    var b := f + rest;
    FrameFields(m);
    assert b[0..4] == f[0..4] && b[4..8] == f[4..8] && b[8..12] == f[8..12];
    assert b[12..|f| - 4] == f[12..|f| - 4] && b[|f| - 4..|f|] == f[|f| - 4..|f|];
  }

  /** A queue image parses back to exactly the queue, so it is a run of whole frames. */
  lemma {:induction false} ParseImage(q: seq<Msg>)
    ensures Parse(Image(q)) == Whole(q)
  {
    if q != [] {
      CutOfFrame(q[0], Image(q[1..]));
      ParseImage(q[1..]);
      assert [q[0]] + q[1..] == q;
    }
  }
}
