// The structs of the socket protocol byte by byte: what a field means is said here in offsets and
// arithmetic, without the decoders the daemon uses.

module Layout {
  import opened Bytes
  import opened Wire

  /** A little-endian field of two bytes. */
  function U16(m: seq<byte>, o: nat): (v: int)
    requires o + 2 <= |m|
    ensures 0 <= v < 0x1_0000
  {
    (m[o] as int) + 256 * (m[o + 1] as int)
  }

  /** A little-endian field of four bytes. */
  function U32(m: seq<byte>, o: nat): (v: int)
    requires o + 4 <= |m|
    ensures 0 <= v < 0x1_0000_0000
  {
    (m[o] as int) + 256 * (m[o + 1] as int) + 65536 * (m[o + 2] as int) + 16777216 * (m[o + 3] as int)
  }

  /** The 12 bytes at o are a register op: slice, write, mmd, reserved, register, reserved, value. */
  predicate OpSpelled(m: seq<byte>, o: nat, op: Op)
    requires o + 12 <= |m|
  {
    && op.slice == m[o] && op.write == (m[o + 1] != 0) && op.mmd == m[o + 2]
    && op.reg == U16(m, o + 4) && op.val == U32(m, o + 8)
  }

  lemma OpSpells(b: seq<byte>, i: nat)
    requires 12 * i + 12 <= |b|
    ensures OpSpelled(b, 12 * i, OpAt(b, i))
  {
  }

  /** What a client frames, byte by byte. */
  lemma RequestSpells(typ: byte, flags: u16, seq_: u32, body: seq<byte>)
    requires |body| <= MSG_MAX
    ensures var m := Request(typ, flags, seq_, body);
            && Framed(m) && m[1] == typ && U16(m, 2) == flags && U32(m, 4) == seq_ && m[12..] == body
  {
    RequestRoundTrip(typ, flags, seq_, body);
  }

  /** What a client makes of a datagram, byte by byte: refused if it is short, has another sequence
      number or is not the answer to that type; else the status, and as much of the body as was
      declared, was received and fits. */
  lemma ParsedExactly(m: seq<byte>, wantSeq: u32, wantType: byte, cap: u32)
    ensures Parsed(m, wantSeq, wantType, cap).None?
       <==> |m| < 12 || U32(m, 4) != wantSeq || m[1] != 128 + wantType % 128
    ensures Parsed(m, wantSeq, wantType, cap).Some? ==>
              && Parsed(m, wantSeq, wantType, cap).value.0 == U16(m, 2)
              && Parsed(m, wantSeq, wantType, cap).value.1 == m[12..12 + Min(Min(U32(m, 8), cap), |m| - 12)]
  {
    if |m| >= 12 { SliceOfSlice(m, 12, Min(Min(U32(m, 8), cap), |m| - 12)); }
  }

  /** A 12-byte header with version 1 and a length field that counts the bytes behind it. */
  predicate Framed(m: seq<byte>) {
    |m| >= 12 && m[0] == 1 && U32(m, 8) == |m| - 12 <= 4096
  }

  lemma AcceptableIsFramed(m: seq<byte>)
    ensures Acceptable(m) <==> Framed(m)
  {
  }

  /** The datagram d answers m: same sequence number, type with bit 7 set, status where a request has
      its flags, and the body. A datagram too short for a header is answered as if it were zeros. */
  predicate Answers(d: seq<byte>, m: seq<byte>, status: u16, body: seq<byte>) {
    && |d| == 12 + |body| && d[0] == 1 && U16(d, 2) == status && U32(d, 8) == |body| && d[12..] == body
    && d[1] == 128 + (if |m| >= 12 then m[1] % 128 else 0)
    && d[4..8] == if |m| >= 12 then m[4..8] else [0, 0, 0, 0]
  }

  lemma ResponseAnswers(m: seq<byte>, h: Hdr, status: Status, body: seq<byte>)
    requires |body| <= MSG_MAX && h == if |m| >= HDR_LEN then HdrAt(m) else Hdr(0, 0, 0, 0, 0)
    ensures Answers(Response(h, status, body), m, status, body)
  {
    var d := Response(h, status, body);
    HdrRoundTrip(Hdr(VER, RespType(h.typ), status, h.seq_, |body|), body);
    assert d[4..8] == Le32(h.seq_);
    if |m| >= HDR_LEN {
      Get32RoundTrip(m, 4);
    } else {
      assert Le32(0) == [0, 0, 0, 0];
    }
  }
}
