// The socket protocol: one datagram is one message, a 12-byte header and a body. The structs of
// the source have no padding and are stored in host order; the host is little-endian.

module Wire {
  import opened Bytes

  const VER: byte := 1
  const RESP_BIT: byte := 0x80
  const MSG_MAX := 4096
  const BATCH_MAX := 64
  const MB_MAX := 1018

  // sizeof of the wire structs
  const HDR_LEN := 12
  const OP_LEN := 12
  const CLAIM_LEN := 8
  const MB_LEN := 8
  const RESET_LEN := 8

  // enum spiproxy_type
  const READ: byte := 1
  const WRITE: byte := 2
  const BATCH: byte := 3
  const CLAIM: byte := 4
  const RELEASE: byte := 5
  const MAILBOX: byte := 6
  const STATS: byte := 7
  const TRACE: byte := 8
  const RESET: byte := 12

  // enum spiproxy_status
  type Status = u16
  const OK: Status := 0
  const EINVAL: Status := 1
  const EIO: Status := 2
  const EBUSY: Status := 3
  const ETIMEDOUT: Status := 4
  const ENOSYS: Status := 5
  const ECRC: Status := 6

  datatype Hdr = Hdr(ver: byte, typ: byte, flags: u16, seq_: u32, len: u32)

  function HdrBytes(h: Hdr): (b: seq<byte>)
    ensures |b| == HDR_LEN
  {
    [h.ver, h.typ] + Le16(h.flags) + Le32(h.seq_) + Le32(h.len)
  }

  function HdrAt(m: seq<byte>): Hdr
    requires |m| >= HDR_LEN
  {
    Hdr(m[0], m[1], Get16(m, 2), Get32(m, 4), Get32(m, 8))
  }

  /** Decoding what was encoded, whatever follows it. */
  lemma HdrRoundTrip(h: Hdr, rest: seq<byte>)
    ensures HdrAt(HdrBytes(h) + rest) == h
  {
    var m := HdrBytes(h) + rest;
    assert m[2] == h.flags % 256 && m[3] == h.flags / 256;
    assert m[4..8] == Le32(h.seq_) && m[8..12] == Le32(h.len);
    Le32RoundTrip(h.seq_);
    Le32RoundTrip(h.len);
    assert Get32(m, 4) == Get32(m[4..8], 0) && Get32(m, 8) == Get32(m[8..12], 0);
  }

  // --- Requests ------------------------------------------------------------------------------

  /** The test `client_frame` applies to a datagram. */
  predicate Acceptable(m: seq<byte>) {
    |m| >= HDR_LEN && HdrAt(m).ver == VER && HdrAt(m).len == |m| - HDR_LEN && HdrAt(m).len <= MSG_MAX
  }

  function Request(typ: byte, flags: u16, seq_: u32, body: seq<byte>): seq<byte>
    requires |body| <= MSG_MAX
  {
    HdrBytes(Hdr(VER, typ, flags, seq_, |body|)) + body
  }

  /** Every request a client can frame is accepted, with its header and body intact. */
  lemma RequestRoundTrip(typ: byte, flags: u16, seq_: u32, body: seq<byte>)
    requires |body| <= MSG_MAX
    ensures var m := Request(typ, flags, seq_, body);
            Acceptable(m) && HdrAt(m) == Hdr(VER, typ, flags, seq_, |body|) && m[HDR_LEN..] == body
  {
    HdrRoundTrip(Hdr(VER, typ, flags, seq_, |body|), body);
  }

  /** An acceptable datagram is exactly what some client framed. */
  lemma AcceptableIsRequest(m: seq<byte>)
    requires Acceptable(m)
    ensures var h := HdrAt(m); |m[HDR_LEN..]| <= MSG_MAX && m == Request(h.typ, h.flags, h.seq_, m[HDR_LEN..])
  {
    var h := HdrAt(m);
    Get32RoundTrip(m, 4);
    Get32RoundTrip(m, 8);
    assert Le16(h.flags) == m[2..4];
    assert HdrBytes(h) == m[..HDR_LEN];
  }

  // --- Responses -----------------------------------------------------------------------------

  /** `type | SPIPROXY_RESP` */
  function RespType(typ: byte): byte {
    if typ < RESP_BIT then typ + RESP_BIT else typ
  }

  function Response(req: Hdr, status: Status, body: seq<byte>): seq<byte>
    requires |body| <= MSG_MAX
  {
    HdrBytes(Hdr(VER, RespType(req.typ), status, req.seq_, |body|)) + body
  }

  /** What a client makes of a received datagram: None if it is short or answers something else,
      otherwise the status and the copied bytes, limited by the caller's capacity, the declared
      length and the bytes received. */
  function Parsed(m: seq<byte>, wantSeq: u32, wantType: byte, cap: u32): Option<(Status, seq<byte>)> {
    if |m| < HDR_LEN then None
    else
      var h := HdrAt(m);
      if h.seq_ != wantSeq || h.typ != RespType(wantType) then None
      else Some((h.flags, m[HDR_LEN..][..Min(Min(h.len, cap), |m| - HDR_LEN)]))
  }

  /** What the daemon answers, the client that asked reads back. */
  lemma ResponseRoundTrip(req: Hdr, status: Status, body: seq<byte>, cap: u32)
    requires |body| <= MSG_MAX
    ensures Parsed(Response(req, status, body), req.seq_, req.typ, cap) == Some((status, body[..Min(cap, |body|)]))
  {
    HdrRoundTrip(Hdr(VER, RespType(req.typ), status, req.seq_, |body|), body);
    assert Response(req, status, body)[HDR_LEN..] == body;
  }

  /** `send_resp`: fills the message buffer and says how many bytes to send. */
  method SendResp(req: Hdr, status: Status, body: seq<byte>, msg: array<byte>) returns (n: nat)
    requires |body| <= MSG_MAX && msg.Length == HDR_LEN + MSG_MAX
    modifies msg
    ensures n == HDR_LEN + |body| && msg[..n] == Response(req, status, body)
  {
    FillMessage(Hdr(VER, RespType(req.typ), status, req.seq_, |body|), body, msg);
    n := HDR_LEN + |body|;
  }

  method FillMessage(h: Hdr, body: seq<byte>, msg: array<byte>)
    requires |body| <= MSG_MAX && msg.Length == HDR_LEN + MSG_MAX
    modifies msg
    ensures msg[..HDR_LEN + |body|] == HdrBytes(h) + body
  {
    var bytes := HdrBytes(h);
    Copy(bytes, msg, 0);
    assert msg[..HDR_LEN] == bytes;
    Copy(body, msg, HDR_LEN);
    assert msg[..HDR_LEN] == bytes;
    assert msg[..HDR_LEN + |body|] == msg[..HDR_LEN] + msg[HDR_LEN..HDR_LEN + |body|];
  }

  /** memcpy(dst + at, src, |src|) */
  method Copy(src: seq<byte>, dst: array<byte>, at: nat)
    requires at + |src| <= dst.Length
    modifies dst
    ensures dst[at..at + |src|] == src
    ensures dst[..at] == old(dst[..at]) && dst[at + |src|..] == old(dst[at + |src|..])
  {
    for i := 0 to |src|
      invariant forall j :: 0 <= j < i ==> dst[at + j] == src[j]
      invariant forall j :: 0 <= j < at || at + |src| <= j < dst.Length ==> dst[j] == old(dst[j])
    {
      dst[at + i] := src[i];
    }
  }

  // --- The client's end ----------------------------------------------------------------------

  class Client {
    var lastSeq: u32

    constructor ()
      ensures lastSeq == 0
    {
      lastSeq := 0;
    }

    /** The sending half of `xfer`. */
    method FrameRequest(typ: byte, flags: u16, body: seq<byte>, msg: array<byte>) returns (n: nat)
      requires |body| <= MSG_MAX && msg.Length == HDR_LEN + MSG_MAX
      modifies this, msg
      ensures lastSeq == (old(lastSeq) + 1) % 0x1_0000_0000
      ensures n == HDR_LEN + |body| && msg[..n] == Request(typ, flags, lastSeq, body)
      ensures Acceptable(msg[..n])
    {
      lastSeq := (lastSeq + 1) % 0x1_0000_0000;
      FillMessage(Hdr(VER, typ, flags, lastSeq, |body|), body, msg);
      n := HDR_LEN + |body|;
      RequestRoundTrip(typ, flags, lastSeq, body);
    }

    /** `parse_resp`: msg holds n received bytes; cap is the capacity of resp. Returns the status
        or -1, and the new value of the caller's length. */
    static method ParseResp(msg: array<byte>, n: int, wantSeq: u32, wantType: byte,
                            resp: array?<byte>, cap: u32) returns (status: int, rlen: u32)
      requires n <= msg.Length && resp != msg
      requires resp != null ==> cap <= resp.Length
      modifies resp
      ensures n < HDR_LEN ==> status == -1
      ensures n >= HDR_LEN ==>
                match Parsed(msg[..n], wantSeq, wantType, cap)
                case None => status == -1
                case Some((st, bytes)) =>
                  status == st && (resp != null ==> rlen == |bytes| && resp[..rlen] == bytes)
      ensures resp != null ==> rlen <= cap && resp[rlen..] == old(resp[rlen..])
      ensures resp != null && status == -1 ==> rlen == cap && resp[..] == old(resp[..])
    {
      rlen := cap;
      if n < HDR_LEN { return -1, cap; }
      var m := msg[..n];
      var h := HdrAt(m);
      if h.seq_ != wantSeq || h.typ != RespType(wantType) { return -1, cap; }
      if resp != null {
        var avail := n - HDR_LEN;
        rlen := if h.len < cap then h.len else cap;
        if rlen > avail {
          rlen := avail;
        }
        SliceOfSlice(m, HDR_LEN, rlen);
        Copy(m[HDR_LEN..HDR_LEN + rlen], resp, 0);
        assert resp[..rlen] == resp[0..rlen];
      }
      status := h.flags;
    }
  }

  lemma SliceOfSlice(m: seq<byte>, i: nat, n: nat)
    requires i + n <= |m|
    ensures m[i..][..n] == m[i..i + n]
  {
  }

  // --- Bodies --------------------------------------------------------------------------------

  /** struct spiproxy_op; any nonzero `write` byte means write. */
  datatype Op = Op(slice: byte, write: bool, mmd: byte, reg: u16, val: u32)

  function OpAt(b: seq<byte>, i: nat): Op
    requires OP_LEN * (i + 1) <= |b|
  {
    var o := OP_LEN * i;
    Op(b[o], b[o + 1] != 0, b[o + 2], Get16(b, o + 4), Get32(b, o + 8))
  }

  /** Stores the value read by the i-th op. */
  function WithVal(b: seq<byte>, i: nat, v: u32): (r: seq<byte>)
    requires OP_LEN * (i + 1) <= |b|
    ensures |r| == |b|
  {
    b[..OP_LEN * i + 8] + Le32(v) + b[OP_LEN * (i + 1)..]
  }

  /** Storing a result changes the value of that op and of no other. */
  lemma WithValChangesOne(b: seq<byte>, i: nat, v: u32, j: nat)
    requires OP_LEN * (i + 1) <= |b| && OP_LEN * (j + 1) <= |b|
    ensures OpAt(WithVal(b, i, v), j) == if i == j then OpAt(b, j).(val := v) else OpAt(b, j)
  {
    var r := WithVal(b, i, v);
    if i == j {
      assert r[OP_LEN * i + 8..OP_LEN * i + 12] == Le32(v);
      Le32RoundTrip(v);
      assert Get32(r, OP_LEN * i + 8) == Get32(r[OP_LEN * i + 8..OP_LEN * i + 12], 0);
    } else {
      assert forall k :: OP_LEN * j <= k < OP_LEN * (j + 1) ==> r[k] == b[k];
    }
  }

  function OpsAt(b: seq<byte>, n: nat): (r: seq<Op>)
    requires OP_LEN * n <= |b|
    ensures |r| == n && forall i :: 0 <= i < n ==> r[i] == OpAt(b, i)
  {
    seq(n, i requires 0 <= i < n => OpAt(b, i))
  }
}
