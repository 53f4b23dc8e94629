// The MCU mailbox: the packet format and the protocol of one transaction, as the sequence of
// register accesses the daemon makes and the answers it gets.

module Mailbox {
  import opened Bytes
  import opened Crc
  import opened CrcErrors
  import opened Wire

  const MB_CMD: u16 := 0xd800
  const MB_RESP: u16 := 0xd900
  const MB_FLAG: u16 := 0xda00
  const MB_MCU_MASK: u16 := 0xda01
  const MB_GUARD_LO: u16 := 0xd800
  const MB_GUARD_HI: u16 := 0xdaff
  const MB_SET_REQ: u32 := 0x0001_0000
  const MB_CLR_REQ: u32 := 0x0100_0000
  const MB_CLR_RESP: u32 := 0x0200_0000
  const MB_TIMEOUT_MS: u32 := 500
  const PKT_MIN := 6
  const PKT_MAX := 1024
  const SLICE_COUNT := 4

  predicate BusyBit(v: u32) { v % 2 == 1 }

  predicate RespBit(v: u32) { v / 2 % 2 == 1 }

  // --- Packets -------------------------------------------------------------------------------

  /** One transaction's request, already validated. */
  datatype Req = Req(slice: byte, cmd: byte, payload: seq<byte>) {
    predicate Valid() { slice < SLICE_COUNT && |payload| <= MB_MAX }

    function Len(): nat { |payload| + 6 }
  }

  function Covered(cmd: byte, payload: seq<byte>): seq<byte>
    requires |payload| <= MB_MAX
  {
    [cmd, 0xff] + Le16(|payload| + 6) + payload
  }

  /** {id, 0xff, length} + payload + checksum */
  function Packet(r: Req): (p: seq<byte>)
    requires r.Valid()
    ensures |p| == |r.payload| + 6
  {
    Covered(r.cmd, r.payload) + Le16(Checksum(Covered(r.cmd, r.payload)))
  }

  /** A packet as the far end may send it: its length field is right and its checksum matches. */
  predicate WellFormed(p: seq<byte>) {
    PKT_MIN <= |p| <= PKT_MAX && Get16(p, 2) == |p| && Sealed(p)
  }

  lemma PacketFields(r: Req)
    requires r.Valid()
    ensures var p := Packet(r);
            WellFormed(p) && p[0] == r.cmd && p[4..|p| - 2] == r.payload
  {
    var p, c := Packet(r), Covered(r.cmd, r.payload);
    assert p[..|p| - 2] == c;
    assert p[|p| - 2] == Checksum(c) % 256 && p[|p| - 1] == Checksum(c) / 256;
    assert p[2] == |p| % 256 && p[3] == |p| / 256;
  }

  /** Number of 32-bit words holding n bytes. */
  function Words(n: nat): nat { (n + 3) / 4 }

  /** The building half of `exec_mailbox`: header, payload and checksum into the packet buffer. */
  method BuildPacket(r: Req, pkt: array<byte>)
    requires r.Valid() && pkt.Length >= |r.payload| + 6
    modifies pkt
    ensures pkt[..|r.payload| + 6] == Packet(r)
  {
    hide Checksum;
    var n := |r.payload|;
    var len := Le16(n + 6);
    pkt[0], pkt[1], pkt[2], pkt[3] := r.cmd, 0xff, len[0], len[1];
    Copy(r.payload, pkt, 4);
    assert pkt[..4] == [r.cmd, 0xff] + len;
    assert pkt[..4 + n] == pkt[..4] + pkt[4..4 + n];
    assert pkt[..4 + n] == Covered(r.cmd, r.payload);
    var crc := Crc16(pkt, 4 + n);
    ghost var covered := pkt[..4 + n];
    pkt[4 + n], pkt[4 + n + 1] := crc % 256, crc / 256;
    assert pkt[..4 + n] == covered;
    assert pkt[..n + 6] == covered + Le16(crc);
  }

  // --- The protocol --------------------------------------------------------------------------

  /** A register access of the mailbox code: a read (None: the transfer failed) or a write. */
  datatype Access = Rd(reg: u16, got: Option<u32>) | Wr(reg: u16, val: u32, ok: bool)

  datatype Phase =
    | Check                        // about to look at the busy flag
    | Send(i: nat)                 // about to write request word i
    | MaskGet | MaskSet(mask: u32) // enable the MCU interrupt
    | Ring                         // the doorbell
    | Poll                         // first look at the response flag
    | Wait                         // the flag was not up: other clients may be served here
    | Head                         // about to read response word 0
    | Body(got: seq<byte>)         // response bytes so far
    | Reject                       // bad length: about to clear the response flag
    | Clear(got: seq<byte>)        // response complete: about to clear the flag
    | Done(st: Status, cmd: byte, resp: seq<byte>)
  {
    /** Between the busy check and the end, when the transaction owns the mailbox registers. */
    predicate Active() { !Check? && !Done? }
  }

  function Failed(st: Status): Phase { Done(st, 0, []) }

  /** The bytes of the word agree with the packet wherever the packet has bytes. */
  predicate Carries(r: Req, i: nat, w: u32)
    requires r.Valid()
  {
    forall k :: 0 <= k < 4 && 4 * i + k < r.Len() ==> Le32(w)[k] == Packet(r)[4 * i + k]
  }

  lemma WordCarries(r: Req, b: seq<byte>, i: nat)
    requires r.Valid() && r.Len() <= |b| && b[..r.Len()] == Packet(r) && 4 * i + 4 <= |b|
    ensures Carries(r, i, Get32(b, 4 * i))
  {
    Get32RoundTrip(b, 4 * i);
    var w := Get32(b, 4 * i);
    forall k | 0 <= k < 4 && 4 * i + k < r.Len() ensures Le32(w)[k] == Packet(r)[4 * i + k] {
      assert Le32(w)[k] == b[4 * i..4 * i + 4][k];
      assert b[..r.Len()][4 * i + k] == b[4 * i + k];
    }
  }

  function DeclaredLen(got: seq<byte>): u16
    requires |got| >= 4
  {
    Get16(got, 2)
  }

  predicate LengthOk(n: u16) { PKT_MIN <= n <= PKT_MAX }

  function Verdict(got: seq<byte>): Phase
    requires |got| >= 4 && LengthOk(DeclaredLen(got)) && |got| >= DeclaredLen(got)
  {
    var n := DeclaredLen(got);
    if Sealed(got[..n]) then Done(OK, got[0], got[4..n - 2]) else Failed(ECRC)
  }

  function Next(r: Req, p: Phase, a: Access): Option<Phase>
    requires r.Valid()
  {
    match p
    case Check =>
      if a.Rd? && a.reg == MB_FLAG then
        Some(if a.got.None? then Failed(EIO) else if BusyBit(a.got.value) then Failed(EBUSY) else Send(0))
      else None
    case Send(i) =>
      if a.Wr? && a.reg == MB_CMD + i && i < Words(r.Len()) && Carries(r, i, a.val) then
        Some(if !a.ok then Failed(EIO) else if i + 1 < Words(r.Len()) then Send(i + 1) else MaskGet)
      else None
    case MaskGet =>
      if a.Rd? && a.reg == MB_MCU_MASK then
        Some(if a.got.None? then Failed(EIO) else MaskSet(a.got.value))
      else None
    case MaskSet(m) =>
      if a.Wr? && a.reg == MB_MCU_MASK && a.val == m - m % 2 + 1 then
        Some(if a.ok then Ring else Failed(EIO))
      else None
    case Ring =>
      if a.Wr? && a.reg == MB_FLAG && a.val == MB_SET_REQ then
        Some(if a.ok then Poll else Failed(EIO))
      else None
    case Poll => Polled(a)
    case Wait =>
      if a.Wr? && a.reg == MB_FLAG && a.val == MB_CLR_REQ then Some(Failed(ETIMEDOUT)) else Polled(a)
    case Head =>
      if a.Rd? && a.reg == MB_RESP then
        Some(if a.got.None? then Failed(EIO)
             else if LengthOk(a.got.value / 65536) then Body(Le32(a.got.value)) else Reject)
      else None
    case Body(got) =>
      if a.Rd? && a.reg == MB_RESP + |got| / 4 then
        Some(if a.got.None? then Failed(EIO) else Collected(got + Le32(a.got.value)))
      else None
    case Reject =>
      if a.Wr? && a.reg == MB_FLAG && a.val == MB_CLR_RESP then Some(Failed(EINVAL)) else None
    case Clear(got) =>
      if a.Wr? && a.reg == MB_FLAG && a.val == MB_CLR_RESP
         && |got| >= 4 && LengthOk(DeclaredLen(got)) && |got| >= DeclaredLen(got) then
        Some(Verdict(got))
      else None
    case Done(_, _, _) => None
  }

  function Polled(a: Access): Option<Phase> {
    if a.Rd? && a.reg == MB_FLAG then
      Some(if a.got.None? then Failed(EIO) else if RespBit(a.got.value) then Head else Wait)
    else None
  }

  function Collected(got: seq<byte>): Phase
    requires |got| >= 4
  {
    if |got| >= DeclaredLen(got) then Clear(got) else Body(got)
  }

  /** The phase after the accesses of one transaction, if they follow the protocol. */
  function Run(r: Req, accs: seq<Access>): Option<Phase>
    requires r.Valid()
  {
    if accs == [] then Some(Check)
    else
      var k := |accs| - 1;
      match Run(r, accs[..k])
      case None => None
      case Some(p) => Next(r, p, accs[k])
  }

  // --- What every transaction keeps ----------------------------------------------------------

  ghost predicate PhaseOk(r: Req, p: Phase)
    requires r.Valid()
  {
    match p
    case Send(i) => i < Words(r.Len())
    case Body(got) =>
      |got| >= 4 && |got| % 4 == 0 && LengthOk(DeclaredLen(got)) && |got| < DeclaredLen(got)
    case Clear(got) =>
      |got| >= 4 && LengthOk(DeclaredLen(got)) && |got| == 4 * Words(DeclaredLen(got))
    case Done(st, _, resp) => |resp| <= MB_MAX && (st != OK ==> resp == [])
    case _ => true
  }

  lemma HeadLength(v: u32)
    ensures DeclaredLen(Le32(v)) == v / 65536
  {
    assert v / 16777216 == v / 65536 / 256;
  }

  lemma NextKeepsOk(r: Req, p: Phase, a: Access)
    requires r.Valid() && PhaseOk(r, p) && Next(r, p, a).Some?
    ensures PhaseOk(r, Next(r, p, a).value)
  {
    if p.Head? && a.got.Some? {
      HeadLength(a.got.value);
    } else if p.Body? && a.got.Some? {
      var got := p.got + Le32(a.got.value);
      assert DeclaredLen(got) == DeclaredLen(p.got);
    }
  }

  /** The registers of a transaction: its own windows, within the guarded range. */
  predicate InWindow(a: Access) {
    MB_GUARD_LO <= a.reg <= MB_GUARD_HI
  }

  /** Every access lies in the guarded range; request words go below the response window, which
      is only read; the flag and mask registers lie above both. */
  lemma AccessInWindow(r: Req, p: Phase, a: Access)
    requires r.Valid() && PhaseOk(r, p) && Next(r, p, a).Some?
    ensures InWindow(a)
    ensures p.Send? ==> a.Wr? && MB_CMD <= a.reg < MB_RESP
    ensures p.Head? || p.Body? ==> a.Rd? && MB_RESP <= a.reg < MB_FLAG
    ensures !p.Send? && !p.Head? && !p.Body? ==> a.reg == MB_FLAG || a.reg == MB_MCU_MASK
    ensures p.Check? ==> a.Rd? && a.reg == MB_FLAG
  {
  }

  /** The bytes read from the response window, in order. */
  function RespBytes(accs: seq<Access>): seq<byte> {
    if accs == [] then []
    else
      var k := |accs| - 1;
      var a := accs[k];
      RespBytes(accs[..k])
        + if a.Rd? && MB_RESP <= a.reg < MB_FLAG && a.got.Some? then Le32(a.got.value) else []
  }

  /** What the phase knows about the accesses so far. */
  ghost predicate Agrees(p: Phase, b: seq<byte>) {
    match p
    case Body(got) => got == b
    case Clear(got) => got == b
    case Reject => |b| == 4 && !LengthOk(DeclaredLen(b))
    case Done(st, cmd, resp) =>
      && (st in {OK, ECRC} ==>
            |b| >= 4 && LengthOk(DeclaredLen(b)) && |b| == 4 * Words(DeclaredLen(b)) && p == Verdict(b))
      && (st == EINVAL ==> |b| == 4 && !LengthOk(DeclaredLen(b)))
      && (st in {EBUSY, ETIMEDOUT} ==> b == [])
      && st in {OK, EINVAL, EIO, EBUSY, ETIMEDOUT, ECRC}
    case _ => b == []
  }

  lemma AgreesStep(r: Req, p: Phase, a: Access, b: seq<byte>)
    requires r.Valid() && PhaseOk(r, p) && Agrees(p, b) && Next(r, p, a).Some?
    ensures Agrees(Next(r, p, a).value,
                   b + if a.Rd? && MB_RESP <= a.reg < MB_FLAG && a.got.Some? then Le32(a.got.value) else [])
  {
    hide Sealed;
    AccessInWindow(r, p, a);
    if p.Head? {
      if a.got.Some? { HeadLength(a.got.value); }
    } else if p.Body? {
    } else {
      assert b + [] == b;
    }
  }

  lemma {:induction false} RunAgrees(r: Req, accs: seq<Access>)
    requires r.Valid() && Run(r, accs).Some?
    ensures PhaseOk(r, Run(r, accs).value) && Agrees(Run(r, accs).value, RespBytes(accs))
  {
    if accs != [] {
      var k := |accs| - 1;
      RunAgrees(r, accs[..k]);
      NextKeepsOk(r, Run(r, accs[..k]).value, accs[k]);
      AgreesStep(r, Run(r, accs[..k]).value, accs[k], RespBytes(accs[..k]));
    }
  }

  /** A transaction that ends OK returns exactly what the response window held: a packet of
      length 6 to 1024 with a matching checksum, its command and its payload. One that ends ECRC
      read a complete packet whose checksum does not match, and one that ends EINVAL read a
      length outside 6..1024. */
  lemma ResultMeans(r: Req, accs: seq<Access>)
    requires r.Valid() && Run(r, accs).Some? && Run(r, accs).value.Done?
    ensures var Done(st, cmd, resp) := Run(r, accs).value;
            var b := RespBytes(accs);
            && (st == OK ==> |b| >= 4 && var n := DeclaredLen(b);
                  n <= |b| && WellFormed(b[..n]) && cmd == b[0] && resp == b[4..n - 2])
            && (st == ECRC ==> |b| >= 4 && var n := DeclaredLen(b);
                  PKT_MIN <= n <= PKT_MAX && n <= |b| && !Sealed(b[..n]))
            && (st == EINVAL ==> |b| == 4 && !(PKT_MIN <= DeclaredLen(b) <= PKT_MAX))
  {
    RunAgrees(r, accs);
    var st, b := Run(r, accs).value.st, RespBytes(accs);
    if st == OK {
      var n := DeclaredLen(b);
      assert Get16(b[..n], 2) == n;
    }
  }

  // --- A device that echoes ------------------------------------------------------------------

  /** Every response word read equals the request word written at the same offset. */
  ghost predicate Echoes(accs: seq<Access>) {
    forall i, j :: 0 <= i < j < |accs| && accs[i].Wr? && accs[j].Rd? && accs[j].got.Some?
                   && MB_CMD <= accs[i].reg < MB_RESP && accs[j].reg as int == accs[i].reg as int + 0x100
                   ==> accs[j].got.value == accs[i].val
  }

  /** No transfer failed, the mailbox was free and the daemon did not give up waiting. */
  predicate Smooth(accs: seq<Access>) {
    && (forall i :: 0 <= i < |accs| ==>
          if accs[i].Rd? then accs[i].got.Some? else accs[i].ok && accs[i].val != MB_CLR_REQ)
    && (|accs| > 0 && accs[0].Rd? && accs[0].got.Some? ==> !BusyBit(accs[0].got.value))
  }

  predicate SentAt(r: Req, a: Access, i: nat)
    requires r.Valid()
  {
    a.Wr? && a.reg as int == MB_CMD as int + i && Carries(r, i, a.val)
  }

  /** The request words already written sit right after the busy check. */
  predicate Sent(r: Req, accs: seq<Access>, n: nat)
    requires r.Valid()
  {
    n < |accs| && forall i :: 0 < i <= n ==> SentAt(r, accs[i], i - 1)
  }

  predicate PrefixOf(r: Req, got: seq<byte>)
    requires r.Valid()
  {
    forall k :: 0 <= k < |got| && k < |Packet(r)| ==> got[k] == Packet(r)[k]
  }

  ghost predicate EchoInv(r: Req, accs: seq<Access>, p: Phase)
    requires r.Valid()
  {
    var n := Words(r.Len());
    match p
    case Check => accs == []
    case Send(i) => |accs| == i + 1 && Sent(r, accs, i)
    case Body(got) => Sent(r, accs, n) && PrefixOf(r, got)
    case Clear(got) => Sent(r, accs, n) && PrefixOf(r, got)
    case Reject => false
    case Done(st, cmd, resp) => (st == OK ==> cmd == r.cmd && resp == r.payload) && st !in {EINVAL, ECRC}
    case _ => Sent(r, accs, n)
  }

  /** Word i of the response, read back from an echoing device, extends the packet prefix. */
  lemma EchoedWord(r: Req, accs: seq<Access>, a: Access, got: seq<byte>)
    requires r.Valid() && Sent(r, accs, Words(r.Len())) && Echoes(accs + [a])
    requires PrefixOf(r, got) && |got| % 4 == 0 && |got| < r.Len()
    requires a.Rd? && a.reg as int == MB_RESP as int + |got| / 4 && a.got.Some?
    ensures PrefixOf(r, got + Le32(a.got.value))
  {
    var i := |got| / 4;
    var all := accs + [a];
    assert all[i + 1] == accs[i + 1] && all[|accs|] == a;
    assert SentAt(r, accs[i + 1], i);
  }

  lemma {:induction false} EchoRun(r: Req, accs: seq<Access>)
    requires r.Valid() && Run(r, accs).Some? && Echoes(accs)
    ensures EchoInv(r, accs, Run(r, accs).value)
  {
    hide Next;
    if accs != [] {
      var k := |accs| - 1;
      var before, a := accs[..k], accs[k];
      assert accs == before + [a];
      EchoRun(r, before);
      RunAgrees(r, before);
      EchoStep(r, before, Run(r, before).value, a);
    }
  }

  lemma SentGrows(r: Req, accs: seq<Access>, a: Access, n: nat)
    requires r.Valid() && Sent(r, accs, n)
    ensures Sent(r, accs + [a], n)
    ensures n == |accs| - 1 && SentAt(r, a, n) ==> Sent(r, accs + [a], n + 1)
  {
  }

  lemma EchoStep(r: Req, accs: seq<Access>, p: Phase, a: Access)
    requires r.Valid() && PhaseOk(r, p) && EchoInv(r, accs, p) && Next(r, p, a).Some? && Echoes(accs + [a])
    ensures EchoInv(r, accs + [a], Next(r, p, a).value)
  {
    hide Verdict;
    hide Packet;
    match p
    case Check =>
    case Send(i) => SentGrows(r, accs, a, i);
    case Head => EchoHead(r, accs, a); SentGrows(r, accs, a, Words(r.Len()));
    case Body(got) => EchoBody(r, accs, a, got); SentGrows(r, accs, a, Words(r.Len()));
    case Clear(got) => EchoVerdict(r, got);
    case _ => SentGrows(r, accs, a, Words(r.Len()));
  }

  lemma EchoHead(r: Req, accs: seq<Access>, a: Access)
    requires r.Valid() && Sent(r, accs, Words(r.Len())) && Next(r, Head, a).Some? && Echoes(accs + [a])
    ensures a.got.Some? ==> LengthOk(a.got.value / 65536) && PrefixOf(r, Le32(a.got.value))
  {
    if a.got.Some? {
      PacketFields(r);
      EchoedWord(r, accs, a, []);
      assert [] + Le32(a.got.value) == Le32(a.got.value);
      HeadLength(a.got.value);
    }
  }

  lemma EchoBody(r: Req, accs: seq<Access>, a: Access, got: seq<byte>)
    requires r.Valid() && Sent(r, accs, Words(r.Len())) && PhaseOk(r, Body(got)) && PrefixOf(r, got)
    requires Next(r, Body(got), a).Some? && Echoes(accs + [a])
    ensures a.got.Some? ==> PrefixOf(r, got + Le32(a.got.value))
  {
    if a.got.Some? {
      PacketFields(r);
      EchoedWord(r, accs, a, got);
    }
  }

  lemma EchoVerdict(r: Req, got: seq<byte>)
    requires r.Valid() && PhaseOk(r, Clear(got)) && PrefixOf(r, got)
    ensures Verdict(got) == Done(OK, r.cmd, r.payload)
  {
    PacketFields(r);
    assert DeclaredLen(got) == r.Len();
    assert got[..r.Len()] == Packet(r);
    assert got[4..r.Len() - 2] == got[..r.Len()][4..r.Len() - 2];
  }

  lemma {:induction false} SmoothRun(r: Req, accs: seq<Access>)
    requires r.Valid() && Run(r, accs).Some? && Smooth(accs)
    ensures var p := Run(r, accs).value; p.Done? ==> p.st in {OK, EINVAL, ECRC}
  {
    if accs != [] {
      var k := |accs| - 1;
      assert Smooth(accs[..k]);
      SmoothRun(r, accs[..k]);
      if Run(r, accs[..k]).value.Check? { CheckIsFirst(r, accs[..k]); }
    }
  }

  lemma {:induction false} CheckIsFirst(r: Req, accs: seq<Access>)
    requires r.Valid() && Run(r, accs) == Some(Check)
    ensures accs == []
  {
  }

  /** Codec round trip: against a device that copies the request words to the response window,
      every finished transaction either reports a transfer failure, a busy mailbox or a timeout,
      or returns the very command and payload sent; and it does return them when no transfer
      failed, the mailbox was free and the daemon did not give up. */
  lemma EchoRoundTrip(r: Req, accs: seq<Access>)
    requires r.Valid() && Run(r, accs).Some? && Run(r, accs).value.Done? && Echoes(accs)
    ensures var p := Run(r, accs).value;
            p == Done(OK, r.cmd, r.payload) || p.st in {EIO, EBUSY, ETIMEDOUT}
    ensures Smooth(accs) ==> Run(r, accs).value == Done(OK, r.cmd, r.payload)
  {
    EchoRun(r, accs);
    RunAgrees(r, accs);
    if Smooth(accs) { SmoothRun(r, accs); }
  }

  // --- Corrupted responses -------------------------------------------------------------------

  /** The window holds a well-formed packet p with some bits flipped, its length field excepted. */
  predicate Corrupted(p: seq<byte>, b: seq<byte>) {
    WellFormed(p) && |b| >= |p| && b[2..4] == p[2..4]
  }

  predicate Concluded(r: Req, accs: seq<Access>)
    requires r.Valid()
  {
    Run(r, accs).Some? && Run(r, accs).value.Done? && Run(r, accs).value.st in {OK, EINVAL, ECRC}
  }

  lemma CorruptedIsRefused(r: Req, accs: seq<Access>, p: seq<byte>)
    requires r.Valid() && Concluded(r, accs) && Corrupted(p, RespBytes(accs))
    ensures Run(r, accs).value.st == if Sealed(RespBytes(accs)[..|p|]) then OK else ECRC
  {
    RunAgrees(r, accs);
    var b := RespBytes(accs);
    assert b[2] == b[2..4][0] && b[3] == b[2..4][1] && p[2] == p[2..4][0] && p[3] == p[2..4][1];
    assert DeclaredLen(b) == |p|;
  }

  /** An odd number of flipped bits, checksum field included, is answered ECRC. */
  lemma OddFlipsAreEcrc(r: Req, accs: seq<Access>, p: seq<byte>)
    requires r.Valid() && Concluded(r, accs) && Corrupted(p, RespBytes(accs))
    requires Weight(Flips(p, RespBytes(accs)[..|p|])) % 2 == 1
    ensures Run(r, accs).value.st == ECRC
  {
    CorruptedIsRefused(r, accs, p);
    OddDetected(p, RespBytes(accs)[..|p|]);
  }

  /** A burst of at most 16 bits inside the covered bytes is answered ECRC. */
  lemma BurstIsEcrc(r: Req, accs: seq<Access>, p: seq<byte>, at: nat)
    requires r.Valid() && Concluded(r, accs) && Corrupted(p, RespBytes(accs))
    requires var q := RespBytes(accs)[..|p|];
             p[|p| - 2..] == q[|p| - 2..] && InBurst(Flips(p[..|p| - 2], q[..|p| - 2]), at)
    ensures Run(r, accs).value.st == ECRC
  {
    CorruptedIsRefused(r, accs, p);
    BurstDetected(p, RespBytes(accs)[..|p|], at);
  }

  /** Two flipped bits anywhere but in the length field are answered ECRC. */
  lemma TwoFlipsAreEcrc(r: Req, accs: seq<Access>, p: seq<byte>)
    requires r.Valid() && Concluded(r, accs) && Corrupted(p, RespBytes(accs))
    requires Weight(Flips(p, RespBytes(accs)[..|p|])) == 2
    ensures Run(r, accs).value.st == ECRC
  {
    CorruptedIsRefused(r, accs, p);
    TwoFlipsDetected(p, RespBytes(accs)[..|p|]);
  }

  /** A burst of at most 16 bits anywhere is answered ECRC unless it is one of the twelve. */
  lemma BurstVerdict(r: Req, accs: seq<Access>, p: seq<byte>, at: nat)
    requires r.Valid() && Concluded(r, accs) && Corrupted(p, RespBytes(accs))
    requires InBurst(Flips(p, RespBytes(accs)[..|p|]), at)
    ensures Run(r, accs).value.st == if Slips(Flips(p, RespBytes(accs)[..|p|])) then OK else ECRC
  {
    CorruptedIsRefused(r, accs, p);
    BurstExact(p, RespBytes(accs)[..|p|], at);
  }
}
