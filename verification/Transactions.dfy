// One mailbox transaction from its register accesses alone: which sequences of accesses end it, and
// how. The registers, bits and lengths are those of the chip, written out.

module Transactions {
  import opened Bytes
  import opened Crc
  import opened CrcErrors
  import opened Layout
  import opened Mailbox
  import opened Wire

  // --- The accesses, in the order they are due -----------------------------------------------

  function ByteOf(w: u32, k: nat): int {
    if k == 0 then w % 256 else if k == 1 then w / 256 % 256 else if k == 2 then w / 65536 % 256 else w / 16777216
  }

  /** Byte i of the request packet: command, 0xff, length, payload, checksum low byte first. */
  function PacketAt(r: Req, i: nat): int
    requires i < |r.payload| + 6
  {
    var n := |r.payload| + 6;
    var crc := Checksum([r.cmd, 255, n % 256, n / 256 % 256] + r.payload);
    if i == 0 then r.cmd else if i == 1 then 255 else if i == 2 then n % 256 else if i == 3 then n / 256
    else if i < n - 2 then r.payload[i - 4]
    else if i == n - 2 then crc % 256 else crc / 256
  }

  /** A write of request word i; what pads the last word is left open. */
  predicate WordDue(r: Req, a: Access, i: nat) {
    && a.Wr? && a.reg == 0xd800 + i
    && forall j :: 4 * i <= j < 4 * i + 4 && j < |r.payload| + 6 ==> ByteOf(a.val, j - 4 * i) == PacketAt(r, j)
  }

  /** The request takes this many words. */
  function Span(r: Req): nat { (|r.payload| + 9) / 4 }

  /** Access i up to the doorbell: busy check, request words, interrupt mask, doorbell. */
  predicate Due(r: Req, accs: seq<Access>, i: nat)
    requires i < |accs|
  {
    var a, w := accs[i], Span(r);
    if i == 0 then a.Rd? && a.reg == 0xda00
    else if i <= w then WordDue(r, a, i - 1)
    else if i == w + 1 then a.Rd? && a.reg == 0xda01
    else if i == w + 2 then
      && a.Wr? && a.reg == 0xda01 && accs[i - 1].Rd? && accs[i - 1].got.Some?
      && a.val / 2 == accs[i - 1].got.value / 2 && a.val % 2 == 1
    else i == w + 3 && a.Wr? && a.reg == 0xda00 && a.val == 0x1_0000
  }

  predicate Through(a: Access) { if a.Rd? then a.got.Some? else a.ok }

  /** The first n accesses were due and went through, and the mailbox was not busy. */
  predicate Opened(r: Req, accs: seq<Access>, n: nat) {
    && n <= |accs| && n <= Span(r) + 4 && (forall i :: 0 <= i < n ==> Due(r, accs, i) && Through(accs[i]))
    && (n > 0 ==> accs[0].Rd? && accs[0].got.Some? && accs[0].got.value % 2 == 0)
  }

  predicate FlagRead(a: Access) { a.Rd? && a.reg == 0xda00 && a.got.Some? }

  /** After the doorbell every look up to access n found no response. */
  predicate Polls(r: Req, accs: seq<Access>, n: nat) {
    && Opened(r, accs, Span(r) + 4) && Span(r) + 4 <= n <= |accs|
    && forall i :: Span(r) + 4 <= i < n ==> FlagRead(accs[i]) && accs[i].got.value / 2 % 2 == 0
  }

  /** Access h found the response. */
  predicate Raised(r: Req, accs: seq<Access>, h: nat) {
    h < |accs| && Polls(r, accs, h) && FlagRead(accs[h]) && accs[h].got.value / 2 % 2 == 1
  }

  predicate WordRead(a: Access, j: nat, v: int) { a.Rd? && a.reg == 0xd900 + j && a.got.Some? && a.got.value == v }

  /** After access h the bytes b were read from the response window, word by word. */
  predicate Window(accs: seq<Access>, h: nat, b: seq<byte>) {
    && |b| % 4 == 0 && h + 1 + |b| / 4 <= |accs|
    && forall j :: 0 <= j < |b| / 4 ==> WordRead(accs[h + 1 + j], j, U32(b, 4 * j))
  }

  /** The length field of the response is one the chip can mean. */
  predicate Sized(b: seq<byte>) { |b| >= 4 && 6 <= U16(b, 2) <= 1024 }

  predicate Clears(a: Access, bits: int) { a.Wr? && a.reg == 0xda00 && a.val == bits }

  /** The response was raised and the last |b| / 4 accesses but skip read b. */
  predicate Collecting(r: Req, accs: seq<Access>, b: seq<byte>, skip: nat) {
    var h := |accs| - 1 - |b| / 4 - skip;
    h >= 0 && Raised(r, accs, h) && Window(accs, h, b)
  }

  // --- How a transaction ends ----------------------------------------------------------------

  /** All words of the response were read, then its flag was cleared. */
  predicate Taken(r: Req, accs: seq<Access>, b: seq<byte>) {
    && Collecting(r, accs, b, 1) && Clears(accs[|accs| - 1], 0x200_0000)
    && Sized(b) && |b| / 4 == (U16(b, 2) + 3) / 4
  }

  predicate Matching(b: seq<byte>)
    requires Sized(b) && |b| >= U16(b, 2)
  {
    var n := U16(b, 2);
    U16(b, n - 2) == Checksum(b[..n - 2])
  }

  ghost predicate EndsOk(r: Req, accs: seq<Access>, cmd: byte, resp: seq<byte>) {
    exists b: seq<byte> :: Taken(r, accs, b) && Matching(b) && cmd == b[0] && resp == b[4..U16(b, 2) - 2]
  }

  ghost predicate EndsCorrupt(r: Req, accs: seq<Access>) {
    exists b: seq<byte> :: Taken(r, accs, b) && !Matching(b)
  }

  /** The length in the first word is out of range: the flag is cleared and nothing else read. */
  ghost predicate EndsMalformed(r: Req, accs: seq<Access>) {
    exists b: seq<byte> :: |b| == 4 && !Sized(b) && Collecting(r, accs, b, 1) && Clears(accs[|accs| - 1], 0x200_0000)
  }

  /** At least one look found nothing, and the request was withdrawn. */
  predicate EndsWaiting(r: Req, accs: seq<Access>) {
    var k := |accs| - 1;
    k > Span(r) + 4 && Polls(r, accs, k) && Clears(accs[k], 0x100_0000)
  }

  predicate EndsBusy(accs: seq<Access>) {
    |accs| == 1 && FlagRead(accs[0]) && accs[0].got.value % 2 == 1
  }

  /** A response word could not be read. */
  ghost predicate WindowBroke(r: Req, accs: seq<Access>) {
    exists b: seq<byte> ::
      && Collecting(r, accs, b, 1) && (b == [] || (Sized(b) && |b| < U16(b, 2)))
      && accs[|accs| - 1].Rd? && accs[|accs| - 1].reg == 0xd900 + |b| / 4
  }

  /** The last access was due and failed. */
  ghost predicate EndsBroken(r: Req, accs: seq<Access>) {
    && accs != [] && !Through(accs[|accs| - 1])
    && var k := |accs| - 1;
       || (Opened(r, accs, k) && k < Span(r) + 4 && Due(r, accs, k))
       || (Polls(r, accs, k) && accs[k].Rd? && accs[k].reg == 0xda00)
       || WindowBroke(r, accs)
  }

  /** The accesses are a whole transaction with this status, command and payload. */
  ghost predicate Ended(r: Req, accs: seq<Access>, st: Status, cmd: byte, resp: seq<byte>) {
    if st == 0 then EndsOk(r, accs, cmd, resp)
    else
      && cmd == 0 && resp == []
      && (st == 1 ==> EndsMalformed(r, accs)) && (st == 2 ==> EndsBroken(r, accs)) && (st == 3 ==> EndsBusy(accs))
      && (st == 4 ==> EndsWaiting(r, accs)) && (st == 6 ==> EndsCorrupt(r, accs)) && st in {1, 2, 3, 4, 6}
  }

  // --- The protocol, phase by phase ----------------------------------------------------------

  /** Where accesses leave a transaction, read off them alone. */
  ghost predicate Stands(r: Req, accs: seq<Access>, p: Phase) {
    var n, w := |accs|, Span(r);
    match p
    case Check => accs == []
    case Send(i) => i < w && n == i + 1 && Opened(r, accs, n)
    case MaskGet => n == w + 1 && Opened(r, accs, n)
    case MaskSet(m) => n == w + 2 && Opened(r, accs, n) && accs[n - 1] == Rd(0xda01, Some(m))
    case Ring => n == w + 3 && Opened(r, accs, n)
    case Poll => n == w + 4 && Opened(r, accs, n)
    case Wait => n > w + 4 && Polls(r, accs, n)
    case Head => n > 0 && Raised(r, accs, n - 1)
    case Body(got) => Collecting(r, accs, got, 0) && Sized(got) && |got| < U16(got, 2)
    case Reject => exists b: seq<byte> :: |b| == 4 && !Sized(b) && Collecting(r, accs, b, 0)
    case Clear(got) => Collecting(r, accs, got, 0) && Sized(got) && |got| / 4 == (U16(got, 2) + 3) / 4
    case Done(st, cmd, resp) => Ended(r, accs, st, cmd, resp)
  }

  // --- One access more -----------------------------------------------------------------------

  lemma OpenedGrows(r: Req, accs: seq<Access>, a: Access, n: nat)
    requires n <= |accs|
    ensures Opened(r, accs + [a], n) <==> Opened(r, accs, n)
  {
    hide WordDue;
    var all := accs + [a];
    assert forall i :: 0 <= i < n ==> all[i] == accs[i];
    assert forall i :: 0 <= i < n ==> (Due(r, all, i) <==> Due(r, accs, i));
  }

  lemma OpenedOne(r: Req, accs: seq<Access>, a: Access)
    requires Opened(r, accs, |accs|) && |accs| < Span(r) + 4 && Due(r, accs + [a], |accs|) && Through(a)
    requires accs == [] ==> a.got.value % 2 == 0
    ensures Opened(r, accs + [a], |accs| + 1)
  {
    hide WordDue;
    OpenedGrows(r, accs, a, |accs|);
  }

  lemma PollsGrow(r: Req, accs: seq<Access>, a: Access, n: nat)
    requires n <= |accs|
    ensures Polls(r, accs + [a], n) <==> Polls(r, accs, n)
  {
    hide Opened;
    if Span(r) + 4 <= n { OpenedGrows(r, accs, a, Span(r) + 4); }
    var all := accs + [a];
    assert forall i :: 0 <= i < n ==> all[i] == accs[i];
  }

  lemma RaisedGrows(r: Req, accs: seq<Access>, a: Access, h: nat)
    requires h < |accs|
    ensures Raised(r, accs + [a], h) <==> Raised(r, accs, h)
  {
    hide Polls;
    PollsGrow(r, accs, a, h);
  }

  lemma CollectingGrows(r: Req, accs: seq<Access>, a: Access, b: seq<byte>, skip: nat)
    ensures Collecting(r, accs + [a], b, skip + 1) <==> Collecting(r, accs, b, skip)
  {
    hide Raised;
    hide WordRead;
    var all, h := accs + [a], |accs| - 1 - |b| / 4 - skip;
    if h >= 0 {
      RaisedGrows(r, accs, a, h);
    }
  }

  /** One more word of the window. */
  lemma CollectsWord(r: Req, accs: seq<Access>, a: Access, b: seq<byte>)
    requires Collecting(r, accs, b, 0) && a.Rd? && a.got.Some? && a.reg == 0xd900 + |b| / 4
    ensures Collecting(r, accs + [a], b + Le32(a.got.value), 0)
  {
    hide Raised;
    var all, h, b' := accs + [a], |accs| - 1 - |b| / 4, b + Le32(a.got.value);
    RaisedGrows(r, accs, a, h);
    forall j | 0 <= j < |b'| / 4 ensures WordRead(all[h + 1 + j], j, U32(b', 4 * j)) {
      if j < |b| / 4 {
        assert WordRead(accs[h + 1 + j], j, U32(b, 4 * j));
      } else {
        Le32RoundTrip(a.got.value);
        assert b'[4 * j..4 * j + 4] == Le32(a.got.value);
      }
    }
  }

  lemma WordBefore(r: Req, accs: seq<Access>, a: Access, b: seq<byte>)
    requires Collecting(r, accs + [a], b, 0) && |b| >= 4
    ensures |b| % 4 == 0 && a.Rd? && a.got.Some? && a.reg == 0xd900 + |b| / 4 - 1
    ensures Collecting(r, accs, b[..|b| - 4], 0) && b == b[..|b| - 4] + Le32(a.got.value)
  {
    hide Raised;
    hide U32;
    hide Le32;
    var all, n, c := accs + [a], |b| / 4, b[..|b| - 4];
    var h := |accs| - n;
    RaisedGrows(r, accs, a, h);
    assert all[h + 1 + (n - 1)] == a && WordRead(a, n - 1, U32(b, 4 * (n - 1)));
    LastWord(b, a.got.value);
    forall j | 0 <= j < |c| / 4 ensures WordRead(accs[h + 1 + j], j, U32(c, 4 * j)) {
      assert WordRead(all[h + 1 + j], j, U32(b, 4 * j));
      WordOfPrefix(b, |c|, j);
    }
  }

  lemma LastWord(b: seq<byte>, v: u32)
    requires |b| >= 4 && U32(b, |b| - 4) == v
    ensures b == b[..|b| - 4] + Le32(v)
  {
    Get32RoundTrip(b, |b| - 4);
  }

  lemma WordOfPrefix(b: seq<byte>, n: nat, j: nat)
    requires 4 * j + 4 <= n <= |b|
    ensures U32(b[..n], 4 * j) == U32(b, 4 * j)
  {
  }

  // --- Words and bits ------------------------------------------------------------------------

  lemma PacketBytes(r: Req, i: nat)
    requires r.Valid() && i < |r.payload| + 6
    ensures Packet(r)[i] == PacketAt(r, i)
  {
    hide Checksum;
    var n := |r.payload| + 6;
    assert [r.cmd, 0xff] + Le16(n) + r.payload == [r.cmd, 255, n % 256, n / 256 % 256] + r.payload;
  }

  lemma CarriesIsDue(r: Req, a: Access, i: nat)
    requires r.Valid()
    ensures a.Wr? && a.reg == MB_CMD + i && Carries(r, i, a.val) <==> WordDue(r, a, i)
  {
    hide Packet;
    hide PacketAt;
    var n := |r.payload| + 6;
    forall j | 0 <= j < n ensures Packet(r)[j] == PacketAt(r, j) {
      PacketBytes(r, j);
    }
    if a.Wr? && Carries(r, i, a.val) {
      forall j | 4 * i <= j < 4 * i + 4 && j < n ensures ByteOf(a.val, j - 4 * i) == PacketAt(r, j) {
        assert Le32(a.val)[j - 4 * i] == Packet(r)[4 * i + (j - 4 * i)];
      }
    }
    if WordDue(r, a, i) {
      forall k | 0 <= k < 4 && 4 * i + k < n ensures Le32(a.val)[k] == Packet(r)[4 * i + k] {
        assert ByteOf(a.val, (4 * i + k) - 4 * i) == PacketAt(r, 4 * i + k);
      }
    }
  }

  lemma MaskBits(v: u32, m: u32)
    ensures v == m - m % 2 + 1 <==> v / 2 == m / 2 && v % 2 == 1
  {
  }

  // --- Forward -------------------------------------------------------------------------------

  predicate Opening(p: Phase) { p.Check? || p.Send? || p.MaskGet? || p.MaskSet? || p.Ring? }

  /** The access the protocol expects in an opening phase is the one that is due. */
  lemma OpeningDue(r: Req, accs: seq<Access>, p: Phase, a: Access)
    requires r.Valid() && Opening(p) && Stands(r, accs, p)
    ensures |accs| < Span(r) + 4 && Opened(r, accs, |accs|)
    ensures Next(r, p, a).Some? <==> Due(r, accs + [a], |accs|)
  {
    hide WordDue;
    hide Carries;
    if p.Send? {
      CarriesIsDue(r, a, p.i);
    } else if p.MaskSet? {
      if a.Wr? { MaskBits(a.val, p.mask); }
    }
  }

  lemma OpeningStep(r: Req, accs: seq<Access>, p: Phase, a: Access)
    requires r.Valid() && Opening(p) && Stands(r, accs, p) && Next(r, p, a).Some?
    ensures Stands(r, accs + [a], Next(r, p, a).value)
  {
    hide WordDue;
    hide Carries;
    hide EndsOk;
    hide EndsMalformed;
    hide EndsCorrupt;
    hide WindowBroke;
    OpeningDue(r, accs, p, a);
    if !Through(a) {
      OpenedGrows(r, accs, a, |accs|);
    } else if accs != [] || a.got.value % 2 == 0 {
      OpenedOne(r, accs, a);
    }
  }

  lemma PollStep(r: Req, accs: seq<Access>, p: Phase, a: Access)
    requires r.Valid() && (p.Poll? || p.Wait?) && Stands(r, accs, p) && Next(r, p, a).Some?
    ensures Stands(r, accs + [a], Next(r, p, a).value)
  {
    hide Opened;
    hide EndsOk;
    hide EndsMalformed;
    hide EndsCorrupt;
    hide WindowBroke;
    PollsGrow(r, accs, a, |accs|);
  }

  lemma HeadStep(r: Req, accs: seq<Access>, a: Access)
    requires r.Valid() && Stands(r, accs, Head) && Next(r, Head, a).Some?
    ensures Stands(r, accs + [a], Next(r, Head, a).value)
  {
    hide Raised;
    if a.got.None? {
      CollectingGrows(r, accs, a, [], 0);
      assert WindowBroke(r, accs + [a]);
    } else {
      HeadLength(a.got.value);
      CollectsWord(r, accs, a, []);
      assert [] + Le32(a.got.value) == Le32(a.got.value);
    }
  }

  lemma BodyStep(r: Req, accs: seq<Access>, got: seq<byte>, a: Access)
    requires r.Valid() && Stands(r, accs, Body(got)) && Next(r, Body(got), a).Some?
    ensures Stands(r, accs + [a], Next(r, Body(got), a).value)
  {
    hide Raised;
    if a.got.None? {
      CollectingGrows(r, accs, a, got, 0);
      assert WindowBroke(r, accs + [a]);
    } else {
      CollectsWord(r, accs, a, got);
      var b := got + Le32(a.got.value);
      assert b[2] == got[2] && b[3] == got[3];
    }
  }

  lemma LastStep(r: Req, accs: seq<Access>, p: Phase, a: Access)
    requires r.Valid() && (p.Reject? || p.Clear?) && Stands(r, accs, p) && Next(r, p, a).Some?
    ensures Stands(r, accs + [a], Next(r, p, a).value)
  {
    hide Checksum;
    hide Collecting;
    if p.Reject? {
      var b: seq<byte> :| |b| == 4 && !Sized(b) && Collecting(r, accs, b, 0);
      CollectingGrows(r, accs, a, b, 0);
    } else {
      var b := p.got;
      CollectingGrows(r, accs, a, b, 0);
      assert Taken(r, accs + [a], b);
      JudgedBy(b);
    }
  }

  lemma JudgedBy(b: seq<byte>)
    requires Sized(b) && |b| >= U16(b, 2)
    ensures LengthOk(DeclaredLen(b)) && DeclaredLen(b) == U16(b, 2) && |b[..DeclaredLen(b)]| >= 2
    ensures Matching(b) <==> Sealed(b[..DeclaredLen(b)])
  {
    hide Checksum;
    var n := U16(b, 2);
    assert b[..n][..n - 2] == b[..n - 2];
  }

  lemma StandsStep(r: Req, accs: seq<Access>, p: Phase, a: Access)
    requires r.Valid() && Stands(r, accs, p) && Next(r, p, a).Some?
    ensures Stands(r, accs + [a], Next(r, p, a).value)
  {
    hide Stands;
    hide Next;
    if Opening(p) {
      OpeningStep(r, accs, p, a);
    } else if p.Poll? || p.Wait? {
      PollStep(r, accs, p, a);
    } else if p.Head? {
      HeadStep(r, accs, a);
    } else if p.Body? {
      BodyStep(r, accs, p.got, a);
    } else if p.Reject? || p.Clear? {
      LastStep(r, accs, p, a);
    } else {
      NothingFollows(r, p, a);
    }
  }

  lemma NothingFollows(r: Req, p: Phase, a: Access)
    requires r.Valid() && p.Done?
    ensures Next(r, p, a).None?
  {
  }

  // --- Backward ------------------------------------------------------------------------------

  /** The phase after the first accesses, up to the doorbell. */
  lemma OpeningPhase(r: Req, accs: seq<Access>) returns (p: Phase)
    requires Opened(r, accs, |accs|) && |accs| < Span(r) + 4
    ensures Opening(p) && Stands(r, accs, p)
  {
    hide WordDue;
    var n, w := |accs|, Span(r);
    if n == 0 {
      p := Check;
    } else if n <= w {
      p := Send(n - 1);
    } else if n == w + 1 {
      p := MaskGet;
    } else if n == w + 2 {
      p := MaskSet(accs[n - 1].got.value);
    } else {
      p := Ring;
    }
  }

  predicate Opens(p: Phase) { Opening(p) || p.Poll? }

  lemma BackOpening(r: Req, accs: seq<Access>, a: Access, p': Phase) returns (p: Phase)
    requires r.Valid() && Opens(p') && Stands(r, accs + [a], p')
    ensures Stands(r, accs, p) && Next(r, p, a) == Some(p')
  {
    hide WordDue;
    hide Carries;
    var all := accs + [a];
    assert all[|accs|] == a;
    OpenedGrows(r, accs, a, |accs|);
    assert Opened(r, accs, |accs|);
    p := OpeningPhase(r, accs);
    OpeningDue(r, accs, p, a);
  }

  /** Before the response flag: waiting, or the first look. */
  lemma Looking(r: Req, accs: seq<Access>) returns (p: Phase)
    requires Polls(r, accs, |accs|)
    ensures (p.Poll? || p.Wait?) && Stands(r, accs, p) && (|accs| > Span(r) + 4 ==> p.Wait?)
  {
    hide Due;
    p := if |accs| == Span(r) + 4 then Poll else Wait;
  }

  lemma BackPoll(r: Req, accs: seq<Access>, a: Access, p': Phase) returns (p: Phase)
    requires r.Valid() && (p'.Wait? || p'.Head?) && Stands(r, accs + [a], p')
    ensures Stands(r, accs, p) && Next(r, p, a) == Some(p')
  {
    hide Opened;
    var all := accs + [a];
    assert all[|accs|] == a;
    PollsGrow(r, accs, a, |accs|);
    p := Looking(r, accs);
  }

  /** Before a word of the window. */
  lemma Fetching(r: Req, accs: seq<Access>, b: seq<byte>) returns (p: Phase)
    requires r.Valid() && Collecting(r, accs, b, 0) && (b == [] || (Sized(b) && |b| < U16(b, 2)))
    ensures Stands(r, accs, p) && p == if b == [] then Head else Body(b)
  {
    hide Polls;
    p := if b == [] then Head else Body(b);
  }

  lemma BackWord(r: Req, accs: seq<Access>, a: Access, b: seq<byte>, p': Phase) returns (p: Phase)
    requires r.Valid() && Collecting(r, accs + [a], b, 0)
    requires Leads(b, p')
    ensures Stands(r, accs, p) && Next(r, p, a) == Some(p')
  {
    hide Collecting;
    hide Next;
    hide Stands;
    hide Le32;
    hide Leads;
    LeadsSize(b, p');
    WordBefore(r, accs, a, b);
    var c := b[..|b| - 4];
    if c == [] {
      assert c + Le32(a.got.value) == Le32(a.got.value);
      FirstWord(r, a, b, p');
    } else {
      assert c[2] == b[2] && c[3] == b[3];
      LaterWord(r, a, c, b, p');
    }
    p := Fetching(r, accs, c);
  }

  /** b is a response that is, in phase p, complete, to be continued or to be rejected. */
  predicate Leads(b: seq<byte>, p: Phase) {
    if p == Body(b) then Sized(b) && |b| < U16(b, 2)
    else if p == Clear(b) then Sized(b) && |b| / 4 == (U16(b, 2) + 3) / 4
    else p == Reject && |b| == 4 && !Sized(b)
  }

  lemma LeadsSize(b: seq<byte>, p: Phase)
    requires Leads(b, p)
    ensures |b| >= 4
  {
  }

  lemma FirstWord(r: Req, a: Access, b: seq<byte>, p: Phase)
    requires r.Valid() && a.Rd? && a.got.Some? && a.reg == 0xd900 && b == Le32(a.got.value) && Leads(b, p)
    ensures Next(r, Head, a) == Some(p)
  {
    HeadLength(a.got.value);
  }

  lemma LaterWord(r: Req, a: Access, c: seq<byte>, b: seq<byte>, p: Phase)
    requires r.Valid() && a.Rd? && a.got.Some? && |c| % 4 == 0 && a.reg == 0xd900 + |c| / 4
    requires |c| >= 4 && b == c + Le32(a.got.value) && U16(b, 2) == U16(c, 2) && Leads(b, p)
    ensures Next(r, Body(c), a) == Some(p) && Sized(c) && |c| < U16(c, 2)
  {
  }

  lemma BackBroken(r: Req, accs: seq<Access>, a: Access) returns (p: Phase)
    requires r.Valid() && EndsBroken(r, accs + [a])
    ensures Stands(r, accs, p) && Next(r, p, a) == Some(Failed(EIO))
  {
    hide WordDue;
    hide Carries;
    hide Raised;
    var all, k := accs + [a], |accs|;
    assert all[k] == a;
    if Opened(r, all, k) && k < Span(r) + 4 && Due(r, all, k) {
      OpenedGrows(r, accs, a, k);
      p := OpeningPhase(r, accs);
      OpeningDue(r, accs, p, a);
    } else if Polls(r, all, k) && a.Rd? && a.reg == 0xda00 {
      PollsGrow(r, accs, a, k);
      p := Looking(r, accs);
    } else {
      var b: seq<byte> :| && Collecting(r, all, b, 1) && (b == [] || (Sized(b) && |b| < U16(b, 2)))
                          && a.Rd? && a.reg == 0xd900 + |b| / 4;
      CollectingGrows(r, accs, a, b, 0);
      p := Fetching(r, accs, b);
    }
  }

  lemma BackTaken(r: Req, accs: seq<Access>, a: Access, b: seq<byte>) returns (p: Phase)
    requires r.Valid() && Taken(r, accs + [a], b)
    ensures Stands(r, accs, p) && |b| >= U16(b, 2)
    ensures Next(r, p, a) == Some(if Matching(b) then Done(OK, b[0], b[4..U16(b, 2) - 2]) else Failed(ECRC))
  {
    hide Collecting;
    hide Checksum;
    CollectingGrows(r, accs, a, b, 0);
    JudgedBy(b);
    p := Clear(b);
  }

  lemma BackDone(r: Req, accs: seq<Access>, a: Access, st: Status, cmd: byte, resp: seq<byte>) returns (p: Phase)
    requires r.Valid() && Ended(r, accs + [a], st, cmd, resp)
    ensures Stands(r, accs, p) && Next(r, p, a) == Some(Done(st, cmd, resp))
  {
    hide Collecting;
    hide Matching;
    hide Opened;
    hide EndsBroken;
    var all := accs + [a];
    assert all[|accs|] == a;
    if st == 0 {
      var b: seq<byte> :| Taken(r, all, b) && Matching(b) && cmd == b[0] && resp == b[4..U16(b, 2) - 2];
      p := BackTaken(r, accs, a, b);
    } else if st == 6 {
      var b: seq<byte> :| Taken(r, all, b) && !Matching(b);
      p := BackTaken(r, accs, a, b);
    } else if st == 1 {
      var b: seq<byte> :| |b| == 4 && !Sized(b) && Collecting(r, all, b, 1) && Clears(a, 0x200_0000);
      CollectingGrows(r, accs, a, b, 0);
      p := Reject;
    } else if st == 4 {
      PollsGrow(r, accs, a, |accs|);
      p := Looking(r, accs);
    } else if st == 3 {
      p := Check;
    } else {
      p := BackBroken(r, accs, a);
    }
  }

  lemma Previous(r: Req, accs: seq<Access>, a: Access, p': Phase) returns (p: Phase)
    requires r.Valid() && Stands(r, accs + [a], p')
    ensures Stands(r, accs, p) && Next(r, p, a) == Some(p')
  {
    hide Next;
    hide Collecting;
    hide Opened;
    hide Polls;
    hide Ended;
    if Opens(p') {
      p := BackOpening(r, accs, a, p');
    } else if p'.Wait? || p'.Head? {
      p := BackPoll(r, accs, a, p');
    } else if p'.Done? {
      p := BackDone(r, accs, a, p'.st, p'.cmd, p'.resp);
    } else if p'.Reject? {
      var b: seq<byte> :| |b| == 4 && !Sized(b) && Collecting(r, accs + [a], b, 0);
      p := BackWord(r, accs, a, b, p');
    } else {
      p := BackWord(r, accs, a, p'.got, p');
    }
  }

  lemma {:induction false} RunStands(r: Req, accs: seq<Access>, p: Phase)
    requires r.Valid()
    ensures Run(r, accs) == Some(p) <==> Stands(r, accs, p)
    decreases |accs|
  {
    hide Next;
    hide Stands;
    if accs == [] {
      OnlyCheck(r, p);
    } else {
      var k := |accs| - 1;
      var before, a := accs[..k], accs[k];
      assert accs == before + [a];
      if Run(r, accs) == Some(p) {
        var q := Run(r, before).value;
        RunStands(r, before, q);
        StandsStep(r, before, q, a);
      }
      if Stands(r, accs, p) {
        var q := Previous(r, before, a, p);
        RunStands(r, before, q);
      }
    }
  }

  lemma OnlyCheck(r: Req, p: Phase)
    ensures Stands(r, [], p) <==> p == Check
  {
  }

  /** The protocol ends in exactly the ways read off the accesses: for every sequence of accesses,
      every status, command and payload. */
  lemma TransactionExact(r: Req, accs: seq<Access>, st: Status, cmd: byte, resp: seq<byte>)
    requires r.Valid()
    ensures Run(r, accs) == Some(Done(st, cmd, resp)) <==> Ended(r, accs, st, cmd, resp)
  {
    hide Run;
    hide Ended;
    RunStands(r, accs, Done(st, cmd, resp));
  }
}
