// The op log ring behind TRACE and the read ring behind the rmw-race warning, each against the
// unbounded history of register ops it samples.

module OpLog {
  import opened Bytes
  import opened Wire

  const TRACE_RING := 1024
  const TRACE_TAIL_MAX := 64
  const TRACE_LINE_MAX := 64
  const RD_RING_COUNT := 16
  const RMW_WINDOW_US := 10_000
  const WRAP := 0x1_0000_0000 // the ring counters are 32 bits wide

  const U64 := 0x1_0000_0000_0000_0000

  type u64 = x: int | 0 <= x < U64

  datatype Entry = Entry(ts: u64, cid: u32, op: Op)

  // --- Text ----------------------------------------------------------------------------------

  const NEWLINE: byte := 10
  const BLANK: byte := 32

  /** %llu and %u */
  function Dec(n: nat): (s: seq<byte>) {
    if n < 10 then [48 + n] else Dec(n / 10) + [48 + n % 10]
  }

  function Pow10(k: nat): nat { if k == 0 then 1 else 10 * Pow10(k - 1) }

  lemma {:induction false} DecLength(n: nat, k: nat)
    requires k > 0 && n < Pow10(k)
    ensures |Dec(n)| <= k
    decreases k
  {
    assert Pow10(1) == 10 * Pow10(0);
    if n >= 10 { DecLength(n / 10, k - 1); }
  }

  function HexDigit(d: nat): byte
    requires d < 16
  {
    if d < 10 then 48 + d else 87 + d
  }

  /** %0kx of a number that fits k digits */
  function Hex(n: nat, k: nat): (s: seq<byte>)
    ensures |s| == k
  {
    if k == 0 then [] else Hex(n / 16, k - 1) + [HexDigit(n % 16)]
  }

  function Line(e: Entry): seq<byte> {
    Dec(e.ts) + [BLANK, 99] + Dec(e.cid) + [BLANK, if e.op.write then 87 else 82, BLANK] + Dec(e.op.slice) + [BLANK]
    + Hex(e.op.mmd, 2) + [BLANK] + Hex(e.op.reg, 4) + [BLANK] + Hex(e.op.val, 8) + [NEWLINE]
  }

  lemma PowersOfTen()
    ensures Pow10(3) == 1000 && Pow10(10) == 10_000_000_000 && Pow10(20) == 100_000_000_000_000_000_000
  {
    assert Pow10(5) == 100 * Pow10(3);
    assert Pow10(8) == 1000 * Pow10(5);
    assert Pow10(10) == 100 * Pow10(8);
    assert Pow10(13) == 1000 * Pow10(10);
    assert Pow10(16) == 1000 * Pow10(13);
    assert Pow10(18) == 100 * Pow10(16);
    assert Pow10(20) == 100 * Pow10(18);
  }

  lemma LineLength(e: Entry)
    ensures |Line(e)| <= 57
  {
    PowersOfTen();
    DecLength(e.ts, 20);
    DecLength(e.cid, 10);
    DecLength(e.op.slice, 3);
  }

  function Lines(es: seq<Entry>): seq<byte> {
    if es == [] then [] else Lines(es[..|es| - 1]) + Line(es[|es| - 1])
  }

  function LastOnes<T>(h: seq<T>, n: nat): seq<T> {
    if n <= |h| then h[|h| - n..] else h
  }

  // --- The rings and what they sample --------------------------------------------------------

  /** A register read by a client; cid 0 once a warning has used it up. */
  datatype Rd = Rd(slice: byte, mmd: byte, reg: u16, cid: u32, ts: nat)

  datatype Rings = Rings(ring: seq<Entry>, w: nat, rd: seq<Rd>, rdW: nat, warns: nat)

  /** A successful op of a client. */
  datatype Use = Use(op: Op, cid: u32, now: nat)

  /** Every op recorded, every read noted with used-up ones marked, and every successful op, oldest
      first. */
  datatype Hist = Hist(ops: seq<Entry>, got: seq<Rd>, uses: seq<Use>)

  /** An op that reached the device, as `exec_op` leaves it, the client id it is recorded under and
      the one it is linted under; they differ for a claim's cleanup ops. */
  datatype Try = Try(op: Op, ok: bool, logged: u32, cid: u32)

  const NO_OP := Op(0, false, 0, 0, 0)

  function NoRings(): Rings {
    Rings(seq(TRACE_RING, i => Entry(0, 0, NO_OP)), 0, seq(RD_RING_COUNT, i => Rd(0, 0, 0, 0, 0)), 0, 0)
  }

  ghost predicate TraceOk(ring: seq<Entry>, w: nat, ops: seq<Entry>) {
    && |ring| == TRACE_RING && w == |ops| % WRAP
    && forall i :: 0 <= i < |ops| && |ops| - TRACE_RING <= i ==> ring[i % TRACE_RING] == ops[i]
  }

  ghost predicate ReadsOk(rd: seq<Rd>, w: nat, got: seq<Rd>) {
    && |rd| == RD_RING_COUNT && w == |got| % WRAP
    && (forall i :: 0 <= i < |got| && |got| - RD_RING_COUNT <= i ==> rd[i % RD_RING_COUNT] == got[i])
    && (forall p :: |got| <= p < RD_RING_COUNT ==> rd[p].cid == 0)
  }

  function Successes(tried: seq<Try>): seq<Try> {
    if tried == [] then []
    else
      var t := tried[|tried| - 1];
      Successes(tried[..|tried| - 1]) + if t.ok then [t] else []
  }

  predicate SameReg(r: Rd, op: Op) { r.slice == op.slice && r.mmd == op.mmd && r.reg == op.reg }

  /** The history is that of the ops tried, op by op and client by client. */
  ghost predicate Tells(h: Hist, tried: seq<Try>) {
    && |h.ops| == |tried|
    && (forall i :: 0 <= i < |tried| ==> h.ops[i].op == tried[i].op && h.ops[i].cid == tried[i].logged)
    && |h.uses| == |Successes(tried)|
    && (forall i :: 0 <= i < |h.uses| ==>
          h.uses[i].op == Successes(tried)[i].op && h.uses[i].cid == Successes(tried)[i].cid)
  }

  /** The rings sample the history, and linting it led to the reads and warnings. */
  ghost predicate InRings(r: Rings, h: Hist, tried: seq<Try>) {
    && TraceOk(r.ring, r.w, h.ops) && ReadsOk(r.rd, r.rdW, h.got)
    && Lints(h.uses, h.got, r.warns) && Tells(h, tried)
  }

  // --- The op log ----------------------------------------------------------------------------

  /** `trace_add` */
  method TraceAdd(ring: seq<Entry>, w: nat, e: Entry, ghost ops: seq<Entry>) returns (ring': seq<Entry>, w': nat)
    requires TraceOk(ring, w, ops)
    ensures TraceOk(ring', w', ops + [e])
  {
    WrapKeepsSlot(|ops|);
    ring' := ring[w % TRACE_RING := e];
    w' := (w + 1) % WRAP;
    forall i | 0 <= i <= |ops| && |ops| + 1 - TRACE_RING <= i ensures ring'[i % TRACE_RING] == (ops + [e])[i] {
      SameSlot(i, |ops|);
    }
    NextWrap(|ops|);
  }

  /** The text of a TRACE answer: the last 64 ops by the 32-bit counter, none cut off by the size
      of the buffer. */
  method Text(ring: seq<Entry>, w: nat, ghost ops: seq<Entry>) returns (txt: seq<byte>)
    requires TraceOk(ring, w, ops)
    ensures txt == Lines(LastOnes(ops, Min(TRACE_TAIL_MAX, |ops| % WRAP))) && |txt| <= MSG_MAX
  {
    hide Line;
    hide Lines;
    TraceSize(ring, w, ops);
    hide TraceOk;
    var start := if w > TRACE_TAIL_MAX then w - TRACE_TAIL_MAX else 0;
    var i := start;
    txt := [];
    ghost var tail := ops[|ops| - (w - start)..];
    LinesSnoc(tail, 0);
    while i < w && |txt| < MSG_MAX - TRACE_LINE_MAX
      invariant start <= i <= w && txt == Lines(tail[..i - start]) && |txt| <= 57 * (i - start)
    {
      Recorded(ring, w, ops, w - i);
      LinesSnoc(tail, i - start);
      LineLength(tail[i - start]);
      txt := txt + Line(ring[i % TRACE_RING]);
      i := i + 1;
    }
    assert tail[..w - start] == tail;
  }

  lemma TraceSize(ring: seq<Entry>, w: nat, ops: seq<Entry>)
    requires TraceOk(ring, w, ops)
    ensures |ring| == TRACE_RING && w == |ops| % WRAP <= |ops|
  {
  }

  /** The op recorded k ops ago is still in the ring. */
  lemma Recorded(ring: seq<Entry>, w: nat, ops: seq<Entry>, k: nat)
    requires TraceOk(ring, w, ops) && 0 < k <= w && k <= TRACE_RING
    ensures k <= |ops| && ring[(w - k) % TRACE_RING] == ops[|ops| - k]
  {
    WrapSlot(|ops|, k);
  }

  lemma LinesSnoc(es: seq<Entry>, j: nat)
    ensures j == 0 ==> Lines(es[..0]) == []
    ensures j < |es| ==> Lines(es[..j + 1]) == Lines(es[..j]) + Line(es[j])
  {
    if j < |es| { assert es[..j + 1][..j] == es[..j]; }
  }

  lemma SameSlot(i: nat, j: nat)
    ensures i < j < i + TRACE_RING ==> i % TRACE_RING != j % TRACE_RING
  {
  }

  lemma WrapKeepsSlot(n: nat)
    ensures n % WRAP % TRACE_RING == n % TRACE_RING
  {
    var q := n / WRAP;
    assert n == WRAP * q + n % WRAP;
    assert WRAP * q == TRACE_RING * (0x40_0000 * q);
  }

  lemma NextWrap(n: nat)
    ensures (n % WRAP + 1) % WRAP == (n + 1) % WRAP
  {
  }

  lemma WrapSlot(n: nat, k: nat)
    requires k <= n % WRAP
    ensures (n % WRAP - k) % TRACE_RING == (n - k) % TRACE_RING
  {
    WrapKeepsSlot(n - k);
    assert (n - k) % WRAP == n % WRAP - k;
  }

  /** Before the counter wraps, the lines of a TRACE answer are the last 64 ops tried, or all. */
  lemma TraceTells(h: Hist, tried: seq<Try>)
    requires Tells(h, tried) && |tried| < WRAP
    ensures var n, es := Min(TRACE_TAIL_MAX, |tried|), LastOnes(h.ops, Min(TRACE_TAIL_MAX, |h.ops| % WRAP));
            |es| == n && forall i :: 0 <= i < n ==> es[i].op == tried[|tried| - n + i].op
  {
    assert |h.ops| % WRAP == |h.ops|;
  }

  /** TRACE shows the last min(64, n) of n recorded ops exactly until the counter wraps, and again
      whenever at least 64, or all, of them came after the last wrap. */
  lemma TailComplete(hist: seq<Entry>)
    ensures LastOnes(hist, Min(TRACE_TAIL_MAX, |hist| % WRAP)) == LastOnes(hist, Min(TRACE_TAIL_MAX, |hist|))
       <==> |hist| < WRAP || |hist| % WRAP >= TRACE_TAIL_MAX
  {
    var a, b := Min(TRACE_TAIL_MAX, |hist| % WRAP), Min(TRACE_TAIL_MAX, |hist|);
    assert |LastOnes(hist, a)| == a && |LastOnes(hist, b)| == b;
  }

  // --- The read ring -------------------------------------------------------------------------

  /** A write of op by cid at now comes within 10 ms of another client's read of the register. */
  predicate Races(r: Rd, op: Op, cid: u32, now: nat) {
    r.cid != 0 && r.cid != cid && SameReg(r, op) && 0 <= now - r.ts < RMW_WINDOW_US
  }

  /** One of the last 16 reads. */
  predicate Recent(got: seq<Rd>, i: int) { 0 <= i < |got| && |got| - RD_RING_COUNT <= i }

  /** A successful op leaves the reads and the number of warnings like this: a read is added; a
      write warns once, and uses up one read, exactly when it races one of the last 16. */
  ghost predicate Linted(got: seq<Rd>, warns: nat, got': seq<Rd>, warns': nat, op: Op, cid: u32, now: nat) {
    if !op.write then got' == got + [Rd(op.slice, op.mmd, op.reg, cid, now)] && warns' == warns
    else if exists i :: Recent(got, i) && Races(got[i], op, cid, now) then
      warns' == warns + 1
      && exists i :: Recent(got, i) && Races(got[i], op, cid, now) && got' == got[i := got[i].(cid := 0)]
    else got' == got && warns' == warns
  }

  method NoteRead(rd: seq<Rd>, w: nat, r: Rd, ghost got: seq<Rd>) returns (rd': seq<Rd>, w': nat)
    requires ReadsOk(rd, w, got)
    ensures ReadsOk(rd', w', got + [r])
  {
    var p := w % RD_RING_COUNT;
    ReadSlot(|got|, 0);
    rd' := rd[p := r];
    w' := (w + 1) % WRAP;
    NextWrap(|got|);
    ghost var got' := got + [r];
    forall i | 0 <= i < |got'| && |got'| - RD_RING_COUNT <= i ensures rd'[i % RD_RING_COUNT] == got'[i] {
      if i < |got| {
        OtherSlot(i, |got|);
        assert rd[i % RD_RING_COUNT] == got[i];
      }
    }
    forall q | |got'| <= q < RD_RING_COUNT ensures rd'[q].cid == 0 {
      assert p == |got|;
    }
  }

  lemma OtherSlot(i: nat, n: nat)
    requires i < n < i + RD_RING_COUNT
    ensures i % RD_RING_COUNT != n % RD_RING_COUNT
  {
  }

  /** Where position p of the ring came from; negative: nowhere. */
  ghost function Origin(rd: seq<Rd>, w: nat, got: seq<Rd>, p: nat): (i: int)
    requires ReadsOk(rd, w, got) && p < RD_RING_COUNT
    ensures i < |got| && |got| - RD_RING_COUNT <= i
    ensures if i < 0 then rd[p].cid == 0 else i % RD_RING_COUNT == p && rd[p] == got[i]
  {
    var n := |got|;
    if p >= n then p - RD_RING_COUNT
    else
      OriginSlot(n, p);
      n - 1 - (n - 1 - p) % RD_RING_COUNT
  }

  lemma UseUp(rd: seq<Rd>, w: nat, got: seq<Rd>, p: nat, i: nat)
    requires ReadsOk(rd, w, got) && p < RD_RING_COUNT && Recent(got, i) && i % RD_RING_COUNT == p
    ensures ReadsOk(rd[p := rd[p].(cid := 0)], w, got[i := got[i].(cid := 0)])
  {
    var rd', got' := rd[p := rd[p].(cid := 0)], got[i := got[i].(cid := 0)];
    forall j | Recent(got, j) ensures rd'[j % RD_RING_COUNT] == got'[j] {
      assert rd[j % RD_RING_COUNT] == got[j];
      if j < i { OtherSlot(j, i); } else if i < j { OtherSlot(i, j); }
    }
  }

  method NoteWrite(rd: seq<Rd>, w: nat, op: Op, cid: u32, now: nat, ghost got: seq<Rd>)
    returns (rd': seq<Rd>, warned: bool, ghost used: int)
    requires ReadsOk(rd, w, got)
    ensures !warned ==> rd' == rd && forall i :: Recent(got, i) ==> !Races(got[i], op, cid, now)
    ensures warned ==> Recent(got, used) && Races(got[used], op, cid, now)
                       && ReadsOk(rd', w, got[used := got[used].(cid := 0)])
  {
    var p := 0;
    rd', used := rd, -1;
    while p < RD_RING_COUNT && !Races(rd[p], op, cid, now)
      invariant p <= RD_RING_COUNT && forall j :: 0 <= j < p ==> !Races(rd[j], op, cid, now)
    {
      p := p + 1;
    }
    warned := p < RD_RING_COUNT;
    if warned {
      used := Origin(rd, w, got, p);
      rd' := rd[p := rd[p].(cid := 0)];
      UseUp(rd, w, got, p, used);
    } else {
      forall i | Recent(got, i) ensures !Races(got[i], op, cid, now) {
        assert rd[i % RD_RING_COUNT] == got[i];
      }
    }
  }

  /** The rmw part of `lint_op`. */
  method Lint(r: Rings, op: Op, cid: u32, now: nat, ghost got: seq<Rd>) returns (r': Rings, ghost got': seq<Rd>)
    requires ReadsOk(r.rd, r.rdW, got)
    ensures ReadsOk(r'.rd, r'.rdW, got') && r'.ring == r.ring && r'.w == r.w
    ensures Linted(got, r.warns, got', r'.warns, op, cid, now)
  {
    hide ReadsOk;
    if op.write {
      var rd, warned, used := NoteWrite(r.rd, r.rdW, op, cid, now, got);
      r' := r.(rd := rd, warns := if warned then r.warns + 1 else r.warns);
      got' := if warned then got[used := got[used].(cid := 0)] else got;
    } else {
      var e := Rd(op.slice, op.mmd, op.reg, cid, now);
      var rd, w := NoteRead(r.rd, r.rdW, e, got);
      r' := r.(rd := rd, rdW := w);
      got' := got + [e];
    }
  }

  // --- The warning and its comment -----------------------------------------------------------

  /** Linting the ops of h in order leads to these reads and warnings. */
  ghost predicate Lints(h: seq<Use>, got: seq<Rd>, warns: nat) {
    if h == [] then got == [] && warns == 0
    else
      var u := h[|h| - 1];
      exists g, w :: Lints(h[..|h| - 1], g, w) && Linted(g, w, got, warns, u.op, u.cid, u.now)
  }

  lemma LintOne(h: seq<Use>, u: Use, g: seq<Rd>, w: nat, got: seq<Rd>, warns: nat)
    requires Lints(h, g, w) && Linted(g, w, got, warns, u.op, u.cid, u.now)
    ensures Lints(h + [u], got, warns)
  {
    var all := h + [u];
    assert all[..|all| - 1] == h && all[|all| - 1] == u;
    assert Lints(all[..|all| - 1], g, w) && Linted(g, w, got, warns, all[|all| - 1].op, u.cid, u.now);
  }

  function ReadsOf(h: seq<Use>): seq<Rd> {
    if h == [] then []
    else
      var u := h[|h| - 1];
      ReadsOf(h[..|h| - 1]) + if u.op.write then [] else [RdOf(u)]
  }

  function RdOf(u: Use): Rd { Rd(u.op.slice, u.op.mmd, u.op.reg, u.cid, u.now) }

  /** Every read is there, unless a warning has used it up. */
  lemma {:induction false} AllReads(h: seq<Use>, got: seq<Rd>, warns: nat)
    requires Lints(h, got, warns)
    ensures |got| == |ReadsOf(h)|
    ensures forall i :: 0 <= i < |got| && got[i].cid != 0 ==> got[i] == ReadsOf(h)[i]
  {
    if h != [] {
      var u := h[|h| - 1];
      var g, w :| Lints(h[..|h| - 1], g, w) && Linted(g, w, got, warns, u.op, u.cid, u.now);
      AllReads(h[..|h| - 1], g, w);
    }
  }

  /** Which read of h op j is. */
  function ReadNumber(h: seq<Use>, j: nat): nat
    requires j <= |h|
  {
    |ReadsOf(h[..j])|
  }

  lemma {:induction false} NthRead(h: seq<Use>, j: nat)
    requires j < |h| && !h[j].op.write
    ensures ReadNumber(h, j) < |ReadsOf(h)| && ReadsOf(h)[ReadNumber(h, j)] == RdOf(h[j])
    decreases |h|
  {
    var n := |h| - 1;
    if j < n {
      NthRead(h[..n], j);
      assert h[..n][..j] == h[..j];
    }
  }

  lemma {:induction false} ReadFrom(h: seq<Use>, i: nat) returns (j: nat)
    requires i < |ReadsOf(h)|
    ensures j < |h| && !h[j].op.write && ReadNumber(h, j) == i
  {
    var n := |h| - 1;
    if i < |ReadsOf(h[..n])| {
      j := ReadFrom(h[..n], i);
      assert h[..n][..j] == h[..j];
    } else {
      j := n;
    }
  }

  predicate SameOp(a: Op, b: Op) { a.slice == b.slice && a.mmd == b.mmd && a.reg == b.reg }

  /** Another client's read of the register, under 10 ms old when cid writes it. */
  predicate Foreign(u: Use, op: Op, cid: u32, now: nat) {
    !u.op.write && u.cid != 0 && u.cid != cid && SameOp(u.op, op) && 0 <= now - u.now < 10_000
  }

  /** The client of read j has written the register back since. */
  ghost predicate WrittenBack(h: seq<Use>, j: nat)
    requires j < |h|
  {
    exists m :: j < m < |h| && h[m].op.write && h[m].cid == h[j].cid && SameOp(h[m].op, h[j].op)
  }

  /** Op j is one of the last 16 reads, and no warning has used it up. */
  predicate Available(h: seq<Use>, got: seq<Rd>, j: nat)
    requires j < |h|
  {
    !h[j].op.write && |got| - 16 <= ReadNumber(h, j) < |got| && got[ReadNumber(h, j)].cid != 0
  }

  ghost predicate SomeAvailable(h: seq<Use>, got: seq<Rd>, op: Op, cid: u32, now: nat) {
    exists j :: 0 <= j < |h| && Available(h, got, j) && Foreign(h[j], op, cid, now)
  }

  /** When the comment wants a warning: such a read that has not been written back yet. */
  ghost predicate Commented(h: seq<Use>, op: Op, cid: u32, now: nat) {
    exists j :: 0 <= j < |h| && Foreign(h[j], op, cid, now) && !WrittenBack(h, j)
  }

  ghost predicate SomeRace(got: seq<Rd>, op: Op, cid: u32, now: nat) {
    exists i :: Recent(got, i) && Races(got[i], op, cid, now)
  }

  lemma AvailableRaces(h: seq<Use>, got: seq<Rd>, warns: nat, op: Op, cid: u32, now: nat)
    requires Lints(h, got, warns)
    ensures SomeRace(got, op, cid, now) <==> SomeAvailable(h, got, op, cid, now)
  {
    hide Lints;
    hide ReadNumber;
    AllReads(h, got, warns);
    if SomeRace(got, op, cid, now) {
      var i :| Recent(got, i) && Races(got[i], op, cid, now);
      var j := ReadFrom(h, i);
      NthRead(h, j);
      assert Available(h, got, j) && Foreign(h[j], op, cid, now);
    }
    if SomeAvailable(h, got, op, cid, now) {
      var j :| 0 <= j < |h| && Available(h, got, j) && Foreign(h[j], op, cid, now);
      NthRead(h, j);
      assert Recent(got, ReadNumber(h, j)) && Races(got[ReadNumber(h, j)], op, cid, now);
    }
  }

  /** After any ops h, a successful write warns exactly when another client's read of the register
      is available and under 10 ms old. It warns although the comment does not ask for it exactly
      when, besides, every such read has been written back; and it stays silent although the comment
      asks for it exactly when a read not written back is no longer available. */
  lemma WarningExact(h: seq<Use>, got: seq<Rd>, warns: nat, op: Op, cid: u32, now: nat, got': seq<Rd>, warns': nat)
    requires Lints(h, got, warns) && op.write && Linted(got, warns, got', warns', op, cid, now)
    ensures warns' == warns + if SomeAvailable(h, got, op, cid, now) then 1 else 0
    ensures warns' > warns && !Commented(h, op, cid, now)
       <==> SomeAvailable(h, got, op, cid, now)
            && forall j :: 0 <= j < |h| && Foreign(h[j], op, cid, now) ==> WrittenBack(h, j)
    ensures warns' == warns && Commented(h, op, cid, now)
       <==> !SomeAvailable(h, got, op, cid, now)
            && exists j :: 0 <= j < |h| && Foreign(h[j], op, cid, now) && !WrittenBack(h, j) && !Available(h, got, j)
  {
    hide Lints;
    hide Available;
    hide Foreign;
    hide WrittenBack;
    AvailableRaces(h, got, warns, op, cid, now);
  }

  /** A read by one client, its own successful write-back, and a write by another within 10 ms: the
      code warns, and the comment does not ask for it. */
  lemma OwnWriteBackWarns(rd: Op, back: Op, op: Op, a: u32, b: u32, t: nat, t1: nat, t2: nat)
    requires !rd.write && back.write && op.write && SameOp(rd, back) && SameOp(rd, op)
    requires a != 0 && a != b && t <= t2 < t + RMW_WINDOW_US
    ensures var h := [Use(rd, a, t), Use(back, a, t1)];
            var got := [Rd(rd.slice, rd.mmd, rd.reg, a, t)];
            && Lints(h, got, 0) && !Commented(h, op, b, t2)
            && forall got', w :: Linted(got, 0, got', w, op, b, t2) ==> w == 1
  {
    var h := [Use(rd, a, t), Use(back, a, t1)];
    var got := [Rd(rd.slice, rd.mmd, rd.reg, a, t)];
    assert h == [] + [Use(rd, a, t)] + [Use(back, a, t1)];
    LintOne([], Use(rd, a, t), [], 0, got, 0);
    LintOne([] + [Use(rd, a, t)], Use(back, a, t1), got, 0, got, 0);
    assert WrittenBack(h, 0) by { assert h[1].op.write && h[1].cid == h[0].cid && SameOp(h[1].op, h[0].op); }
    assert Recent(got, 0) && Races(got[0], op, b, t2);
  }

  /** An op that reached the device is recorded, and linted if it succeeded. */
  ghost predicate Noted(h: Hist, warns: nat, h': Hist, warns': nat, t: Try, now: nat) {
    && h'.ops == h.ops + [Entry(now % U64, t.logged, t.op)]
    && if t.ok then
         h'.uses == h.uses + [Use(t.op, t.cid, now)] && Linted(h.got, warns, h'.got, warns', t.op, t.cid, now)
       else h'.uses == h.uses && h'.got == h.got && warns' == warns
  }

  /** The end of `exec_op`. */
  method Note(r: Rings, t: Try, now: nat, ghost h: Hist, ghost tried: seq<Try>) returns (r': Rings, ghost h': Hist)
    requires InRings(r, h, tried)
    ensures InRings(r', h', tried + [t]) && Noted(h, r.warns, h', r'.warns, t, now)
  {
    hide TraceOk;
    hide ReadsOk;
    hide Linted;
    hide Lints;
    hide Tells;
    var e := Entry(now % U64, t.logged, t.op);
    var ring, w := TraceAdd(r.ring, r.w, e, h.ops);
    r', h' := r.(ring := ring, w := w), h.(ops := h.ops + [e]);
    if t.ok {
      ghost var got;
      r', got := Lint(r', t.op, t.cid, now, h.got);
      LintOne(h.uses, Use(t.op, t.cid, now), h.got, r.warns, got, r'.warns);
      h' := h'.(got := got, uses := h.uses + [Use(t.op, t.cid, now)]);
    }
    TellsNext(h, h', r.warns, r'.warns, tried, t, now);
  }

  lemma TellsNext(h: Hist, h': Hist, warns: nat, warns': nat, tried: seq<Try>, t: Try, now: nat)
    requires Tells(h, tried) && Noted(h, warns, h', warns', t, now)
    ensures Tells(h', tried + [t])
  {
    assert (tried + [t])[..|tried|] == tried;
  }

  lemma ReadSlot(n: nat, k: nat)
    requires k <= n % WRAP
    ensures (n % WRAP - k) % RD_RING_COUNT == (n - k) % RD_RING_COUNT
  {
    WrapSlot(n, k);
    Mod1024(n % WRAP - k);
    Mod1024(n - k);
  }

  lemma Mod1024(n: nat)
    ensures n % TRACE_RING % RD_RING_COUNT == n % RD_RING_COUNT
  {
  }

  lemma OriginSlot(n: nat, p: nat)
    requires p < n && p < RD_RING_COUNT
    ensures var i := n - 1 - (n - 1 - p) % RD_RING_COUNT;
            0 <= i < n && n - RD_RING_COUNT <= i && i % RD_RING_COUNT == p
  {
  }
}
