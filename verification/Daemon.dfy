// The daemon in place: one mutable object, the pool of linked items, a re-entrant scheduler. Every
// method extends a ghost log of events; Books says that the log is a run of the state machine and
// that the fields show the state it leads to.

module Daemon {
  import opened Bytes
  import opened Wire
  import opened Machine
  import opened Effects
  import opened Invariants
  import opened ItemPool
  import opened Responses
  import opened ClaimRuns
  import opened Inflight
  import MB = Mailbox
  import OL = OpLog
  import Crc
  import Layout
  import TraceText

  const RST_ASSERT_US := 10_000
  const RST_DEASSERT_US := 100_000

  function AssertUs(b: seq<byte>): nat
    requires |b| == RESET_LEN
  {
    if Get32(b, 0) != 0 then Get32(b, 0) else RST_ASSERT_US
  }

  function DeassertUs(b: seq<byte>): nat
    requires |b| == RESET_LEN
  {
    if Get32(b, 4) != 0 then Get32(b, 4) else RST_DEASSERT_US
  }

  // --- What handlers promise beyond the run --------------------------------------------------

  /** How long a MAILBOX asks to wait, in milliseconds: four bytes at offset 4, 0 meaning 500. */
  function Patience(b: seq<byte>): nat
    requires |b| >= 8
  {
    if Layout.U32(b, 4) != 0 then Layout.U32(b, 4) else 500
  }

  /** It gives up only after that time, and looks at the flag no more than once a millisecond. */
  predicate Patient(b: seq<byte>, status: Status, polls: nat, t0: nat, t1: nat) {
    |b| >= 8 ==> polls <= Patience(b) + 2 && (status == 4 ==> t1 > t0 + 1000 * Patience(b))
  }

  /** A RESET holds the line and waits for as long as it asks, 0 meaning 10 and 100 milliseconds. */
  predicate Pulsed(b: seq<byte>, status: Status, t0: nat, t1: nat) {
    |b| == 8 && status == 0 ==>
      t1 >= t0 + (if Layout.U32(b, 0) != 0 then Layout.U32(b, 0) else 10_000)
               + (if Layout.U32(b, 4) != 0 then Layout.U32(b, 4) else 100_000)
  }

  /** The text tells the last 64 ops by the 32-bit counter. */
  predicate Traced(h: OL.Hist, text: seq<byte>) {
    TraceText.Tells(text, OL.LastOnes(h.ops, Min(64, |h.ops| % 0x1_0000_0000)))
  }

  /** The client on the slot has n more ops to its name. */
  predicate Counted(a: seq<Slot>, b: seq<Slot>, slot: nat, n: nat) {
    if n == 0 then b == a else slot < |a| && b == a[slot := a[slot].(nOps := a[slot].nOps + n)]
  }

  /** The log ends with the answer to the item, and, by type: the ops attempted were counted, a
      mailbox was as patient as asked, TRACE told the ops, RESET took its time. n counts the ops, or
      the looks at the flag. */
  predicate Promise(it: Item, log: seq<Event>, n: nat, t0: nat, t1: nat, h: OL.Hist, cl: seq<Slot>, cl': seq<Slot>) {
    && log != [] && log[|log| - 1].Reply? && log[|log| - 1].uid == it.uid
    && var Reply(_, _, _, status, body) := log[|log| - 1];
       && (it.hdr.typ in {1, 2, 3} ==> Counted(cl, cl', it.slot, n))
       && (it.hdr.typ == 6 ==> Patient(it.body, status, n, t0, t1))
       && (it.hdr.typ == 8 ==> Traced(h, body))
       && (it.hdr.typ == 12 ==> Pulsed(it.body, status, t0, t1))
  }

  lemma PulsedBy(b: seq<byte>, t0: nat, t1: nat)
    requires |b| == RESET_LEN && t1 >= t0 + AssertUs(b) + DeassertUs(b)
    ensures Pulsed(b, OK, t0, t1)
  {
  }

  lemma PatientBy(b: seq<byte>, timeout: u32, status: Status, polls: nat, t0: nat, t1: nat)
    requires |b| >= MB_LEN && timeout == if Get32(b, 4) != 0 then Get32(b, 4) else MB.MB_TIMEOUT_MS
    requires polls <= timeout + 2 && (status == ETIMEDOUT ==> t1 > t0 + 1000 * timeout)
    ensures Patient(b, status, polls, t0, t1)
  {
  }

  lemma NoneCounted(a: seq<Slot>, slot: nat)
    ensures Counted(a, a, slot, 0)
  {
  }

  lemma AtOnce(b: seq<byte>, status: Status, t0: nat, t1: nat)
    requires status !in {OK, ETIMEDOUT}
    ensures Patient(b, status, 0, t0, t1) && Pulsed(b, status, t0, t1)
  {
  }

  /** The holder, if there is one, is within the max_ms of its last granted CLAIM. */
  ghost predicate InTime(log: seq<Event>, now: nat) {
    Holder(log).Some? ==>
      var b := Holder(log).value.body; |b| >= 4 && now <= GrantTime(log) + 1000 * Layout.U32(b, 0)
  }

  /** Whatever is queued waits for another client's claim to end: it is register or mailbox traffic, or
      of type 0, and not the holder's. */
  ghost predicate AllHeldBack(s: State) {
    forall q, i :: 0 <= q < 3 && 0 <= i < |s.queues[q]| ==>
      && s.claim.Some? && s.queues[q][i].slot != s.claim.value.slot
      && s.queues[q][i].hdr.typ in {0, 1, 2, 3, 6}
  }

  lemma HeldBackExactly(s: State)
    ensures AllHeldBack(s) <==> FirstQueue(s.queues, s.Owner()) == 3
  {
    if FirstQueue(s.queues, s.Owner()) == 3 {
      forall q, i | 0 <= q < 3 && 0 <= i < |s.queues[q]| ensures !Eligible(s.Owner(), s.queues[q][i]) {
        assert FirstIn(s.queues[q], s.Owner()) == |s.queues[q]|;
      }
    }
  }

  /** Whenever nothing executes and all that is queued is held back, every datagram whose client did
      not hang up after sending it has been answered exactly once, unless it is register or mailbox
      traffic, or of type 0, of another client than the holder. */
  lemma AnsweredByNow(hasReset: bool, log: seq<Event>, st: State, u: nat)
    requires OnTrack(hasReset, log, st) && st.Idle() && AllHeldBack(st) && u < |log| && log[u].Receive?
    requires forall h :: u < h < |log| ==> log[h] != Hangup(log[u].slot)
    requires var m := log[u].msg;
             |m| < 12 || m[1] !in {0, 1, 2, 3, 6} || Holder(log).None? || Holder(log).value.slot == log[u].slot
    ensures Replies(log, u) == 1
  {
    hide Run;
    hide Holder;
    Conservation(hasReset, log, u);
    Provenance(hasReset, log);
    Readings(hasReset, log);
    if Purges(log, u) > 0 {
      var h := PurgedAfterHangup(hasReset, log, u);
    }
    if InQueues(st.queues, u) > 0 {
      var k, i := QueuedAt(st, log, u);
    }
  }

  /** One answer of the world: time that passed, whether a transfer went through, what it read. */
  datatype Input = Input(dt: nat, ok: bool, val: u32, text: seq<byte>)

  datatype Slot = Slot(used: bool, id: nat, nOps: nat)

  lemma TrackInv(hasReset: bool, log: seq<Event>, st: State)
    requires OnTrack(hasReset, log, st)
    ensures Inv(st) && st.t == |log| && st.hasReset == hasReset
  {
    Always(hasReset, log);
    TimeIs(hasReset, log);
  }

  lemma ResetLine(hasReset: bool, log: seq<Event>, st: State)
    requires OnTrack(hasReset, log, st)
    ensures st.hasReset == hasReset
  {
    TimeIs(hasReset, log);
  }

  /** The executing items are those of the frames. */
  ghost predicate SameItems(running: seq<Item>, stack: seq<Frame>) {
    |running| == |stack| && forall i :: 0 <= i < |stack| ==> running[i] == stack[i].item
  }

  ghost predicate ClientsShow(cl: seq<Slot>, clients: map<nat, nat>) {
    && |cl| == MAX_CLIENTS
    && (forall k :: k in clients <==> 0 <= k < MAX_CLIENTS && cl[k].used)
    && (forall k :: 0 <= k < MAX_CLIENTS && cl[k].used ==> clients[k] == cl[k].id)
  }

  ghost predicate ClaimShows(owner: Option<nat>, deadline: nat, cleanup: seq<Op>, claim: Option<Claimed>) {
    if owner.None? then claim.None?
    else claim.Some? && claim.value.slot == owner.value && claim.value.deadline == deadline
         && claim.value.cleanup == cleanup
  }

  /** What executing the innermost item leaves alone. */
  ghost predicate Kept(a: State, b: State) {
    && b.clients == a.clients && b.nextCid == a.nextCid && b.hasReset == a.hasReset
    && b.inbox == a.inbox && b.ending == a.ending && b.leaving == a.leaving
    && |b.stack| == |a.stack| && (forall i :: 0 <= i < |a.stack| - 1 ==> b.stack[i] == a.stack[i])
    && (a.stack != [] ==> b.Top().item == a.Top().item)
    && Queued(b.queues) <= Queued(a.queues)
  }

  /** An event that neither touches the device nor sends a datagram. */
  predicate Unseen(e: Event) { !e.Access? && !e.Cleanup? && !e.Mb? && !e.Reply? }

  /** Whose op comes next in a run: the innermost item's client, or, for a cleanup op, the holder. */
  function UserOf(log: seq<Event>, own: bool): nat {
    if own then if Holder(log).Some? then Holder(log).value.cid else 0
    else if Executing(log) != [] then Last(Executing(log)).cid else 0
  }

  function TryOf(op: Op, res: Result, own: bool, cid: nat): seq<OL.Try> {
    if res.Refused? then []
    else [OL.Try(if !op.write && res.Done? then op.(val := res.val) else op, res.Done?,
                 if own then 0 else cid % OL.WRAP, cid % OL.WRAP)]
  }

  function TriesOf(log: seq<Event>, e: Event): seq<OL.Try> {
    match e
    case Access(op, res) => TryOf(op, res, false, UserOf(log, false))
    case Cleanup(op, res) => TryOf(op, res, true, UserOf(log, true))
    case _ => []
  }

  /** The register ops of a run that reached the device, without the mailbox's own accesses. */
  function Tried(log: seq<Event>): seq<OL.Try> {
    if log == [] then [] else Tried(log[..|log| - 1]) + TriesOf(log[..|log| - 1], log[|log| - 1])
  }

  /** The transfers made, the datagrams sent and the ops recorded are those of the run. */
  ghost predicate Deeds(log: seq<Event>, bus: seq<Xfer>, sent: seq<Mail>, rings: OL.Rings, hist: OL.Hist) {
    bus == OnBus(log) && sent == Sent(log) && OL.InRings(rings, hist, Tried(log))
  }

  lemma DeedsGrow(log: seq<Event>, e: Event, bus: seq<Xfer>, sent: seq<Mail>, rings: OL.Rings, hist: OL.Hist)
    requires Deeds(log, bus, sent, rings, hist)
    ensures !e.Access? && !e.Cleanup? ==> Deeds(log + [e], bus + XferOf(e), sent + MailOf(e), rings, hist)
    ensures Unseen(e) ==> Deeds(log + [e], bus, sent, rings, hist)
  {
    WorldGrows(log, e);
    assert (log + [e])[..|log|] == log;
    assert TriesOf(log, e) == [] ==> Tried(log) + TriesOf(log, e) == Tried(log);
    assert XferOf(e) == [] ==> bus + XferOf(e) == bus;
    assert MailOf(e) == [] ==> sent + MailOf(e) == sent;
  }

  lemma DeedsOfOp(log: seq<Event>, e: Event, bus: seq<Xfer>, sent: seq<Mail>, rings: OL.Rings, hist: OL.Hist)
    requires (e.Access? || e.Cleanup?) && bus == OnBus(log) + XferOf(e) && sent == Sent(log)
    requires OL.InRings(rings, hist, Tried(log) + TriesOf(log, e))
    ensures Deeds(log + [e], bus, sent, rings, hist)
  {
    hide OL.InRings;
    WorldGrows(log, e);
    assert (log + [e])[..|log|] == log;
    assert sent + MailOf(e) == sent;
  }

  // --- Arrivals ------------------------------------------------------------------------------

  /** The world's side of the main loop: a new connection, or a datagram, empty if the client hung up. */
  datatype External = Connects | Sends(slot: nat, msg: seq<byte>)

  predicate Outside(e: Event) { e.Connect? || e.Receive? || e.Hangup? }

  /** The items a run has started, and the events the world brought about. */
  datatype Tallies = Tallies(starts: nat, arrived: seq<Event>)

  function Tally(log: seq<Event>): Tallies {
    if log == [] then Tallies(0, [])
    else
      var t, e := Tally(log[..|log| - 1]), log[|log| - 1];
      if e.Start? then t.(starts := t.starts + 1) else if Outside(e) then t.(arrived := t.arrived + [e]) else t
  }

  function Starts(log: seq<Event>): nat { Tally(log).starts }

  function Arrived(log: seq<Event>): seq<Event> { Tally(log).arrived }

  lemma TallyGrows(log: seq<Event>, e: Event)
    ensures Starts(log + [e]) == Starts(log) + if e.Start? then 1 else 0
    ensures Arrived(log + [e]) == if Outside(e) then Arrived(log) + [e] else Arrived(log)
  {
    assert (log + [e])[..|log|] == log;
  }

  /** The lowest slot from k on that is not used. */
  function FreeSlot(clients: map<nat, nat>, k: nat): nat
    decreases MAX_CLIENTS - k
  {
    if k >= MAX_CLIENTS || k !in clients then k else FreeSlot(clients, k + 1)
  }

  lemma {:induction false} FreeSlotIs(clients: map<nat, nat>, k: nat, i: nat)
    requires k <= i <= MAX_CLIENTS && (i < MAX_CLIENTS ==> i !in clients) && forall j :: k <= j < i ==> j in clients
    ensures FreeSlot(clients, k) == i
    decreases i - k
  {
    if k < i { FreeSlotIs(clients, k + 1, i); }
  }

  /** What recv makes of a datagram. */
  function Clipped(msg: seq<byte>): seq<byte> {
    if |msg| <= HDR_LEN + MSG_MAX then msg else msg[..HDR_LEN + MSG_MAX]
  }

  /** How one action of the world enters the run. */
  function Arrival(clients: map<nat, nat>, x: External): Option<Event> {
    match x
    case Connects => if FreeSlot(clients, 0) < MAX_CLIENTS then Some(Connect(FreeSlot(clients, 0))) else None
    case Sends(slot, msg) =>
      if slot !in clients then None else Some(if msg == [] then Hangup(slot) else Receive(slot, Clipped(msg)))
  }

  /** A request framed by the protocol enters the run byte for byte if its client is connected; of any
      longer datagram as many bytes as the longest request has. */
  lemma FramedArrives(clients: map<nat, nat>, slot: nat, msg: seq<byte>)
    requires slot in clients && msg != []
    ensures Layout.Framed(msg) ==> Arrival(clients, Sends(slot, msg)) == Some(Receive(slot, msg))
    ensures |msg| > 4108 ==> Arrival(clients, Sends(slot, msg)) == Some(Receive(slot, msg[..4108]))
  {
  }

  /** A connection takes the lowest of 16 slots that is free, and is turned away if none is. */
  lemma LowestSlot(clients: map<nat, nat>, k: nat)
    ensures Arrival(clients, Connects) == Some(Connect(k))
       <==> k < 16 && k !in clients && forall j :: 0 <= j < k ==> j in clients
    ensures Arrival(clients, Connects).None? <==> forall j :: 0 <= j < 16 ==> j in clients
  {
    var i := 0;
    while i < MAX_CLIENTS && i in clients
      invariant i <= MAX_CLIENTS && forall j :: 0 <= j < i ==> j in clients
    {
      i := i + 1;
    }
    FreeSlotIs(clients, 0, i);
  }

  function Listed<T>(o: Option<T>): seq<T> { if o.Some? then [o.value] else [] }

  function ClientsAfter(clients: map<nat, nat>, next: nat, x: External): map<nat, nat> {
    match Arrival(clients, x)
    case Some(Connect(slot)) => clients[slot := next + 1]
    case Some(Hangup(slot)) => clients - {slot}
    case _ => clients
  }

  function NextAfter(clients: map<nat, nat>, next: nat, x: External): nat {
    match Arrival(clients, x)
    case Some(Connect(_)) => next + 1
    case _ => next
  }

  function Arrivals(clients: map<nat, nat>, next: nat, xs: seq<External>): seq<Event>
    decreases xs
  {
    if xs == [] then []
    else Listed(Arrival(clients, xs[0]))
         + Arrivals(ClientsAfter(clients, next, xs[0]), NextAfter(clients, next, xs[0]), xs[1..])
  }

  function Flat<T>(xss: seq<seq<T>>): seq<T> {
    if xss == [] then [] else xss[0] + Flat(xss[1..])
  }

  /** The log grew by itself, and nothing was started. */
  ghost predicate Grew(a: seq<Event>, b: seq<Event>) {
    a <= b && Starts(b) == Starts(a) && Arrived(b) == Arrived(a)
  }

  /** The log grew by itself, and every item started came off the queues, to which none was added. */
  ghost predicate Tallied(a: seq<Event>, sa: State, b: seq<Event>, sb: State) {
    a <= b && Starts(b) + Queued(sb.queues) == Starts(a) + Queued(sa.queues) && Arrived(b) == Arrived(a)
  }

  /** One queued item, and nothing else, has been started. */
  ghost predicate Started(a: State, b: State, la: seq<Event>, lb: seq<Event>) {
    && b == a.(t := b.t, queues := b.queues, stack := b.stack)
    && |b.stack| == |a.stack| + 1 && b.stack[..|a.stack|] == a.stack
    && b.Top().phase == Begin(b.Top().item, b.Owner(), b.hasReset)
    && Queued(b.queues) == Queued(a.queues) - 1 && Tallied(la, a, lb, b)
  }

  /** The log grew by n register ops and nothing else. */
  ghost predicate Attempted(a: seq<Event>, b: seq<Event>, n: nat) {
    a <= b && |b| == |a| + n && forall k :: |a| <= k < |b| ==> b[k].Access?
  }

  /** A moment of the run: machine, pool, log and clock. */
  datatype Mark = Mark(s: State, p: Snap, log: seq<Event>, now: nat)

  /** Between two moments: the frames below the innermost, the first n executing nodes and the
      clients are untouched, and every item started came off the queues. */
  ghost predicate Went(a: Mark, b: Mark, n: int) {
    Kept(a.s, b.s) && SameHeld(a.p, b.p, n) && Tallied(a.log, a.s, b.log, b.s) && a.now <= b.now
  }

  lemma WentTrans(a: Mark, b: Mark, c: Mark, n: int)
    requires Went(a, b, n) && Went(b, c, n)
    ensures Went(a, c, n)
  {
    hide Tally;
  }

  lemma NothingYet(hasReset: bool)
    ensures OnTrack(hasReset, [], Init(hasReset))
    ensures Deeds([], [], [], OL.NoRings(), OL.Hist([], [], []))
  {
  }

  class Proxy {
    const pool: Pool
    const env: nat -> Input
    const hasReset: bool
    var tick: nat
    var now: nat
    var cl: seq<Slot>
    var nextCid: nat
    var owner: Option<nat>
    var deadline: nat
    var cleanup: seq<Op>
    var inflight: bool
    var rings: OL.Rings
    ghost var log: seq<Event>
    ghost var st: State
    ghost var bus: seq<Xfer>   // transfers made
    ghost var sent: seq<Mail>  // datagrams sent
    ghost var hist: OL.Hist    // register ops recorded

    constructor (env: nat -> Input, hasReset: bool)
      ensures Valid() && st.Idle() && log == [] && fresh(pool) && fresh(pool.next) && fresh(pool.node)
    {
      pool := new Pool();
      this.env, this.hasReset := env, hasReset;
      tick, now, nextCid, owner, deadline, cleanup, inflight := 0, 0, 0, None, 0, [], false;
      cl := seq(MAX_CLIENTS, i => Slot(false, 0, 0));
      rings := OL.NoRings();
      log, st, bus, sent, hist := [], Init(hasReset), [], [], OL.Hist([], [], []);
      new;
      hide Deeds;
      hide OnTrack;
      hide pool.Valid;
      NothingYet(hasReset);
    }

    /** Everything but the in-flight flag, which the mailbox code sets a moment later: the log is
        a run, the fields show its state, and what was done to the device and sent to the clients
        is what the run says. */
    ghost predicate Books()
      reads this`log, this`st, this`cl, this`nextCid, this`owner, this`deadline, this`cleanup
      reads this`bus, this`sent, this`rings, this`hist
      reads pool, pool.next, pool.node
    {
      Ledger() && Deeds(log, bus, sent, rings, hist)
    }

    ghost predicate Ledger()
      reads this`log, this`st, this`cl, this`nextCid, this`owner, this`deadline, this`cleanup
      reads pool, pool.next, pool.node
    {
      && OnTrack(hasReset, log, st)
      && pool.Valid() && pool.s.queues == st.queues && SameItems(pool.s.running, st.stack)
      && ClientsShow(cl, st.clients) && nextCid == st.nextCid
      && ClaimShows(owner, deadline, cleanup, st.claim)
    }

    ghost predicate Valid()
      reads this`log, this`st, this`cl, this`nextCid, this`owner, this`deadline, this`cleanup
      reads this`bus, this`sent, this`rings, this`hist, this`inflight
      reads pool, pool.next, pool.node
    {
      Books() && inflight == st.inflight
    }

    ghost function Here(): Mark
      reads this, pool
    {
      Mark(st, pool.s, log, now)
    }

    /** it is the innermost executing item. */
    ghost predicate Innermost(it: int)
      reads this, pool
    {
      st.stack != [] && |pool.s.lists| == 5 && it == LastOf(pool.s.lists[RUNNING])
    }

    ghost method Emit(e: Event)
      requires OnTrack(hasReset, log, st) && Apply(st, e).Some?
      modifies this`log, this`st
      ensures OnTrack(hasReset, log, st) && log == old(log) + [e]
      ensures st == Apply(old(st), e).value.(t := old(st).t + 1)
      ensures Starts(log) == Starts(old(log)) + (if e.Start? then 1 else 0)
      ensures Arrived(log) == if Outside(e) then Arrived(old(log)) + [e] else Arrived(old(log))
      ensures Unseen(e) && Deeds(old(log), bus, sent, rings, hist) ==> Deeds(log, bus, sent, rings, hist)
    {
      hide Apply;
      hide Deeds;
      hide OnTrack;
      hide Starts;
      hide Arrived;
      if Deeds(log, bus, sent, rings, hist) { DeedsGrow(log, e, bus, sent, rings, hist); }
      TallyGrows(log, e);
      OneStep(hasReset, log, st, e);
      st := Apply(st, e).value.(t := st.t + 1);
      log := log + [e];
    }

    /** The world answers, and time passes. */
    method World() returns (i: Input)
      modifies this`tick, this`now
      ensures now >= old(now)
    {
      i := env(tick);
      tick := tick + 1;
      now := now + i.dt;
    }

    /** `spi_write_reg` */
    method SpiWrite(slice: byte, mmd: byte, reg: u16, val: u32) returns (ok: bool)
      modifies this`tick, this`now, this`bus
      ensures now >= old(now) && bus == old(bus) + [Write(slice, mmd, reg, val, ok)]
    {
      var i := World();
      ok := i.ok;
      bus := bus + [Write(slice, mmd, reg, val, ok)];
    }

    /** `spi_read_reg` */
    method SpiRead(slice: byte, mmd: byte, reg: u16) returns (ok: bool, val: u32)
      modifies this`tick, this`now, this`bus
      ensures now >= old(now) && bus == old(bus) + [Read(slice, mmd, reg, if ok then Some(val) else None)]
    {
      var i := World();
      ok, val := i.ok, i.val;
      bus := bus + [Read(slice, mmd, reg, if ok then Some(val) else None)];
    }

    /** `send`, whether or not the client reads it. */
    method Send(slot: nat, d: seq<byte>)
      modifies this`sent
      ensures sent == old(sent) + [ToClient(slot, d)]
    {
      sent := sent + [ToClient(slot, d)];
    }

    /** `usleep` */
    method Sleep(us: nat)
      modifies this`tick, this`now
      ensures now >= old(now) + us
    {
      var i := World();
      now := now + us;
    }

    // --- Answers -----------------------------------------------------------------------------

    /** What a handler leaves behind: the item answered, everything below it untouched. */
    twostate predicate Handled(it: int)
      reads this, pool, pool.next, pool.node
    {
      && Valid() && Innermost(it) && st.Top().phase.Answered?
      && Went(old(Here()), Here(), |st.stack| - 1)
    }

    /** The last event is the answer to the item. */
    ghost predicate Replied(it: Item)
      reads this`log
    {
      log != [] && log[|log| - 1].Reply? && log[|log| - 1].uid == it.uid
    }

    /** The datagram `send_resp` hands to the socket. */
    method Datagram(h: Hdr, status: Status, body: seq<byte>) returns (d: seq<byte>)
      requires |body| <= MSG_MAX
      ensures d == Response(h, status, body)
    {
      var msg := new byte[HDR_LEN + MSG_MAX];
      var n := SendResp(h, status, body, msg);
      d := msg[..n];
    }

    /** `send_resp` for an executing item. */
    method Answer(it: int, status: Status, body: seq<byte>)
      requires Valid() && Innermost(it) && st.Quiet() && MayAnswer(st.Top(), status, body)
      modifies this`log, this`st, this`sent
      ensures Valid() && st == old(st).WithTop(Answered).(t := old(st).t + 1)
      ensures log == old(log) + [Reply(st.Top().item.uid, st.Top().item.slot, st.Top().item.hdr, status, body)]
      ensures Grew(old(log), log)
    {
      hide OnTrack;
      hide Apply;
      hide Tally;
      hide Deeds;
      hide pool.Valid;
      hide MayAnswer;
      hide Response;
      AnswerFits(hasReset, log, st, status, body);
      ReplyEffect(st, status, body);
      pool.InnermostNode();
      var d := Datagram(pool.node[it].hdr, status, body);
      Send(pool.node[it].slot, d);
      ghost var e := Reply(st.Top().item.uid, st.Top().item.slot, st.Top().item.hdr, status, body);
      DeedsGrow(log, e, bus, old(sent), rings, hist);
      assert bus + XferOf(e) == bus;
      Emit(e);
    }

    // --- Register ops ------------------------------------------------------------------------

    /** `exec_op`; own: called for a claim's cleanup list, which is recorded under no client. */
    method ExecOp(op: Op, own: bool, cid: nat) returns (res: Result)
      requires Deeds(log, bus, sent, rings, hist) && cid == UserOf(log, own)
      modifies this`tick, this`now, this`bus, this`rings, this`hist
      ensures Legal(op, inflight, own, res) && now >= old(now) && bus == old(bus) + OpXfer(op, res)
      ensures Deeds(log + [if own then Cleanup(op, res) else Access(op, res)], bus, sent, rings, hist)
      ensures if res.Refused? then rings == old(rings) && hist == old(hist)
              else OL.Noted(old(hist), old(rings).warns, hist, rings.warns, TryOf(op, res, own, cid)[0], now)
      ensures op.write && res.Done? ==>
                rings.warns == old(rings).warns
                  + if OL.SomeAvailable(old(hist).uses, old(hist).got, op, cid % OL.WRAP, now) then 1 else 0
    {
      hide OpXfer;
      hide Tried;
      hide OnBus;
      hide OL.Lints;
      hide OL.Linted;
      hide OL.TraceOk;
      hide OL.ReadsOk;
      hide OL.Tells;
      hide OL.SomeAvailable;
      res := Transfer(op, own);
      ghost var e := if own then Cleanup(op, res) else Access(op, res);
      if res.Refused? {
        assert bus == OnBus(log) + XferOf(e) && Tried(log) + TriesOf(log, e) == Tried(log);
      } else {
        var op' := if !op.write && res.Done? then op.(val := res.val) else op;
        var t := OL.Try(op', res.Done?, if own then 0 else cid % OL.WRAP, cid % OL.WRAP);
        rings, hist := OL.Note(rings, t, now, hist, Tried(log));
        if op.write && res.Done? {
          OL.WarningExact(old(hist).uses, old(hist).got, old(rings).warns, op, cid % OL.WRAP, now,
                          hist.got, rings.warns);
        }
      }
      DeedsOfOp(log, e, bus, sent, rings, hist);
    }

    /** The checks of `exec_op` and the transfer. */
    method Transfer(op: Op, own: bool) returns (res: Result)
      modifies this`tick, this`now, this`bus
      ensures Legal(op, inflight, own, res) && now >= old(now) && bus == old(bus) + OpXfer(op, res)
    {
      if op.slice >= MB.SLICE_COUNT {
        return Refused(EINVAL);
      }
      if inflight && op.mmd == MMD_GLOBAL && MB.MB_GUARD_LO <= op.reg <= MB.MB_GUARD_HI && !own {
        return Refused(EBUSY);
      }
      if op.write {
        var ok := SpiWrite(op.slice, op.mmd, op.reg, op.val);
        res := if ok then Machine.Done(op.val) else Machine.Failed;
      } else {
        var ok, v := SpiRead(op.slice, op.mmd, op.reg);
        res := if ok then Machine.Done(v) else Machine.Failed;
      }
    }

    method ClientId(it: int) returns (cid: nat)
      requires Valid() && Innermost(it)
      ensures cid == st.Top().item.cid
    {
      hide Deeds;
      pool.InnermostNode();
      ClientOf(hasReset, log, st);
      cid := cl[pool.node[it].slot].id;
    }

    ghost predicate NextOp(i: nat, op: Op)
      reads this
    {
      && st.stack != [] && st.Quiet() && st.Top().phase.Ops? && i < Count(st.Top().item)
      && var Ops(n, status, body) := st.Top().phase;
         n == i && status == OK && OP_LEN * (i + 1) <= |body| && op == OpAt(body, i)
    }

    /** The op has met the device; the run says so. */
    ghost method NoteAccess(i: nat, op: Op, res: Result)
      requires Ledger() && Deeds(log + [Access(op, res)], bus, sent, rings, hist) && inflight == st.inflight
      requires NextOp(i, op) && Legal(op, inflight, false, res)
      modifies this`log, this`st
      ensures Valid() && Grew(old(log), log) && log == old(log) + [Access(op, res)]
      ensures st == old(st).WithTop(OpsAfter(old(st).Top().phase, op, res)).(t := old(st).t + 1)
    {
      hide OpAt;
      hide pool.Valid;
      hide Deeds;
      hide Tally;
      hide OnTrack;
      hide Apply;
      hide ClientsShow;
      hide SameItems;
      hide Count;
      hide OpsAfter;
      hide OpXfer;
      hide TryOf;
      AccessEffect(st, op, res);
      StillRunning(pool.s.running, st, OpsAfter(st.Top().phase, op, res));
      Emit(Access(op, res));
    }

    /** An op of the innermost item meets the device, recorded under its client's id. */
    method TryOp(it: int, i: nat, op: Op) returns (res: Result)
      requires Valid() && Innermost(it) && NextOp(i, op)
      modifies this`tick, this`now, this`bus, this`rings, this`hist, this`log, this`st
      ensures Valid() && Grew(old(log), log) && old(now) <= now && log == old(log) + [Access(op, res)]
      ensures st == old(st).WithTop(OpsAfter(old(st).Top().phase, op, res)).(t := old(st).t + 1)
      ensures !res.Refused? ==>
                OL.Noted(old(hist), old(rings).warns, hist, rings.warns,
                         TryOf(op, res, false, st.Top().item.cid)[0], now)
    {
      hide OnTrack;
      hide Apply;
      hide pool.Valid;
      hide Deeds;
      hide Tally;
      hide Count;
      hide OpAt;
      hide Legal;
      hide OpsAfter;
      hide OpXfer;
      var cid := ClientId(it);
      UserIs(hasReset, log, st);
      res := ExecOp(op, false, cid);
      NoteAccess(i, op, res);
    }

    /** One op of a READ, WRITE or BATCH, its result stored in the item's body. */
    method OneOp(it: int, i: nat, ghost body: seq<byte>) returns (status: Status, ghost body': seq<byte>)
      requires Valid() && Innermost(it) && st.Quiet() && 0 <= it < pool.node.Length
      requires st.Top().phase == Ops(i, OK, body) && pool.node[it].body == body && OP_LEN * (i + 1) <= |body|
      requires i < Count(st.Top().item)
      modifies this, pool`s, pool.node
      ensures Valid() && Innermost(it) && st.Quiet()
      ensures st == old(st).WithTop(Ops(i + 1, status, body')).(t := old(st).t + 1)
      ensures |body'| == |body| && pool.node[it].body == body' && Grew(old(log), log) && old(now) <= now
      ensures Attempted(old(log), log, 1) && cl == old(cl)
      ensures SameHeld(old(pool.s), pool.s, |st.stack| - 1) && pool.s.lists == old(pool.s.lists)
    {
      hide Apply;
      hide Tally;
      hide Deeds;
      hide OL.Noted;
      hide pool.Valid;
      hide OpAt;
      var op := OpAt(pool.node[it].body, i);
      var res := TryOp(it, i, op);
      body' := OpsAfter(Ops(i, OK, body), op, res).body;
      if !op.write && res.Done? {
        pool.SetBody(it, WithVal(pool.node[it].body, i, res.val));
      }
      status := res.Status();
    }

    /** The ops in order until one is refused or fails; i of them attempted. */
    method RunOps(it: int) returns (status: Status, i: nat)
      requires Valid() && Innermost(it) && st.Quiet() && 0 <= it < pool.node.Length
      requires OpsOk(st.Top().item, 0, OK, pool.node[it].body) && Count(st.Top().item) > 0
      requires st.Top().phase == Ops(0, OK, pool.node[it].body)
      modifies this, pool`s, pool.node
      ensures Valid() && Innermost(it) && st.Quiet() && Went(old(Here()), Here(), |st.stack| - 1)
      ensures MayAnswer(st.Top(), status, pool.node[it].body)
      ensures 1 <= i <= Count(old(st).Top().item) && Attempted(old(log), log, i) && cl == old(cl)
    {
      hide OnTrack;
      hide Deeds;
      hide pool.Valid;
      ghost var n := Count(st.Top().item);
      ghost var body := pool.node[it].body;
      var total := |pool.node[it].body| / OP_LEN;
      i, status := 0, OK;
      while i < total && status == OK
        invariant i <= total == n && |body| == OP_LEN * n && (i == 0 ==> status == OK)
        invariant Valid() && Innermost(it) && st.Quiet() && Kept(old(st), st) && st.queues == old(st).queues
        invariant st.Top().phase == Ops(i, status, body) && pool.node[it].body == body
        invariant SameHeld(old(pool.s), pool.s, |st.stack| - 1) && pool.s.lists == old(pool.s.lists)
        invariant Grew(old(log), log) && old(now) <= now && Attempted(old(log), log, i) && cl == old(cl)
      {
        status, body := OneOp(it, i, body);
        i := i + 1;
      }
    }

    /** READ, WRITE and BATCH: n ops attempted, the client's n_ops raised by n, and the answer. */
    method ExecOps(it: int) returns (ghost n: nat)
      requires Valid() && Innermost(it) && st.Quiet() && 0 <= it < pool.node.Length
      requires OpsOk(st.Top().item, 0, OK, pool.node[it].body) && Count(st.Top().item) > 0
      requires st.Top().phase == Ops(0, OK, pool.node[it].body)
      modifies this, pool`s, pool.node
      ensures Handled(it) && Replied(old(st).Top().item) && Attempted(old(log), log[..|log| - 1], n)
      ensures n >= 1 && Counted(old(cl), cl, old(st).Top().item.slot, n)
    {
      hide Books;
      hide SameItems;
      hide OnTrack;
      hide Tally;
      hide Deeds;
      hide pool.Valid;
      var status, i := RunOps(it);
      n := i;
      CountOps(it, i);
      Answer(it, status, pool.node[it].body);
      assert log[..|log| - 1] + [log[|log| - 1]] == log;
    }

    /** `c->n_ops += n` */
    method CountOps(it: int, n: nat)
      requires Valid() && Innermost(it)
      modifies this`cl
      ensures Valid()
      ensures var slot := st.Top().item.slot;
              slot < |old(cl)| && cl == old(cl)[slot := old(cl)[slot].(nOps := old(cl)[slot].nOps + n)]
    {
      hide OnTrack;
      hide Deeds;
      pool.InnermostNode();
      ClientOf(hasReset, log, st);
      var slot := pool.node[it].slot;
      cl := cl[slot := cl[slot].(nOps := cl[slot].nOps + n)];
    }

    // --- Control messages --------------------------------------------------------------------

    /** The end of the CLAIM handler: the lease is granted or renewed. */
    method GrantClaim(it: int)
      requires Valid() && Innermost(it) && Asks(st, CLAIM) && 0 <= it < pool.node.Length
      requires ClaimOk(pool.node[it].body) && |pool.node[it].body| >= 4 && pool.node[it].body == st.Top().item.body
      modifies this
      ensures Handled(it) && Replied(old(st).Top().item)
    {
      hide Deeds;
      hide pool.Valid;
      pool.InnermostNode();
      TakeLease(pool.node[it].slot, pool.node[it].body);
      Answer(it, OK, []);
    }

    method TakeLease(slot: nat, b: seq<byte>)
      requires Valid() && Asks(st, CLAIM) && ClaimOk(b) && |b| >= 4
      requires b == st.Top().item.body && slot == st.Top().item.slot
      modifies this
      ensures Valid() && Grew(old(log), log) && old(now) <= now
      ensures st == old(st).WithTop(Ready(OK, [])).(t := st.t, claim := st.claim)
      ensures owner == Some(slot) && deadline == now + 1000 * Get32(b, 0)
    {
      hide OnTrack;
      hide Tally;
      hide Deeds;
      hide Apply;
      hide pool.Valid;
      hide CleanupOps;
      hide ClaimOk;
      hide Get32;
      var i := World();
      GrantEffect(st, now);
      owner, deadline, cleanup := Some(slot), now + 1000 * Get32(b, 0), CleanupOps(b);
      Emit(Grant(now));
    }

    /** RELEASE by the owner: `claim_end(0)` runs no cleanup. */
    method ReleaseClaim(it: int)
      requires Valid() && Innermost(it) && Asks(st, RELEASE)
      modifies this
      ensures Handled(it) && Replied(old(st).Top().item) && owner == None && st.claim == None
    {
      hide pool.Valid;
      hide Tally;
      hide OnTrack;
      hide Deeds;
      GiveBackLease();
      Answer(it, OK, []);
    }

    method GiveBackLease()
      requires Valid() && Asks(st, RELEASE)
      modifies this
      ensures Valid() && Grew(old(log), log) && now == old(now)
      ensures st == old(st).WithTop(Ready(OK, [])).(t := st.t, claim := None)
    {
      hide ClientsShow;
      hide Apply;
      hide OnTrack;
      hide Tally;
      hide Deeds;
      hide pool.Valid;
      ReleaseEffect(st);
      owner, deadline, cleanup := None, 0, [];
      Emit(Release);
    }

    /** RESET with a reset line: the guard is dropped and the line pulsed, for the times asked for
        or the defaults. */
    method PulseReset(it: int)
      requires Valid() && Innermost(it) && Asks(st, RESET) && 0 <= it < pool.node.Length
      requires |pool.node[it].body| == RESET_LEN
      modifies this
      ensures Handled(it) && Replied(old(st).Top().item) && log[|log| - 1].status == OK && !inflight
      ensures Pulsed(pool.node[it].body, OK, old(now), now)
    {
      hide pool.Valid;
      hide Tally;
      hide OnTrack;
      hide Deeds;
      hide Pulsed;
      Pulse(pool.node[it].body);
      Answer(it, OK, []);
    }

    method Pulse(b: seq<byte>)
      requires Valid() && Asks(st, RESET) && |b| == RESET_LEN
      modifies this
      ensures Valid() && Grew(old(log), log) && Pulsed(b, OK, old(now), now) && old(now) <= now
      ensures st == old(st).WithTop(Ready(OK, [])).(t := st.t, inflight := false)
    {
      hide ClientsShow;
      hide ClaimShows;
      hide OnTrack;
      hide Tally;
      hide Deeds;
      hide Apply;
      hide pool.Valid;
      hide AssertUs;
      hide DeassertUs;
      hide Pulsed;
      ResetEffect(st);
      inflight := false;
      Emit(Reset);
      Sleep(AssertUs(b));
      Sleep(DeassertUs(b));
      PulsedBy(b, old(now), now);
    }

    /** STATS: some text that fits a message. */
    method Report(it: int)
      requires Valid() && Innermost(it) && st.Quiet() && st.Top().phase.Text?
      modifies this
      ensures Handled(it) && Replied(old(st).Top().item)
    {
      hide Deeds;
      hide pool.Valid;
      var i := World();
      Answer(it, OK, if |i.text| <= MSG_MAX then i.text else i.text[..MSG_MAX]);
    }

    /** TRACE: the last ops of the history, which tells those of the run. */
    method ReportOps(it: int)
      requires Valid() && Innermost(it) && st.Quiet() && st.Top().phase.Text?
      modifies this
      ensures Handled(it) && hist == old(hist) && OL.Tells(hist, Tried(log))
      ensures var item := st.Top().item;
              log == old(log) + [Reply(item.uid, item.slot, item.hdr, OK, OL.Lines(
                OL.LastOnes(hist.ops, Min(OL.TRACE_TAIL_MAX, |hist.ops| % OL.WRAP))))]
      ensures Traced(hist, log[|log| - 1].body)
    {
      hide ClientsShow;
      hide Apply;
      hide Sent;
      hide pool.Valid;
      hide OL.TraceOk;
      hide OL.Tells;
      hide OL.Lines;
      var txt := OL.Text(rings.ring, rings.w, hist.ops);
      TraceText.LinesTell(OL.LastOnes(hist.ops, Min(OL.TRACE_TAIL_MAX, |hist.ops| % OL.WRAP)));
      Answer(it, OK, txt);
    }

    // --- Mailbox register access -------------------------------------------------------------

    /** The innermost item of base is now at phase p of its transaction; nothing else moved. */
    ghost predicate Phased(base: State, req: MB.Req, p: MB.Phase)
      reads this
    {
      base.stack != [] && base.Quiet() && req.Valid() && st == MailAt(base, st.t, req, p, st.inflight)
    }

    ghost method NoteMb(a: MB.Access, base: State, req: MB.Req, p: MB.Phase) returns (p': MB.Phase)
      requires Ledger() && Deeds(log + [Mb(req.slice, a)], bus, sent, rings, hist)
      requires Phased(base, req, p) && MB.Next(req, p, a).Some?
      modifies this`log, this`st
      ensures Books() && Phased(base, req, p') && Some(p') == MB.Next(req, p, a)
      ensures st.inflight == Flag(p, p', old(st.inflight))
      ensures log == old(log) + [Mb(req.slice, a)] && Grew(old(log), log)
    {
      hide Flag;
      hide MB.Next;
      hide Starts;
      hide ClientsShow;
      hide OnTrack;
      hide Tally;
      hide Deeds;
      hide Apply;
      hide pool.Valid;
      hide MailAt;
      p' := MB.Next(req, p, a).value;
      ghost var fl := Flag(p, p', st.inflight);
      MailTwice(base, st.t, req, p, st.inflight, st.t + 1, p', fl);
      MbEffect(st, req, p, a);
      MailKeeps(st, st.t + 1, req, p', fl, pool.s.running);
      Emit(Mb(req.slice, a));
      MailTwice(base, st.t, req, p', fl, st.t, p', fl);
    }

    /** `mb_rd` */
    method MbRd(slice: byte, reg: u16, ghost base: State, ghost req: MB.Req, ghost p: MB.Phase)
      returns (ok: bool, v: u32, ghost p': MB.Phase)
      requires Books() && Phased(base, req, p) && slice == req.slice
      requires forall g :: MB.Next(req, p, MB.Rd(reg, g)).Some?
      modifies this`tick, this`now, this`log, this`st, this`bus
      ensures Books() && Phased(base, req, p')
      ensures Some(p') == MB.Next(req, p, MB.Rd(reg, if ok then Some(v) else None))
      ensures st.inflight == Flag(p, p', old(st.inflight)) && Grew(old(log), log) && old(now) <= now
    {
      hide Deeds;
      hide pool.Valid;
      hide MB.Next;
      ok, v := SpiRead(slice, MMD_GLOBAL, reg);
      ghost var a := MB.Rd(reg, if ok then Some(v) else None);
      DeedsGrow(log, Mb(slice, a), old(bus), sent, rings, hist);
      assert sent + MailOf(Mb(slice, a)) == sent;
      p' := NoteMb(a, base, req, p);
    }

    /** `mb_wr` */
    method MbWr(slice: byte, reg: u16, v: u32, ghost base: State, ghost req: MB.Req, ghost p: MB.Phase)
      returns (ok: bool, ghost p': MB.Phase)
      requires Books() && Phased(base, req, p) && slice == req.slice
      requires MB.Next(req, p, MB.Wr(reg, v, true)).Some? && MB.Next(req, p, MB.Wr(reg, v, false)).Some?
      modifies this`tick, this`now, this`log, this`st, this`bus
      ensures Books() && Phased(base, req, p')
      ensures Some(p') == MB.Next(req, p, MB.Wr(reg, v, ok))
      ensures st.inflight == Flag(p, p', old(st.inflight)) && Grew(old(log), log) && old(now) <= now
    {
      hide OnTrack;
      hide Deeds;
      hide pool.Valid;
      ok := SpiWrite(slice, MMD_GLOBAL, reg, v);
      ghost var a := MB.Wr(reg, v, ok);
      DeedsGrow(log, Mb(slice, a), old(bus), sent, rings, hist);
      assert sent + MailOf(Mb(slice, a)) == sent;
      p' := NoteMb(a, base, req, p);
    }

    // --- The mailbox transaction -------------------------------------------------------------

    /** The request words, little-endian, the last padded with whatever the buffer holds. */
    method SendWords(pkt: array<byte>, req: MB.Req, ghost base: State) returns (ok: bool)
      requires Valid() && Phased(base, req, MB.Send(0)) && inflight
      requires pkt.Length == PKT_BUF && pkt[..req.Len()] == MB.Packet(req)
      modifies this`tick, this`now, this`log, this`st, this`bus, this`inflight
      ensures Valid() && inflight == ok && Grew(old(log), log) && old(now) <= now
      ensures Phased(base, req, if ok then MB.MaskGet else MB.Failed(EIO))
    {
      hide Deeds;
      hide Ledger;
      hide MB.Packet;
      hide MailAt;
      var words := (|req.payload| + 6 + 3) / 4;
      var i := 0;
      while i < words
        invariant i <= words == MB.Words(req.Len()) && Valid() && inflight && Grew(old(log), log) && old(now) <= now
        invariant Phased(base, req, if i < words then MB.Send(i) else MB.MaskGet)
      {
        var w := Get32(pkt[..], 4 * i);
        MB.WordCarries(req, pkt[..], i);
        ghost var p;
        ok, p := MbWr(req.slice, MB.MB_CMD + i, w, base, req, MB.Send(i));
        if !ok {
          inflight := false;
          return;
        }
        i := i + 1;
      }
      ok := true;
    }

    /** Set the MCU bit of the interrupt mask, keeping the others. */
    method EnableInterrupt(req: MB.Req, ghost base: State) returns (ok: bool)
      requires Books() && Phased(base, req, MB.MaskGet)
      modifies this`tick, this`now, this`log, this`st, this`bus
      ensures Books() && Grew(old(log), log) && old(now) <= now
      ensures Phased(base, req, if ok then MB.Ring else MB.Failed(EIO)) && st.inflight == (ok && old(st.inflight))
    {
      hide Books;
      hide MB.Packet;
      hide MailAt;
      var v; ghost var p;
      ok, v, p := MbRd(req.slice, MB.MB_MCU_MASK, base, req, MB.MaskGet);
      if ok {
        ok, p := MbWr(req.slice, MB.MB_MCU_MASK, v - v % 2 + 1, base, req, MB.MaskSet(v));
      }
    }

    /** Enable the MCU interrupt and ring the doorbell. */
    method RingDoorbell(req: MB.Req, ghost base: State) returns (ok: bool)
      requires Valid() && Phased(base, req, MB.MaskGet) && inflight
      modifies this`tick, this`now, this`log, this`st, this`bus, this`inflight
      ensures Valid() && inflight == ok && Grew(old(log), log) && old(now) <= now
      ensures Phased(base, req, if ok then MB.Poll else MB.Failed(EIO))
    {
      hide Books;
      hide MB.Packet;
      hide MailAt;
      ok := EnableInterrupt(req, base);
      if ok {
        ghost var p;
        ok, p := MbWr(req.slice, MB.MB_FLAG, MB.MB_SET_REQ, base, req, MB.Ring);
      }
      if !ok {
        inflight := false;
      }
    }

    /** One look at the response flag. */
    method LookAtFlag(req: MB.Req, ghost base: State, ghost p: MB.Phase) returns (ok: bool, resp: bool)
      requires Valid() && Phased(base, req, p) && (p.Poll? || p.Wait?)
      modifies this`tick, this`now, this`log, this`st, this`bus, this`inflight
      ensures Valid() && inflight == (ok && old(inflight)) && Grew(old(log), log) && old(now) <= now
      ensures Phased(base, req, if !ok then MB.Failed(EIO) else if resp then MB.Head else MB.Wait)
    {
      hide Deeds;
      hide Ledger;
      var v; ghost var p';
      ok, v, p' := MbRd(req.slice, MB.MB_FLAG, base, req, p);
      resp := v / 2 % 2 == 1;
      if !ok {
        inflight := false;
      }
    }

    /** Giving up: the request is withdrawn. */
    method GiveUp(req: MB.Req, ghost base: State)
      requires Valid() && Phased(base, req, MB.Wait)
      modifies this`tick, this`now, this`log, this`st, this`bus, this`inflight
      ensures Valid() && !inflight && Grew(old(log), log) && old(now) <= now
      ensures Phased(base, req, MB.Failed(ETIMEDOUT))
    {
      hide Ledger;
      var ok; ghost var p;
      ok, p := MbWr(req.slice, MB.MB_FLAG, MB.MB_CLR_REQ, base, req, MB.Wait);
      inflight := false;
    }

    /** The response words after the header. */
    method CollectRest(pkt: array<byte>, len: u16, req: MB.Req, ghost base: State) returns (ok: bool)
      requires Valid() && pkt.Length == PKT_BUF && MB.LengthOk(len)
      requires Phased(base, req, MB.Body(pkt[..4])) && MB.DeclaredLen(pkt[..4]) == len
      modifies this`tick, this`now, this`log, this`st, this`bus, this`inflight, pkt
      ensures Valid() && inflight == (ok && old(inflight)) && Grew(old(log), log) && old(now) <= now
      ensures MB.DeclaredLen(pkt[..4]) == len
      ensures Phased(base, req, if ok then MB.Clear(pkt[..4 * MB.Words(len)]) else MB.Failed(EIO))
    {
      hide MB.Packet;
      hide Books;
      hide Tally;
      hide MailAt;
      var words := (len + 3) / 4;
      var i := 1;
      while i < words
        invariant 1 <= i <= words == MB.Words(len) && Valid() && inflight == old(inflight)
        invariant Grew(old(log), log) && old(now) <= now
        invariant pkt[..4] == old(pkt[..4])
        invariant Phased(base, req, if i < words then MB.Body(pkt[..4 * i]) else MB.Clear(pkt[..4 * i]))
      {
        ghost var sofar := pkt[..4 * i];
        var v; ghost var p;
        ok, v, p := MbRd(req.slice, MB.MB_RESP + i, base, req, MB.Body(sofar));
        if !ok {
          inflight := false;
          return;
        }
        StoreWord(pkt, i, v);
        StillDeclares(sofar, Le32(v), pkt[..4], len);
        i := i + 1;
      }
      ok := true;
    }

    /** A complete response: the flag is cleared, then the checksum decides. */
    method Conclude(pkt: array<byte>, len: u16, req: MB.Req, ghost base: State)
      returns (status: Status, cmd: byte, resp: seq<byte>)
      requires Valid() && pkt.Length == PKT_BUF && MB.LengthOk(len) && MB.DeclaredLen(pkt[..4]) == len
      requires Phased(base, req, MB.Clear(pkt[..4 * MB.Words(len)]))
      modifies this`tick, this`now, this`log, this`st, this`bus, this`inflight
      ensures Valid() && !inflight && Grew(old(log), log) && old(now) <= now
      ensures Phased(base, req, MB.Done(status, cmd, resp)) && status in {OK, ECRC}
    {
      hide Deeds;
      hide Ledger;
      hide MB.Verdict;
      ghost var all := pkt[..4 * MB.Words(len)];
      StillDeclares(all, [], pkt[..4], len);
      assert all + [] == all;
      var ok; ghost var p;
      ok, p := MbWr(req.slice, MB.MB_FLAG, MB.MB_CLR_RESP, base, req, MB.Clear(all));
      inflight := false;
      status, cmd, resp := Judge(pkt, len);
    }

    /** The header word: the declared length is within bounds, or the response is refused. */
    method CollectHead(pkt: array<byte>, req: MB.Req, ghost base: State) returns (status: Status, len: u16)
      requires Valid() && Phased(base, req, MB.Head) && pkt.Length == PKT_BUF
      modifies this`tick, this`now, this`log, this`st, this`bus, this`inflight, pkt
      ensures Valid() && inflight == (status == OK && old(inflight)) && Grew(old(log), log) && old(now) <= now
      ensures status == OK ==>
                MB.LengthOk(len) && MB.DeclaredLen(pkt[..4]) == len && Phased(base, req, MB.Body(pkt[..4]))
      ensures status != OK ==> Phased(base, req, MB.Failed(status)) && status in {EIO, EINVAL}
    {
      hide Books;
      hide OnTrack;
      hide Tally;
      hide Deeds;
      hide Ledger;
      hide pool.Valid;
      hide MB.Packet;
      hide MailAt;
      var ok, v; ghost var p;
      ok, v, p := MbRd(req.slice, MB.MB_RESP, base, req, MB.Head);
      if !ok {
        inflight := false;
        return EIO, 0;
      }
      len := v / 65536;
      if len < MB.PKT_MIN || len > MB.PKT_MAX {
        ok, p := MbWr(req.slice, MB.MB_FLAG, MB.MB_CLR_RESP, base, req, MB.Reject);
        inflight := false;
        return EINVAL, len;
      }
      MB.HeadLength(v);
      StoreWord(pkt, 0, v);
      assert pkt[..4] == Le32(v);
      status := OK;
    }

    /** The response: header word, the rest, the verdict. */
    method Collect(pkt: array<byte>, req: MB.Req, ghost base: State)
      returns (status: Status, cmd: byte, resp: seq<byte>)
      requires Valid() && Phased(base, req, MB.Head) && pkt.Length == PKT_BUF
      modifies this`tick, this`now, this`log, this`st, this`bus, this`inflight, pkt
      ensures Valid() && !inflight && Grew(old(log), log) && old(now) <= now
      ensures Phased(base, req, MB.Done(status, cmd, resp)) && status in {OK, EIO, EINVAL, ECRC}
    {
      hide Ledger;
      cmd, resp := 0, [];
      var len;
      status, len := CollectHead(pkt, req, base);
      if status != OK {
        return;
      }
      var ok := CollectRest(pkt, len, req, base);
      if !ok {
        return EIO, 0, [];
      }
      status, cmd, resp := Conclude(pkt, len, req, base);
    }

    // --- The scheduler -----------------------------------------------------------------------

    /** What draining leaves behind: every item it started is over, and everything that was
        executing is as it was. */
    twostate predicate Drained()
      reads this, pool, pool.next, pool.node
    {
      && Valid() && st.stack == old(st).stack
      && Went(old(Here()), Here(), |st.stack|)
    }

    /** The item has been unlinked; the run says so. */
    ghost method NoteStart(k: nat, i: nat, running: seq<Item>)
      requires OnTrack(hasReset, log, st) && Deeds(log, bus, sent, rings, hist) && inflight == st.inflight
      requires st.MayStart() && k == FirstQueue(st.queues, st.Owner()) < 3 && i == FirstIn(st.queues[k], st.Owner())
      requires pool.Valid() && pool.s.queues == st.queues[k := Without(st.queues[k], i)]
      requires SameItems(running, st.stack) && pool.s.running == running + [st.queues[k][i]]
      requires ClientsShow(cl, st.clients) && nextCid == st.nextCid && ClaimShows(owner, deadline, cleanup, st.claim)
      modifies this`log, this`st
      ensures Valid() && Started(old(st), st, old(log), log)
      ensures st.Top().item == old(st).queues[k][i]
    {
      hide OnTrack;
      hide Tally;
      hide Deeds;
      hide Apply;
      hide pool.Valid;
      hide ClientsShow;
      hide ClaimShows;
      hide FirstIn;
      hide FirstQueue;
      hide Begin;
      StartEffect(st, k, i);
      ghost var it, s0 := st.queues[k][i], st;
      Emit(Start(it));
      ResetLine(hasReset, old(log), s0);
    }

    /** Unlinks the next item and starts it; NIL if none is eligible. */
    method StartNext() returns (it: int)
      requires Valid() && st.MayStart()
      modifies this`log, this`st, pool, pool.next
      ensures Valid()
      ensures it == NIL ==>
                st == old(st) && log == old(log) && AllHeldBack(st) && pool.s == old(pool.s)
      ensures it != NIL ==>
                && Started(old(st), st, old(log), log)
                && Innermost(it) && 0 <= it < pool.node.Length && NodeIs(pool.node[it], st.Top().item)
                && st.Top().phase == Begin(st.Top().item, st.Owner(), hasReset)
                && pool.s.node == old(pool.s.node) && |pool.s.lists| == |old(pool.s.lists)| == 5
                && pool.s.lists[RUNNING] == old(pool.s.lists[RUNNING]) + [it]
    {
      hide OnTrack;
      hide Tally;
      hide Deeds;
      hide pool.Valid;
      hide ClientsShow;
      hide SameItems;
      hide FirstIn;
      hide FirstQueue;
      hide Begin;
      assert owner == st.Owner();
      hide ClaimShows;
      ghost var qs := st.queues;
      pool.FiveLists();
      it := pool.Take(owner);
      pool.FiveLists();
      HeldBackExactly(old(st));
      hide AllHeldBack;
      if it != NIL {
        ghost var k := FirstQueue(qs, owner);
        NoteStart(k, FirstIn(qs[k], owner), old(pool.s.running));
        ResetLine(hasReset, log, st);
      }
    }

    /** Puts a finished item back on the free list. */
    method Retire(it: int)
      requires Valid() && Innermost(it) && st.Quiet() && st.Top().phase.Answered?
      modifies this`log, this`st, pool, pool.next
      ensures Valid() && Grew(old(log), log)
      ensures st == old(st).(t := st.t, stack := old(st).stack[..|old(st).stack| - 1])
      ensures pool.s.node == old(pool.s.node) && |pool.s.lists| == |old(pool.s.lists)| == 5
      ensures pool.s.lists[RUNNING] == old(pool.s.lists[RUNNING])[..|old(pool.s.lists[RUNNING])| - 1]
    {
      hide Apply;
      hide pool.Valid;
      hide Deeds;
      FinishEffect(st);
      pool.FiveLists();
      Emit(Finish(st.Top().item));
      pool.Free(it);
      pool.FiveLists();
    }

    /** `drain_queues`: runs up to budget items, each the first eligible at its turn. */
    method Drain(budget: nat) returns (ghost ran: nat)
      requires Valid() && st.MayStart()
      modifies this, pool, pool.next, pool.node
      ensures Drained() && st.MayStart()
      ensures ran <= budget && (ran < budget ==> AllHeldBack(st))
      ensures Queued(st.queues) + ran <= Queued(old(st).queues)
      decreases Queued(st.queues), 1
    {
      hide AllHeldBack;
      ran := 0;
      WentSelf(|st.stack|);
      var left := budget;
      while left > 0
        invariant ran + left == budget && Valid() && st.MayStart() && st.stack == old(st).stack
        invariant Went(old(Here()), Here(), |st.stack|) && Queued(st.queues) + ran <= Queued(old(st).queues)
        decreases left
      {
        ghost var a := Here();
        var done := DrainOne();
        WentTrans(old(Here()), a, Here(), |st.stack|);
        if !done {
          return;
        }
        left, ran := left - 1, ran + 1;
      }
    }

    /** One pass of the loop: the first eligible item is unlinked, run and retired. */
    method DrainOne() returns (done: bool)
      requires Valid() && st.MayStart()
      modifies this, pool, pool.next, pool.node
      ensures Drained() && st.MayStart() && Queued(st.queues) <= Queued(old(st).queues) - (if done then 1 else 0)
      ensures !done ==> AllHeldBack(st)
      decreases Queued(st.queues), 0
    {
      hide Books;
      hide Went;
      hide Started;
      hide FirstQueue;
      hide AllHeldBack;
      ghost var m0 := Here();
      Five();
      var it := StartNext();
      if it == NIL {
        WentSelf(|st.stack|);
        return false;
      }
      ghost var m1 := Here();
      StartedMeans(m0, m1);
      ghost var n := ExecItem(it);
      ghost var m2 := Here();
      RoundTripShape(m1, m2);
      Retire(it);
      RoundTrip(m0, m1, m2, Here(), it);
      done := true;
    }

    /** `exec_item`: dispatch on the message type. */
    method ExecItem(it: int) returns (ghost n: nat)
      requires Valid() && Innermost(it) && st.Quiet() && 0 <= it < pool.node.Length
      requires NodeIs(pool.node[it], st.Top().item)
      requires st.Top().phase == Begin(st.Top().item, st.Owner(), hasReset)
      modifies this, pool, pool.next, pool.node
      ensures Handled(it) && Promise(old(st).Top().item, log, n, old(now), now, hist, old(cl), cl)
      decreases Queued(st.queues), 7
    {
      hide Books;
      hide Went;
      hide Promise;
      n := 0;
      var typ := pool.node[it].hdr.typ;
      if typ == READ || typ == WRITE {
        n := OpItem(it);
      } else if typ == BATCH {
        n := BatchItem(it);
      } else if typ == MAILBOX {
        n := MailItem(it);
      } else if typ == CLAIM {
        ClaimItem(it);
      } else if typ == RESET {
        ResetItem(it);
      } else {
        ControlItem(it);
      }
    }

    /** The CLAIM case. */
    method ClaimItem(it: int)
      requires Valid() && Innermost(it) && st.Quiet() && 0 <= it < pool.node.Length
      requires NodeIs(pool.node[it], st.Top().item) && st.Top().item.hdr.typ == CLAIM
      requires st.Top().phase == Begin(st.Top().item, st.Owner(), hasReset)
      modifies this
      ensures Handled(it) && Promise(old(st).Top().item, log, 0, old(now), now, hist, old(cl), cl)
    {
      hide OnTrack;
      hide Deeds;
      hide pool.Valid;
      var b := pool.node[it].body;
      pool.FiveLists();
      if !ClaimOk(b) {
        Answer(it, EINVAL, []);
      } else if owner.Some? && owner.value != pool.node[it].slot {
        Answer(it, EBUSY, []);
      } else {
        GrantClaim(it);
      }
    }

    /** The RESET case. */
    method ResetItem(it: int)
      requires Valid() && Innermost(it) && st.Quiet() && 0 <= it < pool.node.Length
      requires NodeIs(pool.node[it], st.Top().item) && st.Top().item.hdr.typ == RESET
      requires st.Top().phase == Begin(st.Top().item, st.Owner(), hasReset)
      modifies this
      ensures Handled(it) && Promise(old(st).Top().item, log, 0, old(now), now, hist, old(cl), cl)
    {
      hide OnTrack;
      hide Deeds;
      hide pool.Valid;
      hide Pulsed;
      var b := pool.node[it].body;
      pool.FiveLists();
      AtOnce(b, EINVAL, now, now);
      AtOnce(b, ENOSYS, now, now);
      if |b| != RESET_LEN {
        Answer(it, EINVAL, []);
      } else if !hasReset {
        Answer(it, ENOSYS, []);
      } else {
        PulseReset(it);
      }
    }

    /** RELEASE, STATS, TRACE and the types not served. */
    method ControlItem(it: int)
      requires Valid() && Innermost(it) && st.Quiet() && 0 <= it < pool.node.Length
      requires NodeIs(pool.node[it], st.Top().item)
      requires st.Top().item.hdr.typ !in {READ, WRITE, BATCH, MAILBOX, CLAIM, RESET}
      requires st.Top().phase == Begin(st.Top().item, st.Owner(), hasReset)
      modifies this
      ensures Handled(it) && Promise(old(st).Top().item, log, 0, old(now), now, hist, old(cl), cl)
    {
      hide OnTrack;
      hide Deeds;
      hide pool.Valid;
      hide Traced;
      var typ := pool.node[it].hdr.typ;
      pool.FiveLists();
      if typ == RELEASE {
        if owner == Some(pool.node[it].slot) {
          ReleaseClaim(it);
        } else {
          Answer(it, OK, []);
        }
      } else if typ == STATS {
        Report(it);
      } else if typ == TRACE {
        ReportOps(it);
      } else {
        Answer(it, ENOSYS, []);
      }
    }

    /** The READ and WRITE cases. */
    method OpItem(it: int) returns (ghost n: nat)
      requires Valid() && Innermost(it) && st.Quiet() && 0 <= it < pool.node.Length
      requires NodeIs(pool.node[it], st.Top().item) && st.Top().item.hdr.typ in {READ, WRITE}
      requires st.Top().phase == Begin(st.Top().item, st.Owner(), hasReset)
      modifies this, pool`s, pool.node
      ensures Handled(it) && Promise(old(st).Top().item, log, n, old(now), now, hist, old(cl), cl)
    {
      hide ClientsShow;
      hide Tally;
      hide OnTrack;
      hide Deeds;
      hide pool.Valid;
      hide Attempted;
      hide Counted;
      pool.FiveLists();
      NoneCounted(cl, st.Top().item.slot);
      n := 0;
      var typ, b := pool.node[it].hdr.typ, pool.node[it].body;
      if |b| != OP_LEN {
        Answer(it, EINVAL, []);
        return;
      }
      pool.SetBody(it, b[1 := if typ == WRITE then 1 else 0]);
      ghost var m := Here();
      n := ExecOps(it);
      WentTrans(old(Here()), m, Here(), |st.stack| - 1);
    }

    /** The BATCH case. */
    method BatchItem(it: int) returns (ghost n: nat)
      requires Valid() && Innermost(it) && st.Quiet() && 0 <= it < pool.node.Length
      requires NodeIs(pool.node[it], st.Top().item) && st.Top().item.hdr.typ == BATCH
      requires st.Top().phase == Begin(st.Top().item, st.Owner(), hasReset)
      modifies this, pool`s, pool.node
      ensures Handled(it) && Promise(old(st).Top().item, log, n, old(now), now, hist, old(cl), cl)
    {
      hide OnTrack;
      hide Deeds;
      hide pool.Valid;
      hide Attempted;
      hide Counted;
      pool.FiveLists();
      NoneCounted(cl, st.Top().item.slot);
      n := 0;
      var b := pool.node[it].body;
      var count := |b| / OP_LEN;
      if count < 1 || count > BATCH_MAX || |b| % OP_LEN != 0 {
        Answer(it, EINVAL, []);
        return;
      }
      n := ExecOps(it);
    }

    /** The MAILBOX case. */
    method MailItem(it: int) returns (ghost polls: nat)
      requires Valid() && Innermost(it) && st.Quiet() && 0 <= it < pool.node.Length
      requires NodeIs(pool.node[it], st.Top().item) && st.Top().item.hdr.typ == MAILBOX
      requires st.Top().phase == Begin(st.Top().item, st.Owner(), hasReset)
      modifies this, pool, pool.next, pool.node
      ensures Handled(it) && Promise(old(st).Top().item, log, polls, old(now), now, hist, old(cl), cl)
      decreases Queued(st.queues), 6
    {
      hide ClientsShow;
      hide Apply;
      hide OnTrack;
      hide Tally;
      hide Deeds;
      hide Books;
      hide pool.Valid;
      hide Patient;
      Five();
      polls := 0;
      var b := pool.node[it].body;
      AtOnce(b, EINVAL, now, now);
      if !MailOk(b) {
        Answer(it, EINVAL, []);
        return;
      }
      var req := MailReq(b);
      if !req.Valid() {
        Answer(it, EINVAL, MailHead(b, b[1], 0));
        return;
      }
      polls := Transact(it, b, req);
    }

    /** The transaction and its answer. */
    method Transact(it: int, b: seq<byte>, req: MB.Req) returns (ghost polls: nat)
      requires Valid() && Innermost(it) && InMail(st, req, MB.Check)
      requires MailOk(b) && b == st.Top().item.body && st.Top().item.hdr.typ == MAILBOX
      modifies this, pool, pool.next, pool.node
      ensures Handled(it) && Promise(old(st).Top().item, log, polls, old(now), now, hist, old(cl), cl)
      decreases Queued(st.queues), 5
    {
      hide ClientsShow;
      hide Apply;
      hide OnTrack;
      hide Tally;
      hide Deeds;
      hide Books;
      hide pool.Valid;
      hide Patient;
      hide MailHead;
      Five();
      var timeout := if Get32(b, 4) != 0 then Get32(b, 4) else MB.MB_TIMEOUT_MS;
      var status, cmd, resp;
      status, cmd, resp, polls := ExecMailbox(it, req, timeout);
      PatientBy(b, timeout, status, polls, old(now), now);
      var reply := if status == OK then MailHead(b, cmd, |resp|) + resp else MailHead(b, b[1], 0);
      Answer(it, status, reply);
    }

    /** `exec_mailbox` */
    method ExecMailbox(it: int, req: MB.Req, timeout: u32)
      returns (status: Status, cmd: byte, resp: seq<byte>, ghost polls: nat)
      requires Valid() && Innermost(it) && InMail(st, req, MB.Check)
      modifies this, pool, pool.next, pool.node
      ensures Valid() && Innermost(it) && InMail(st, req, MB.Done(status, cmd, resp)) && |resp| < 0x1_0000
      ensures Went(old(Here()), Here(), |st.stack|) && |st.stack| == |old(st).stack|
      ensures polls <= timeout + 2 && (status == ETIMEDOUT ==> now > old(now) + 1000 * timeout)
      decreases Queued(st.queues), 4
    {
      hide MB.Packet;
      hide MailAt;
      hide ClientsShow;
      hide Apply;
      hide Books;
      hide pool.Valid;
      hide Went;
      ghost var m0 := Here();
      cmd, resp, polls := 0, [], 0;
      var pkt := new byte[PKT_BUF];
      MB.BuildPacket(req, pkt);
      Five();
      PhasedSelf(req, MB.Check);
      var begun;
      status, begun := BeginTransaction(pkt, req, m0.s);
      PhasedWent(m0, req, if begun then MB.Poll else MB.Failed(status));
      if !begun {
        return;
      }
      ghost var m1 := Here();
      status, polls := AwaitResponse(it, req, timeout);
      WentTrans(m0, m1, Here(), |st.stack|);
      if status != OK {
        return;
      }
      ghost var m2 := Here();
      PhasedSelf(req, MB.Head);
      status, cmd, resp := Collect(pkt, req, m2.s);
      PhasedWent(m2, req, MB.Done(status, cmd, resp));
      WentTrans(m0, m2, Here(), |st.stack|);
      RespBounded(req, status, cmd, resp);
    }

    /** Busy check, request words and doorbell. */
    method BeginTransaction(pkt: array<byte>, req: MB.Req, ghost base: State) returns (status: Status, begun: bool)
      requires Valid() && Phased(base, req, MB.Check) && pkt.Length == PKT_BUF && pkt[..req.Len()] == MB.Packet(req)
      modifies this`tick, this`now, this`log, this`st, this`bus, this`inflight
      ensures Valid() && Grew(old(log), log) && old(now) <= now
      ensures Phased(base, req, if begun then MB.Poll else MB.Failed(status)) && status in {EIO, EBUSY}
    {
      hide MB.Packet;
      hide Tally;
      hide Deeds;
      hide Ledger;
      hide MailAt;
      var ok, v; ghost var p;
      ok, v, p := MbRd(req.slice, MB.MB_FLAG, base, req, MB.Check);
      if !ok {
        return EIO, false;
      }
      if v % 2 == 1 {
        return EBUSY, false;
      }
      inflight := true;
      begun := SendWords(pkt, req, base);
      if begun {
        begun := RingDoorbell(req, base);
      }
      status := EIO;
    }

    /** The poll loop: other clients' items run between two looks at the flag. */
    method AwaitResponse(it: int, req: MB.Req, timeout: u32) returns (status: Status, ghost polls: nat)
      requires Valid() && Innermost(it) && InMail(st, req, MB.Poll)
      modifies this, pool, pool.next, pool.node
      ensures Valid() && Innermost(it) && InMail(st, req, if status == OK then MB.Head else MB.Failed(status))
      ensures Went(old(Here()), Here(), |st.stack|) && |st.stack| == |old(st).stack|
      ensures polls <= timeout + 2 && (status == ETIMEDOUT ==> now > old(now) + 1000 * timeout)
      decreases Queued(st.queues), 3
    {
      ghost var n := |st.stack|;
      WentSelf(n);
      polls := 0;
      var end := now + timeout * 1000;
      ghost var start, p := now, MB.Poll;
      while true
        invariant Valid() && Innermost(it) && InMail(st, req, p) && (p.Poll? || p.Wait?) && |st.stack| == n
        invariant Went(old(Here()), Here(), n) && Queued(st.queues) <= Queued(old(st).queues)
        invariant polls <= timeout + 1 && now >= start + 1000 * polls
        decreases timeout + 2 - polls
      {
        ghost var m := Here();
        var outcome := PollOnce(it, req, end, p);
        WentTrans(old(Here()), m, Here(), n);
        polls := polls + 1;
        if outcome.Some? {
          return outcome.value, polls;
        }
        p := MB.Wait;
      }
    }

    /** One pass of the poll loop: Some(OK) when the response is there, None to go on waiting. */
    method PollOnce(it: int, req: MB.Req, end: nat, ghost p: MB.Phase) returns (outcome: Option<Status>)
      requires Valid() && Innermost(it) && InMail(st, req, p) && (p.Poll? || p.Wait?)
      modifies this, pool, pool.next, pool.node
      ensures Valid() && Innermost(it) && |st.stack| == |old(st).stack| && Queued(st.queues) <= Queued(old(st).queues)
      ensures InMail(st, req, if outcome.None? then MB.Wait
                              else if outcome.value == OK then MB.Head else MB.Failed(outcome.value))
      ensures Went(old(Here()), Here(), |st.stack|)
      ensures outcome.None? ==> now >= old(now) + 1000 && old(now) <= end
      ensures outcome.None? ==>
                AllHeldBack(st) || Queued(st.queues) + 4 <= Queued(old(st).queues)
      ensures outcome == Some(ETIMEDOUT) ==> now > end
      decreases Queued(st.queues), 2
    {
      hide SameItems;
      hide Apply;
      hide Tally;
      hide Deeds;
      hide Books;
      hide pool.Valid;
      hide Went;
      ghost var m0 := Here();
      Five();
      PhasedSelf(req, p);
      var ok, resp := LookAtFlag(req, m0.s, p);
      PhasedWent(m0, req, if !ok then MB.Failed(EIO) else if resp then MB.Head else MB.Wait);
      if !ok {
        return Some(EIO);
      }
      if resp {
        return Some(OK);
      }
      ghost var m1 := Here();
      if now > end {
        PhasedSelf(req, MB.Wait);
        GiveUp(req, m1.s);
        PhasedWent(m1, req, MB.Failed(ETIMEDOUT));
        WentTrans(m0, m1, Here(), |st.stack|);
        return Some(ETIMEDOUT);
      }
      ghost var ran := Drain(4);
      ghost var m2 := Here();
      WentMeans(m1, m2, |st.stack|);
      Sleep(1000);
      WentLater(m1, m2, now, |st.stack|);
      WentTrans(m0, m1, Here(), |st.stack|);
      outcome := None;
    }

    lemma Five()
      requires Valid()
      ensures |pool.s.lists| == 5 && |pool.s.lists[RUNNING]| == |st.stack|
    {
      pool.FiveLists();
    }

    lemma RespBounded(req: MB.Req, status: Status, cmd: byte, resp: seq<byte>)
      requires Valid() && InMail(st, req, MB.Done(status, cmd, resp))
      ensures |resp| <= MB_MAX
    {
      hide Deeds;
      hide pool.Valid;
      TrackInv(hasReset, log, st);
      assert FrameOk(st.Top());
    }

    lemma WentSelf(n: int)
      requires Valid()
      ensures Went(Here(), Here(), n)
    {
      pool.FiveLists();
    }

    lemma PhasedWent(m: Mark, req: MB.Req, p: MB.Phase)
      requires Phased(m.s, req, p) && pool.s == m.p && |m.p.lists| == 5 && Grew(m.log, log) && m.now <= now
      ensures InMail(st, req, p) && |st.stack| == |m.s.stack| && st.queues == m.s.queues && Went(m, Here(), |st.stack|)
    {
    }

    lemma PhasedSelf(req: MB.Req, p: MB.Phase)
      requires InMail(st, req, p)
      ensures Phased(st, req, p)
    {
      var n := |st.stack| - 1;
      assert st.stack[n := st.Top().(phase := Mail(req, p))] == st.stack;
    }

    // --- The main loop -----------------------------------------------------------------------

    /** The next op of the cleanup list. */
    method OneCleanup(i: nat)
      requires Valid() && st.ending == Some(i) && st.claim.Some? && i < |cleanup|
      modifies this`tick, this`now, this`bus, this`rings, this`hist, this`log, this`st
      ensures Valid() && st == old(st).(t := st.t, ending := Some(i + 1)) && old(now) <= now && Grew(old(log), log)
    {
      hide SameItems;
      hide OnTrack;
      hide Tally;
      hide Deeds;
      hide Apply;
      hide pool.Valid;
      hide OpXfer;
      var op := cleanup[i];
      HolderOf(hasReset, log, st);
      UserIs(hasReset, log, st);
      var res := ExecOp(op, true, cl[owner.value].id);
      CleanupEffect(st, res);
      Emit(Cleanup(op, res));
    }

    /** The cleanup ops of `claim_end(1)`, in order. */
    method RunCleanup()
      requires Valid() && st.ending == Some(0) && st.claim.Some?
      modifies this`tick, this`now, this`bus, this`rings, this`hist, this`log, this`st
      ensures Valid() && st == old(st).(t := st.t, ending := Some(|cleanup|)) && old(now) <= now && Grew(old(log), log)
    {
      hide Books;
      var i := 0;
      while i < |cleanup|
        invariant i <= |cleanup| && Valid() && old(now) <= now
        invariant st == old(st).(t := st.t, ending := Some(i)) && Grew(old(log), log)
      {
        OneCleanup(i);
        i := i + 1;
      }
    }

    /** `claim_end(1)`: the holder's cleanup ops, then the claim is over. */
    method EndClaim()
      requires Valid() && st.ending == Some(0) && st.claim.Some? && owner.Some?
      modifies this
      ensures Valid() && st == old(st).(t := st.t, ending := None, claim := None) && old(now) <= now && cl == old(cl)
      ensures owner == None && Grew(old(log), log)
    {
      hide Tally;
      hide Deeds;
      hide Apply;
      hide pool.Valid;
      RunCleanup();
      VacateEffect(st);
      owner, deadline, cleanup := None, 0, [];
      Emit(Vacate);
    }

    /** The expiry test of the main loop. */
    method CheckExpiry()
      requires Valid() && st.Idle()
      modifies this
      ensures Valid() && st == old(st).(t := st.t, claim := st.claim) && Grew(old(log), log)
      ensures old(owner).Some? ==> owner == if now > old(deadline) then None else old(owner)
      ensures owner.Some? ==> old(owner).Some? && now <= deadline
    {
      hide OnTrack;
      hide Deeds;
      hide Apply;
      var i := World();
      if owner.Some? && now > deadline {
        ExpireEffect(st, now);
        Emit(Expire(now));
        EndClaim();
      }
    }

    /** `client_drop` */
    method Drop(slot: nat)
      requires Valid() && st.Idle() && slot < MAX_CLIENTS && cl[slot].used
      modifies this, pool, pool.next
      ensures Took(Sends(slot, []))
    {
      hide OnTrack;
      hide Apply;
      hide Deeds;
      hide pool.Valid;
      HangupEffect(st, slot);
      Emit(Hangup(slot));
      if owner == Some(slot) {
        EndClaim();
      }
      Forget(slot);
    }

    /** The rest of `client_drop`: the client's queued items are freed and its slot with them. */
    method Forget(slot: nat)
      requires Valid() && st.stack == [] && st.inbox.None? && st.leaving == Some(slot)
      requires st.ending.None? && slot < MAX_CLIENTS
      modifies this, pool, pool.next
      ensures Valid() && Grew(old(log), log)
      ensures st == old(st).(t := st.t, leaving := None, clients := old(st).clients - {slot}, queues := st.queues)
    {
      hide Tally;
      hide OnTrack;
      hide Of;
      hide Deeds;
      hide Apply;
      hide pool.Valid;
      hide NotOf;
      ghost var gone := Of(st.queues[0], slot) + Of(st.queues[1], slot) + Of(st.queues[2], slot);
      PurgeEffect(st, slot, gone);
      pool.Purge(slot);
      cl := cl[slot := cl[slot].(used := false)];
      Emit(Machine.Purge(slot, gone));
    }

    /** `accept_client`: the first unused slot, if any. */
    method Accept()
      requires Valid() && st.Idle()
      modifies this
      ensures Took(Connects) && st.queues == old(st).queues
    {
      hide Tally;
      hide FreeSlot;
      hide SameItems;
      hide OnTrack;
      hide Deeds;
      hide Apply;
      hide pool.Valid;
      var i := 0;
      while i < MAX_CLIENTS && cl[i].used
        invariant i <= MAX_CLIENTS && forall k :: 0 <= k < i ==> cl[k].used
      {
        i := i + 1;
      }
      FreeSlotIs(st.clients, 0, i);
      if i == MAX_CLIENTS {
        return;
      }
      ConnectEffect(st, i);
      nextCid := nextCid + 1;
      cl := cl[i := Slot(true, nextCid, 0)];
      Emit(Connect(i));
    }

    /** `client_frame`: a datagram is queued, or refused at once. */
    method Datagrams(slot: nat, msg: seq<byte>)
      requires Valid() && st.Idle() && slot < MAX_CLIENTS && cl[slot].used && 0 < |msg| <= HDR_LEN + MSG_MAX
      modifies this, pool, pool.next, pool.node
      ensures Took(Sends(slot, msg))
    {
      hide Apply;
      hide OnTrack;
      hide Tally;
      hide Deeds;
      hide pool.Valid;
      ReceiveEffect(st, slot, msg);
      Emit(Receive(slot, msg));
      if |msg| < HDR_LEN || HdrAt(msg).ver != VER || HdrAt(msg).len != |msg| - HDR_LEN || HdrAt(msg).len > MSG_MAX {
        Refuse(slot, msg, EINVAL);
        return;
      }
      Queue(slot, msg);
    }

    /** `enqueue` */
    method Queue(slot: nat, msg: seq<byte>)
      requires Valid() && st.inbox.Some? && st.inbox.value.slot == slot && st.inbox.value.msg == msg && Acceptable(msg)
      requires st.stack == [] && st.ending.None? && st.leaving.None?
      modifies this, pool, pool.next, pool.node
      ensures Valid() && st == old(st).(t := st.t, inbox := None, queues := st.queues) && Grew(old(log), log)
    {
      hide Deeds;
      hide pool.Valid;
      pool.Room();
      if pool.freel == NIL {
        Refuse(slot, msg, EBUSY);
        return;
      }
      ghost var it := ItemOf(st.inbox.value);
      EnqueueEffect(st);
      pool.Put(slot, HdrAt(msg), msg[HDR_LEN..], it);
      Emit(Enqueue(it));
    }

    /** The early answers of `client_frame` and `enqueue`. */
    method Refuse(slot: nat, msg: seq<byte>, status: Status)
      requires Valid() && st.inbox.Some? && st.inbox.value.slot == slot && st.inbox.value.msg == msg
      requires st.stack == [] && st.ending.None? && st.leaving.None?
      requires if Acceptable(msg) then status == EBUSY && Queued(st.queues) + |st.stack| >= MAX_QITEMS
               else status == EINVAL
      modifies this
      ensures Valid() && st == old(st).(t := st.t, inbox := None) && Grew(old(log), log)
    {
      hide OnTrack;
      hide Deeds;
      hide Apply;
      hide pool.Valid;
      var h := if |msg| >= HDR_LEN then HdrAt(msg) else Hdr(0, 0, 0, 0, 0);
      var d := Datagram(h, status, []);
      Send(slot, d);
      RefuseEffect(st, status);
      ghost var e := Reply(st.inbox.value.uid, slot, h, status, []);
      DeedsGrow(log, e, bus, old(sent), rings, hist);
      assert bus + XferOf(e) == bus;
      Emit(e);
    }

    /** One action of the world has entered the run and been dealt with. */
    twostate predicate Took(x: External)
      reads this, pool, pool.next, pool.node
    {
      && Valid() && st.Idle() && Arrived(log) == Arrived(old(log)) + Listed(Arrival(old(st).clients, x))
      && st.clients == ClientsAfter(old(st).clients, old(st).nextCid, x)
      && st.nextCid == NextAfter(old(st).clients, old(st).nextCid, x) && Starts(log) == Starts(old(log))
    }

    /** What one epoll event makes the loop do; events name connected clients. */
    method Handle(x: External)
      requires Valid() && st.Idle()
      modifies this, pool, pool.next, pool.node
      ensures Took(x)
    {
      hide Deeds;
      hide pool.Valid;
      match x {
        case Connects => Accept();
        case Sends(slot, msg) =>
          if slot < MAX_CLIENTS && cl[slot].used {
            if |msg| == 0 {
              Drop(slot);
            } else {
              Datagrams(slot, Clipped(msg));
            }
          }
      }
    }

    /** One turn of the main loop: the events, the expiry test, up to 64 items. Nothing starts
        before the test, and after it a claim that is left has not expired. The turn stops before
        the 64th item only when nothing is eligible. */
    method Turn(xs: seq<External>, ghost more: seq<External>) returns (ghost tested: Mark)
      requires Valid() && st.Idle()
      modifies this, pool, pool.next, pool.node
      ensures Valid() && st.Idle()
      ensures Arrived(log) + Arrivals(st.clients, st.nextCid, more)
           == Arrived(old(log)) + Arrivals(old(st).clients, old(st).nextCid, xs + more)
      ensures OnTrack(hasReset, tested.log, tested.s) && Starts(tested.log) == Starts(old(log))
      ensures InTime(tested.log, tested.now)
      ensures Went(tested, Here(), 0)
      ensures AllHeldBack(st) || Starts(log) >= Starts(old(log)) + 64
    {
      hide OnTrack;
      hide Apply;
      hide pool.Valid;
      hide Books;
      hide Tally;
      hide Arrival;
      hide AllHeldBack;
      ghost var all := xs + more;
      for i := 0 to |xs|
        invariant Valid() && st.Idle() && Starts(log) == Starts(old(log))
        invariant Arrived(log) + Arrivals(st.clients, st.nextCid, all[i..])
               == Arrived(old(log)) + Arrivals(old(st).clients, old(st).nextCid, all)
      {
        Handle(xs[i]);
      }
      CheckExpiry();
      tested := Here();
      Tested();
      ghost var ran := Drain(64);
      IdleAgain();
    }

    lemma Tested()
      requires Valid() && (owner.Some? ==> now <= deadline)
      ensures OnTrack(hasReset, log, st) && InTime(log, now)
    {
      hide Run;
      hide Holder;
      hide Deeds;
      hide pool.Valid;
      Readings(hasReset, log);
      if Holder(log).Some? { DeadlineIs(hasReset, log); }
    }

    lemma IdleAgain()
      requires st.MayStart() && st.stack == []
      ensures st.Idle()
    {
    }

    /** The main loop, for any sequence of events and any answers of the world. */
    method Serve(turns: seq<seq<External>>)
      requires Valid() && st.Idle()
      modifies this, pool, pool.next, pool.node
      ensures Valid() && st.Idle() && Reachable(hasReset, log)
      ensures Arrived(log) == Arrived(old(log)) + Arrivals(old(st).clients, old(st).nextCid, Flat(turns))
      ensures !inflight && Executing(log) == [] && bus == OnBus(log) && sent == Sent(log) && OL.Tells(hist, Tried(log))
      ensures |pool.s.lists| == 5 && pool.s.lists[RUNNING] == []
              && |pool.s.lists[0]| + |pool.s.lists[1]| + |pool.s.lists[2]| + |pool.s.lists[FREE]| == MAX_QITEMS
    {
      hide ClaimShows;
      hide Apply;
      for i := 0 to |turns|
        invariant Valid() && st.Idle()
        invariant Arrived(log) + Arrivals(st.clients, st.nextCid, Flat(turns[i..]))
               == Arrived(old(log)) + Arrivals(old(st).clients, old(st).nextCid, Flat(turns))
      {
        ghost var tested := Turn(turns[i], Flat(turns[i + 1..]));
      }
      NoMore(st.clients, st.nextCid, turns[|turns|..]);
      Readings(hasReset, log);
      FlagDownWhenIdle(hasReset, log);
      pool.FiveLists();
      PoolSize(pool.s.lists, pool.s.home);
    }
  }

  lemma NoMore(clients: map<nat, nat>, next: nat, turns: seq<seq<External>>)
    requires turns == []
    ensures Arrivals(clients, next, Flat(turns)) == []
  {
  }

  lemma WentMeans(a: Mark, b: Mark, n: int)
    requires Went(a, b, n)
    ensures a.now <= b.now && Queued(b.s.queues) <= Queued(a.s.queues)
    ensures |a.p.lists| == |b.p.lists| == 5 && b.p.lists[RUNNING] == a.p.lists[RUNNING]
  {
  }

  lemma WentLater(a: Mark, b: Mark, now: nat, n: int)
    requires Went(a, b, n) && b.now <= now
    ensures Went(a, b.(now := now), n)
  {
  }

  lemma StartedMeans(a: Mark, b: Mark)
    requires Started(a.s, b.s, a.log, b.log) && a.s.MayStart()
    ensures b.s.stack != [] && b.s.Quiet() && Queued(b.s.queues) < Queued(a.s.queues)
  {
  }

  lemma RoundTripShape(m1: Mark, m2: Mark)
    requires Went(m1, m2, |m2.s.stack| - 1) && m1.s.stack != [] && m1.s.Quiet()
    ensures m2.s.stack != [] && m2.s.Quiet() && Queued(m2.s.queues) <= Queued(m1.s.queues)
  {
  }

  /** Start, execution and retirement of one item leave the rest of the stack as it was. */
  lemma RoundTrip(m0: Mark, m1: Mark, m2: Mark, m3: Mark, it: int)
    requires Started(m0.s, m1.s, m0.log, m1.log) && m0.now <= m1.now && Went(m1, m2, |m2.s.stack| - 1)
    requires m3.s == m2.s.(t := m3.s.t, stack := m2.s.stack[..|m2.s.stack| - 1])
    requires Grew(m2.log, m3.log) && m2.now <= m3.now
    requires |m0.p.lists| == |m1.p.lists| == 5 && m1.p.node == m0.p.node
    requires m1.p.lists[RUNNING] == m0.p.lists[RUNNING] + [it] && |m0.p.lists[RUNNING]| == |m0.s.stack|
    requires |m2.p.lists| == |m3.p.lists| == 5 && m3.p.node == m2.p.node
    requires m3.p.lists[RUNNING] == m2.p.lists[RUNNING][..|m2.p.lists[RUNNING]| - 1]
    ensures m3.s.stack == m0.s.stack && Went(m0, m3, |m0.s.stack|)
  {
    hide Tally;
    hide Begin;
    var p0, p3 := m0.p, m3.p;
    assert m3.s.stack == m0.s.stack;
    assert p3.lists[RUNNING] == p0.lists[RUNNING];
    forall i | 0 <= i < |m0.s.stack| && 0 <= p0.lists[RUNNING][i] < |p0.node|
      ensures p3.node[p0.lists[RUNNING][i]] == p0.node[p0.lists[RUNNING][i]]
    {
      assert m1.p.lists[RUNNING][i] == p0.lists[RUNNING][i];
    }
  }

  lemma StillDeclares(sofar: seq<byte>, more: seq<byte>, head: seq<byte>, len: u16)
    requires |sofar| >= 4 && |head| == 4 && head == (sofar + more)[..4] && MB.DeclaredLen(head) == len
    ensures MB.DeclaredLen(sofar + more) == len
  {
    assert head[2] == (sofar + more)[2] && head[3] == (sofar + more)[3];
  }

  method StoreWord(pkt: array<byte>, i: nat, v: u32)
    requires 4 * i + 4 <= pkt.Length
    modifies pkt
    ensures pkt[4 * i..4 * i + 4] == Le32(v) && pkt[..4 * i] == old(pkt[..4 * i])
    ensures pkt[..4 * i + 4] == old(pkt[..4 * i]) + Le32(v)
  {
    var b := Le32(v);
    pkt[4 * i], pkt[4 * i + 1], pkt[4 * i + 2], pkt[4 * i + 3] := b[0], b[1], b[2], b[3];
  }

  /** The checksum test at the end of `exec_mailbox`. */
  method Judge(pkt: array<byte>, len: u16) returns (status: Status, cmd: byte, resp: seq<byte>)
    requires pkt.Length == PKT_BUF && MB.LengthOk(len) && MB.DeclaredLen(pkt[..4]) == len
    ensures MB.DeclaredLen(pkt[..4 * MB.Words(len)]) == len
    ensures MB.Verdict(pkt[..4 * MB.Words(len)]) == MB.Done(status, cmd, resp) && status in {OK, ECRC}
  {
    hide Crc.Checksum;
    ghost var all := pkt[..4 * MB.Words(len)];
    assert all[..4] == pkt[..4];
    assert MB.DeclaredLen(all) == MB.DeclaredLen(all[..4]);
    assert all[..len] == pkt[..len] && all[..len][..len - 2] == pkt[..len - 2];
    var crc := Crc.Crc16(pkt, len - 2);
    if crc != Get16(pkt[..len], len - 2) {
      return ECRC, 0, [];
    }
    status, cmd, resp := OK, pkt[0], pkt[4..len - 2];
    assert all[4..len - 2] == resp;
  }

  const PKT_BUF := 1027

  lemma MailKeeps(s: State, t: nat, req: MB.Req, p: MB.Phase, fl: bool, running: seq<Item>)
    requires s.stack != [] && SameItems(running, s.stack)
    ensures var m := MailAt(s, t, req, p, fl);
            && m.t == t && m.inflight == fl && m.queues == s.queues && m.clients == s.clients && m.nextCid == s.nextCid
            && m.claim == s.claim && SameItems(running, m.stack)
  {
  }

  lemma StillRunning(running: seq<Item>, s: State, p: Phase)
    requires s.stack != [] && SameItems(running, s.stack)
    ensures SameItems(running, s.WithTop(p).stack)
  {
  }

  /** The client of the innermost item is connected. */
  lemma ClientOf(hasReset: bool, log: seq<Event>, st: State)
    requires OnTrack(hasReset, log, st) && st.stack != []
    ensures var it := st.Top().item; it.slot in st.clients && st.clients[it.slot] == it.cid
  {
    TrackInv(hasReset, log, st);
    assert Known(st.clients, st.t, st.Top().item);
  }

  lemma UserIs(hasReset: bool, log: seq<Event>, st: State)
    requires OnTrack(hasReset, log, st)
    ensures st.stack != [] ==> UserOf(log, false) == st.Top().item.cid
    ensures st.claim.Some? ==> UserOf(log, true) == st.claim.value.cid
  {
    hide Run;
    Readings(hasReset, log);
  }

  lemma HolderOf(hasReset: bool, log: seq<Event>, st: State)
    requires OnTrack(hasReset, log, st) && st.claim.Some?
    ensures st.claim.value.slot in st.clients && st.clients[st.claim.value.slot] == st.claim.value.cid
  {
    TrackInv(hasReset, log, st);
  }

  lemma AnswerFits(hasReset: bool, log: seq<Event>, st: State, status: Status, body: seq<byte>)
    requires OnTrack(hasReset, log, st) && st.stack != [] && MayAnswer(st.Top(), status, body)
    ensures |body| <= MSG_MAX
  {
    TrackInv(hasReset, log, st);
    ReplyFits(st.Top(), status, body);
  }
}
