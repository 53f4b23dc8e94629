// The daemon as a state machine over the events of a run: what arrives, what is queued, started,
// answered and finished, every register access, and the life of claims and clients.

module Machine {
  import opened Bytes
  import opened Wire
  import MB = Mailbox

  const MAX_CLIENTS := 16
  const MAX_QITEMS := 256

  // --- Entities ------------------------------------------------------------------------------

  /** A queued request. slot is the client structure it points to; uid, the position of its
      arrival in the run, and cid, the client connected at that time, identify it for proofs. */
  datatype Item = Item(uid: nat, slot: nat, cid: nat, hdr: Hdr, body: seq<byte>)

  datatype Letter = Letter(uid: nat, slot: nat, cid: nat, msg: seq<byte>)

  datatype Claimed = Claimed(slot: nat, cid: nat, deadline: nat, cleanup: seq<Op>)

  /** How far an executing item has come. */
  datatype Phase =
    | Ops(n: nat, st: Status, body: seq<byte>) // n register ops attempted, the last with st
    | Mail(req: MB.Req, p: MB.Phase)           // inside a mailbox transaction
    | Asked                                    // a CLAIM, RELEASE or RESET about to take effect
    | Text                                     // STATS or TRACE
    | Ready(st: Status, body: seq<byte>)       // the answer is known
    | Answered

  datatype Frame = Frame(item: Item, phase: Phase)

  type Queues = q: seq<seq<Item>> | |q| == 3 witness [[], [], []]

  datatype State = State(
    t: nat,                       // events so far
    clients: map<nat, nat>,       // used slots and the ids of their clients
    nextCid: nat,
    inbox: Option<Letter>,        // the datagram being looked at
    queues: Queues,               // high, normal, low
    stack: seq<Frame>,            // executing items, innermost last
    claim: Option<Claimed>,
    ending: Option<nat>,          // cleanup ops already run for a claim that ends abnormally
    leaving: Option<nat>,         // the slot whose client is being dropped
    inflight: bool,
    hasReset: bool)               // a reset line is configured
  {
    function Owner(): Option<nat> {
      if claim.Some? then Some(claim.value.slot) else None
    }

    predicate Quiet() { inbox.None? && ending.None? && leaving.None? }

    predicate Idle() { stack == [] && Quiet() }

    function Top(): Frame
      requires stack != []
    {
      stack[|stack| - 1]
    }

    function WithTop(phase: Phase): State
      requires stack != []
    {
      this.(stack := stack[|stack| - 1 := Top().(phase := phase)])
    }

    /** Where another item may start: the main loop, or a mailbox waiting for its response. */
    predicate MayStart() {
      Quiet() && (stack == [] || (Top().phase.Mail? && Top().phase.p.Wait?))
    }
  }

  function Init(hasReset: bool): State {
    State(0, map[], 0, None, [[], [], []], [], None, None, None, false, hasReset)
  }

  /** What a register op met: refused by the daemon, a failed transfer, or done. */
  datatype Result = Refused(st: Status) | Failed | Done(val: u32) {
    function Status(): Status {
      match this case Refused(st) => st case Failed => EIO case Done(_) => OK
    }

    predicate OnDevice() { !Refused? }
  }

  datatype Event =
    | Connect(slot: nat)
    | Receive(slot: nat, msg: seq<byte>)
    | Enqueue(item: Item)
    | Reply(uid: nat, slot: nat, req: Hdr, status: Status, body: seq<byte>)
    | Start(item: Item)
    | Access(op: Op, res: Result)
    | Mb(slice: byte, acc: MB.Access)
    | Grant(now: nat)
    | Release
    | Reset
    | Finish(item: Item)
    | Expire(now: nat)
    | Hangup(slot: nat)
    | Cleanup(op: Op, res: Result)
    | Vacate
    | Purge(slot: nat, gone: seq<Item>)

  // --- Scheduling ----------------------------------------------------------------------------

  /** Control messages are served under a foreign claim; register and mailbox traffic is not. */
  predicate Control(typ: byte) { typ >= CLAIM && typ != MAILBOX }

  predicate Eligible(owner: Option<nat>, it: Item) {
    owner.None? || it.slot == owner.value || Control(it.hdr.typ)
  }

  function Class(flags: u16): (q: nat)
    ensures q < 3
  {
    if flags % 4 == 1 then 0 else if flags % 4 == 2 then 2 else 1
  }

  /** Index of the first eligible item, or the length if there is none. */
  function FirstIn(q: seq<Item>, owner: Option<nat>): (i: nat)
    ensures i <= |q| && (i < |q| ==> Eligible(owner, q[i]))
    ensures forall j :: 0 <= j < i ==> !Eligible(owner, q[j])
  {
    if q == [] then 0
    else if Eligible(owner, q[0]) then 0
    else 1 + FirstIn(q[1..], owner)
  }

  /** The queue served next, 3 if no item is eligible. */
  function FirstQueue(qs: Queues, owner: Option<nat>): (k: nat)
    ensures k <= 3 && (k < 3 ==> FirstIn(qs[k], owner) < |qs[k]|)
    ensures forall j :: 0 <= j < k ==> FirstIn(qs[j], owner) == |qs[j]|
  {
    if FirstIn(qs[0], owner) < |qs[0]| then 0
    else if FirstIn(qs[1], owner) < |qs[1]| then 1
    else if FirstIn(qs[2], owner) < |qs[2]| then 2
    else 3
  }

  function Without<T>(q: seq<T>, i: nat): seq<T>
    requires i < |q|
  {
    q[..i] + q[i + 1..]
  }

  function Queued(qs: Queues): nat { |qs[0]| + |qs[1]| + |qs[2]| }

  /** One client's items, and everyone else's, in order. */
  function Of(q: seq<Item>, slot: nat): seq<Item> {
    if q == [] then []
    else (if q[0].slot == slot then [q[0]] else []) + Of(q[1..], slot)
  }

  function NotOf(q: seq<Item>, slot: nat): seq<Item> {
    if q == [] then []
    else (if q[0].slot == slot then [] else [q[0]]) + NotOf(q[1..], slot)
  }

  // --- Requests ------------------------------------------------------------------------------

  /** Register ops in an item's body. */
  function Count(it: Item): nat {
    if it.hdr.typ == BATCH then |it.body| / OP_LEN else 1
  }

  /** READ and WRITE overwrite the op's write byte with what the type says. */
  function OpsBody(it: Item): (b: seq<byte>)
    requires |it.body| >= OP_LEN
    ensures |b| == |it.body|
  {
    if it.hdr.typ == BATCH then it.body
    else it.body[1 := if it.hdr.typ == WRITE then 1 else 0]
  }

  function CleanupCount(b: seq<byte>): nat
    requires |b| >= CLAIM_LEN
  {
    Get16(b, 4)
  }

  predicate ClaimOk(b: seq<byte>) {
    |b| >= CLAIM_LEN && CleanupCount(b) <= BATCH_MAX && |b| == CLAIM_LEN + OP_LEN * CleanupCount(b)
  }

  function CleanupOps(b: seq<byte>): seq<Op>
    requires ClaimOk(b)
  {
    OpsAt(b[CLAIM_LEN..], CleanupCount(b))
  }

  predicate MailOk(b: seq<byte>) {
    |b| >= MB_LEN && |b| == MB_LEN + Get16(b, 2)
  }

  function MailReq(b: seq<byte>): MB.Req
    requires MailOk(b)
  {
    MB.Req(b[0], b[1], b[MB_LEN..])
  }

  /** The mailbox struct of an answer: slice, command, response length, timeout as sent. */
  function MailHead(b: seq<byte>, cmd: byte, n: u16): seq<byte>
    requires MailOk(b)
  {
    [b[0], cmd] + Le16(n) + b[4..MB_LEN]
  }

  /** Where a handler stands right after the dispatch on the message type. */
  function Begin(it: Item, owner: Option<nat>, hasReset: bool): Phase {
    var b, typ := it.body, it.hdr.typ;
    if typ == READ || typ == WRITE then
      if |b| == OP_LEN then Ops(0, OK, OpsBody(it)) else Ready(EINVAL, [])
    else if typ == BATCH then
      if |b| % OP_LEN == 0 && 1 <= |b| / OP_LEN <= BATCH_MAX then Ops(0, OK, b) else Ready(EINVAL, [])
    else if typ == CLAIM then
      if !ClaimOk(b) then Ready(EINVAL, [])
      else if owner.Some? && owner.value != it.slot then Ready(EBUSY, [])
      else Asked
    else if typ == RELEASE then
      if owner == Some(it.slot) then Asked else Ready(OK, [])
    else if typ == MAILBOX then
      if !MailOk(b) then Ready(EINVAL, [])
      else if !MailReq(b).Valid() then Ready(EINVAL, MailHead(b, b[1], 0))
      else Mail(MailReq(b), MB.Check)
    else if typ == STATS || typ == TRACE then Text
    else if typ == RESET then
      if |b| != RESET_LEN then Ready(EINVAL, []) else if hasReset then Asked else Ready(ENOSYS, [])
    else Ready(ENOSYS, [])
  }

  /** The answer a frame is ready to give; None: not yet, or no longer. */
  predicate MayAnswer(f: Frame, status: Status, body: seq<byte>) {
    match f.phase
    case Ops(n, st, b) => (st != OK || n == Count(f.item)) && status == st && body == b
    case Mail(req, p) =>
      p.Done? && MailOk(f.item.body) && status == p.st && |p.resp| < 0x1_0000
      && body == if p.st == OK then MailHead(f.item.body, p.cmd, |p.resp|) + p.resp
                 else MailHead(f.item.body, f.item.body[1], 0)
    case Text => status == OK && |body| <= MSG_MAX
    case Ready(st, b) => status == st && body == b
    case _ => false
  }

  // --- Register ops --------------------------------------------------------------------------

  predicate Guarded(op: Op) {
    op.mmd == MMD_GLOBAL && MB.MB_GUARD_LO <= op.reg <= MB.MB_GUARD_HI
  }

  /** The checks of `exec_op` before it touches the device; own: a claim's cleanup op. */
  function Refusal(op: Op, inflight: bool, own: bool): Option<Status> {
    if op.slice >= MB.SLICE_COUNT then Some(EINVAL)
    else if inflight && Guarded(op) && !own then Some(EBUSY)
    else None
  }

  predicate Legal(op: Op, inflight: bool, own: bool, res: Result) {
    match Refusal(op, inflight, own)
    case Some(st) => res == Refused(st)
    case None => !res.Refused? && (op.write && res.Done? ==> res.val == op.val)
  }

  // --- Steps ---------------------------------------------------------------------------------

  function OnConnect(s: State, slot: nat): Option<State> {
    if s.Idle() && slot < MAX_CLIENTS && slot !in s.clients && forall k :: 0 <= k < slot ==> k in s.clients then
      Some(s.(clients := s.clients[slot := s.nextCid + 1], nextCid := s.nextCid + 1))
    else None
  }

  function OnReceive(s: State, slot: nat, msg: seq<byte>): Option<State> {
    if s.Idle() && slot in s.clients && 0 < |msg| <= HDR_LEN + MSG_MAX then
      Some(s.(inbox := Some(Letter(s.t, slot, s.clients[slot], msg))))
    else None
  }

  function ItemOf(l: Letter): Item
    requires Acceptable(l.msg)
  {
    Item(l.uid, l.slot, l.cid, HdrAt(l.msg), l.msg[HDR_LEN..])
  }

  function OnEnqueue(s: State, it: Item): Option<State> {
    if s.inbox.Some? && Acceptable(s.inbox.value.msg) && it == ItemOf(s.inbox.value)
       && Queued(s.queues) + |s.stack| < MAX_QITEMS then
      var k := Class(it.hdr.flags);
      Some(s.(inbox := None, queues := s.queues[k := s.queues[k] + [it]]))
    else None
  }

  /** The header a refusal echoes: the datagram's own, if it has one. */
  function EchoHdr(msg: seq<byte>): Hdr {
    if |msg| >= HDR_LEN then HdrAt(msg) else Hdr(0, 0, 0, 0, 0)
  }

  function OnReply(s: State, uid: nat, slot: nat, req: Hdr, status: Status, body: seq<byte>): Option<State> {
    if s.inbox.Some? then
      var l := s.inbox.value;
      if uid == l.uid && slot == l.slot && req == EchoHdr(l.msg) && body == []
         && (if Acceptable(l.msg) then status == EBUSY && Queued(s.queues) + |s.stack| >= MAX_QITEMS
             else status == EINVAL) then
        Some(s.(inbox := None))
      else None
    else if s.stack != [] && s.Quiet() && MayAnswer(s.Top(), status, body)
            && uid == s.Top().item.uid && slot == s.Top().item.slot && req == s.Top().item.hdr then
      Some(s.WithTop(Answered))
    else None
  }

  function OnStart(s: State, it: Item): Option<State> {
    var k := FirstQueue(s.queues, s.Owner());
    if s.MayStart() && k < 3 && it == s.queues[k][FirstIn(s.queues[k], s.Owner())] then
      Some(s.(queues := s.queues[k := Without(s.queues[k], FirstIn(s.queues[k], s.Owner()))],
              stack := s.stack + [Frame(it, Begin(it, s.Owner(), s.hasReset))]))
    else None
  }

  function OnAccess(s: State, op: Op, res: Result): Option<State> {
    if s.stack != [] && s.Quiet() && s.Top().phase.Ops? then
      var Ops(n, st, body) := s.Top().phase;
      if st == OK && n < Count(s.Top().item) && OP_LEN * (n + 1) <= |body|
         && op == OpAt(body, n) && Legal(op, s.inflight, false, res) then
        Some(s.WithTop(Ops(n + 1, res.Status(),
                           if !op.write && res.Done? then WithVal(body, n, res.val) else body)))
      else None
    else None
  }

  function OnMb(s: State, slice: byte, a: MB.Access): Option<State> {
    if s.stack != [] && s.Quiet() && s.Top().phase.Mail? && s.Top().phase.req.Valid()
       && s.Top().phase.req.slice == slice then
      var Mail(req, p) := s.Top().phase;
      match MB.Next(req, p, a)
      case None => None
      case Some(p') =>
        var fl := if p.Check? && p'.Active() then true
                  else if p.Active() && p'.Done? then false else s.inflight;
        Some(s.WithTop(Mail(req, p')).(inflight := fl))
    else None
  }

  predicate Asks(s: State, typ: byte) {
    s.stack != [] && s.Quiet() && s.Top().phase.Asked? && s.Top().item.hdr.typ == typ
  }

  function OnGrant(s: State, now: nat): Option<State> {
    if Asks(s, CLAIM) && ClaimOk(s.Top().item.body) then
      var it := s.Top().item;
      Some(s.WithTop(Ready(OK, [])).(
           claim := Some(Claimed(it.slot, it.cid, now + 1000 * Get32(it.body, 0), CleanupOps(it.body)))))
    else None
  }

  function OnRelease(s: State): Option<State> {
    if Asks(s, RELEASE) then Some(s.WithTop(Ready(OK, [])).(claim := None)) else None
  }

  function OnReset(s: State): Option<State> {
    if Asks(s, RESET) then Some(s.WithTop(Ready(OK, [])).(inflight := false)) else None
  }

  function OnFinish(s: State, it: Item): Option<State> {
    if s.stack != [] && s.Quiet() && s.Top().phase.Answered? && it == s.Top().item then
      Some(s.(stack := s.stack[..|s.stack| - 1]))
    else None
  }

  function OnExpire(s: State, now: nat): Option<State> {
    if s.Idle() && s.claim.Some? && now > s.claim.value.deadline then Some(s.(ending := Some(0))) else None
  }

  function OnHangup(s: State, slot: nat): Option<State> {
    if s.Idle() && slot in s.clients then
      Some(s.(leaving := Some(slot), ending := if s.Owner() == Some(slot) then Some(0) else None))
    else None
  }

  function OnCleanup(s: State, op: Op, res: Result): Option<State> {
    if s.ending.Some? && s.claim.Some? && s.ending.value < |s.claim.value.cleanup|
       && op == s.claim.value.cleanup[s.ending.value] && Legal(op, s.inflight, true, res) then
      Some(s.(ending := Some(s.ending.value + 1)))
    else None
  }

  function OnVacate(s: State): Option<State> {
    if s.ending.Some? && s.claim.Some? && s.ending.value == |s.claim.value.cleanup| then
      Some(s.(ending := None, claim := None))
    else None
  }

  function OnPurge(s: State, slot: nat, gone: seq<Item>): Option<State> {
    if s.leaving == Some(slot) && s.ending.None?
       && gone == Of(s.queues[0], slot) + Of(s.queues[1], slot) + Of(s.queues[2], slot) then
      Some(s.(leaving := None, clients := s.clients - {slot},
              queues := [NotOf(s.queues[0], slot), NotOf(s.queues[1], slot), NotOf(s.queues[2], slot)]))
    else None
  }

  function Apply(s: State, e: Event): Option<State> {
    match e
    case Connect(slot) => OnConnect(s, slot)
    case Receive(slot, msg) => OnReceive(s, slot, msg)
    case Enqueue(it) => OnEnqueue(s, it)
    case Reply(uid, slot, req, status, body) => OnReply(s, uid, slot, req, status, body)
    case Start(it) => OnStart(s, it)
    case Access(op, res) => OnAccess(s, op, res)
    case Mb(slice, a) => OnMb(s, slice, a)
    case Grant(now) => OnGrant(s, now)
    case Release => OnRelease(s)
    case Reset => OnReset(s)
    case Finish(it) => OnFinish(s, it)
    case Expire(now) => OnExpire(s, now)
    case Hangup(slot) => OnHangup(s, slot)
    case Cleanup(op, res) => OnCleanup(s, op, res)
    case Vacate => OnVacate(s)
    case Purge(slot, gone) => OnPurge(s, slot, gone)
  }

  /** What happens to the innermost item, short of finishing it. */
  predicate OnTop(s: State, e: Event) {
    e.Access? || e.Mb? || e.Grant? || e.Release? || e.Reset? || (e.Reply? && s.inbox.None?)
  }

  /** Such an event moves the innermost item on and, at most, the claim and the in-flight flag. */
  lemma TopStep(s: State, e: Event)
    requires Apply(s, e).Some? && OnTop(s, e)
    ensures var s' := Apply(s, e).value;
            && s.stack != [] && s.Quiet() && !s.Top().phase.Answered? && s'.stack != []
            && s' == s.WithTop(s'.Top().phase).(claim := s'.claim, inflight := s'.inflight)
            && (s'.Top().phase.Answered? <==> e.Reply?) && (e.Reply? ==> e.uid == s.Top().item.uid)
  {
  }

  /** What the other events do to the items. */
  lemma SideStep(s: State, e: Event)
    requires Apply(s, e).Some? && !OnTop(s, e) && !e.Enqueue? && !e.Start? && !e.Purge?
    ensures var s' := Apply(s, e).value;
            && s'.queues == s.queues && s'.stack == (if e.Finish? then s.stack[..|s.stack| - 1] else s.stack)
            && (e.Finish? ==> s.stack != [] && s.Top().phase.Answered? && e.item == s.Top().item)
            && (e.Receive? ==> s.inbox.None? && e.slot in s.clients
                               && s'.inbox == Some(Letter(s.t, e.slot, s.clients[e.slot], e.msg)))
            && (e.Reply? ==> s.inbox.Some? && s.inbox.value.uid == e.uid && s'.inbox.None?)
            && (!e.Receive? && !e.Reply? ==> s'.inbox == s.inbox)
            && s'.claim == (if e.Vacate? then None else s.claim)
  {
  }

  /** Queueing, starting and purging leave the claim and the executing items alone. */
  lemma QueueStep(s: State, e: Event)
    requires Apply(s, e).Some? && (e.Enqueue? || e.Start? || e.Purge?)
    ensures var s' := Apply(s, e).value;
            && s'.claim == s.claim
            && s'.stack == s.stack + if e.Start? then [Frame(e.item, Begin(e.item, s.Owner(), s.hasReset))] else []
  {
    hide Begin;
  }

  function Step(s: State, e: Event): (r: Option<State>)
    ensures r.Some? ==> r.value.t == s.t + 1 && r.value.hasReset == s.hasReset
  {
    match Apply(s, e)
    case None => None
    case Some(s') => Some(s'.(t := s.t + 1))
  }

  /** The state a run leads to, None if some event was impossible. */
  function Run(hasReset: bool, log: seq<Event>): Option<State> {
    if log == [] then Some(Init(hasReset))
    else
      match Run(hasReset, log[..|log| - 1])
      case None => None
      case Some(s) => Step(s, log[|log| - 1])
  }

  ghost predicate Reachable(hasReset: bool, log: seq<Event>) {
    Run(hasReset, log).Some?
  }

  function After(hasReset: bool, log: seq<Event>): State
    requires Reachable(hasReset, log)
  {
    Run(hasReset, log).value
  }

  // --- What a run does to the world ----------------------------------------------------------

  /** A register transfer: a read (None: it failed) or a write. */
  datatype Xfer =
    | Read(slice: byte, mmd: byte, reg: u16, got: Option<u32>)
    | Write(slice: byte, mmd: byte, reg: u16, val: u32, ok: bool)

  function OpXfer(op: Op, res: Result): seq<Xfer> {
    if res.Refused? then []
    else if op.write then [Write(op.slice, op.mmd, op.reg, op.val, res.Done?)]
    else [Read(op.slice, op.mmd, op.reg, if res.Done? then Some(res.val) else None)]
  }

  function MbXfer(slice: byte, a: MB.Access): seq<Xfer> {
    match a
    case Rd(reg, got) => [Read(slice, MMD_GLOBAL, reg, got)]
    case Wr(reg, val, ok) => [Write(slice, MMD_GLOBAL, reg, val, ok)]
  }

  function XferOf(e: Event): seq<Xfer> {
    match e
    case Access(op, res) => OpXfer(op, res)
    case Cleanup(op, res) => OpXfer(op, res)
    case Mb(slice, a) => MbXfer(slice, a)
    case _ => []
  }

  /** The transfers of a run, in order. */
  function OnBus(log: seq<Event>): seq<Xfer> {
    if log == [] then [] else OnBus(log[..|log| - 1]) + XferOf(log[|log| - 1])
  }

  datatype Mail = ToClient(slot: nat, datagram: seq<byte>)

  function MailOf(e: Event): seq<Mail> {
    if e.Reply? && |e.body| <= MSG_MAX then [ToClient(e.slot, Response(e.req, e.status, e.body))] else []
  }

  /** The datagrams a run sends, in order. */
  function Sent(log: seq<Event>): seq<Mail> {
    if log == [] then [] else Sent(log[..|log| - 1]) + MailOf(log[|log| - 1])
  }

  lemma WorldGrows(log: seq<Event>, e: Event)
    ensures OnBus(log + [e]) == OnBus(log) + XferOf(e) && Sent(log + [e]) == Sent(log) + MailOf(e)
  {
    assert (log + [e])[..|log|] == log;
  }

  // --- Runs ----------------------------------------------------------------------------------

  lemma Extend(hasReset: bool, log: seq<Event>, e: Event)
    requires Reachable(hasReset, log)
    ensures Run(hasReset, log + [e]) == Step(After(hasReset, log), e)
  {
    assert (log + [e])[..|log|] == log;
  }

  lemma {:induction false} Prefix(hasReset: bool, log: seq<Event>, k: nat)
    requires Reachable(hasReset, log) && k <= |log|
    ensures Reachable(hasReset, log[..k])
    decreases |log|
  {
    if k == |log| {
      assert log[..k] == log;
    } else {
      Prefix(hasReset, log[..|log| - 1], k);
      assert log[..|log| - 1][..k] == log[..k];
    }
  }

  /** The state before event k steps, by it, to the state after. */
  lemma At(hasReset: bool, log: seq<Event>, k: nat)
    requires Reachable(hasReset, log) && k < |log|
    ensures Reachable(hasReset, log[..k]) && Reachable(hasReset, log[..k + 1])
    ensures Step(After(hasReset, log[..k]), log[k]) == Some(After(hasReset, log[..k + 1]))
  {
    Prefix(hasReset, log, k);
    Prefix(hasReset, log, k + 1);
    assert log[..k + 1][..k] == log[..k];
  }

  lemma {:induction false} TimeIs(hasReset: bool, log: seq<Event>)
    requires Reachable(hasReset, log)
    ensures After(hasReset, log).t == |log| && After(hasReset, log).hasReset == hasReset
  {
    if log != [] { TimeIs(hasReset, log[..|log| - 1]); }
  }
}
