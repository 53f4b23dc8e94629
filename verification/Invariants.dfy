// What every reachable state of the daemon keeps.

module Invariants {
  import opened Bytes
  import opened Wire
  import opened Machine
  import MB = Mailbox

  // --- Clients and items ---------------------------------------------------------------------

  /** The item's client is still connected, on the slot it sent the item from. */
  predicate Known(clients: map<nat, nat>, t: nat, it: Item) {
    it.slot in clients && clients[it.slot] == it.cid && it.uid < t && |it.body| == it.hdr.len && |it.body| <= MSG_MAX
  }

  ghost predicate QueueOk(clients: map<nat, nat>, t: nat, q: seq<Item>, k: nat) {
    forall i :: 0 <= i < |q| ==> Known(clients, t, q[i]) && Class(q[i].hdr.flags) == k
  }

  ghost predicate Items(s: State) {
    && (forall k :: 0 <= k < 3 ==> QueueOk(s.clients, s.t, s.queues[k], k))
    && (forall i :: 0 <= i < |s.stack| ==> Known(s.clients, s.t, s.stack[i].item))
    && (s.inbox.Some? ==> s.inbox.value.slot in s.clients && s.clients[s.inbox.value.slot] == s.inbox.value.cid
                          && s.inbox.value.uid < s.t)
    && (forall k :: k in s.clients ==> s.clients[k] <= s.nextCid)
    && (s.claim.Some? ==> s.claim.value.slot in s.clients && s.clients[s.claim.value.slot] == s.claim.value.cid)
  }

  // --- The stack -----------------------------------------------------------------------------

  predicate Waiting(f: Frame) { f.phase.Mail? && f.phase.p.Wait? }

  ghost predicate Shape(s: State) {
    && (forall i :: 0 <= i < |s.stack| - 1 ==> Waiting(s.stack[i]))
    && (!s.Quiet() ==> s.stack == [])
    && (s.inbox.Some? ==> s.ending.None? && s.leaving.None?)
    && (s.ending.Some? ==> s.claim.Some? && s.ending.value <= |s.claim.value.cleanup|)
    && (s.leaving.Some? ==> s.leaving.value in s.clients
                            && (s.ending.Some? <==> s.Owner() == s.leaving))
  }

  predicate OpsOk(it: Item, n: nat, st: Status, body: seq<byte>) {
    && it.hdr.typ in {READ, WRITE, BATCH}
    && n <= Count(it) && |body| == |it.body| == OP_LEN * Count(it)
    && (n == 0 ==> st == OK)
  }

  ghost predicate FrameOk(f: Frame) {
    match f.phase
    case Ops(n, st, body) => OpsOk(f.item, n, st, body)
    case Mail(req, p) =>
      f.item.hdr.typ == MAILBOX && MailOk(f.item.body) && req == MailReq(f.item.body) && req.Valid()
      && MB.PhaseOk(req, p)
    case Asked => f.item.hdr.typ in {CLAIM, RELEASE, RESET} && (f.item.hdr.typ == CLAIM ==> ClaimOk(f.item.body))
    case Ready(_, b) => |b| <= MB_LEN
    case _ => true
  }

  ghost predicate Frames(s: State) {
    forall i :: 0 <= i < |s.stack| ==> FrameOk(s.stack[i])
  }

  // --- Claims --------------------------------------------------------------------------------

  /** The innermost item is entitled to what it is doing. */
  predicate Entitled(f: Frame, owner: Option<nat>) {
    match f.phase
    case Ops(_, _, _) => owner.None? || owner.value == f.item.slot
    case Asked =>
      && (f.item.hdr.typ == CLAIM ==> owner.None? || owner.value == f.item.slot)
      && (f.item.hdr.typ == RELEASE ==> owner == Some(f.item.slot))
    case _ => true
  }

  ghost predicate Claims(s: State) {
    && (s.stack != [] ==> Entitled(s.Top(), s.Owner()))
    && (s.claim.Some? ==> |s.claim.value.cleanup| <= BATCH_MAX)
  }

  // --- Order ---------------------------------------------------------------------------------

  predicate Sorted(q: seq<Item>) {
    forall i, j :: 0 <= i < j < |q| ==> q[i].uid < q[j].uid
  }

  ghost predicate Before(qs: Queues, uid: nat) {
    forall k, i :: 0 <= k < 3 && 0 <= i < |qs[k]| ==> qs[k][i].uid < uid
  }

  ghost predicate InOrder(s: State) {
    && (forall k :: 0 <= k < 3 ==> Sorted(s.queues[k]))
    && Before(s.queues, s.t)
    && (s.inbox.Some? ==> s.inbox.value.uid < s.t && Before(s.queues, s.inbox.value.uid))
  }

  ghost predicate Inv(s: State) {
    Items(s) && Shape(s) && Frames(s) && Claims(s) && InOrder(s)
  }

  // --- Preservation --------------------------------------------------------------------------

  lemma {:induction false} NotOfSub(q: seq<Item>, slot: nat)
    ensures |NotOf(q, slot)| <= |q|
    ensures forall i :: 0 <= i < |NotOf(q, slot)| ==> NotOf(q, slot)[i] in q && NotOf(q, slot)[i].slot != slot
  {
    if q != [] { NotOfSub(q[1..], slot); }
  }

  lemma {:induction false} NotOfSorted(q: seq<Item>, slot: nat)
    requires Sorted(q)
    ensures Sorted(NotOf(q, slot))
  {
    if q != [] {
      NotOfSorted(q[1..], slot);
      NotOfSub(q[1..], slot);
    }
  }

  lemma ShapeStep(s: State, e: Event)
    requires Shape(s) && Items(s) && Step(s, e).Some?
    ensures Shape(Step(s, e).value)
  {
    hide Apply;
    hide Shape;
    if e.Enqueue? || e.Start? || e.Purge? {
      QueueShape(s, e);
    } else if OnTop(s, e) {
      TopShape(s, e);
    } else {
      SideShape(s, e);
    }
  }

  lemma QueueShape(s: State, e: Event)
    requires Shape(s) && Items(s) && Step(s, e).Some? && (e.Enqueue? || e.Start? || e.Purge?)
    ensures Shape(Step(s, e).value)
  {
    hide Begin;
    hide FirstIn;
    hide FirstQueue;
    hide Class;
  }

  lemma TopShape(s: State, e: Event)
    requires Shape(s) && Step(s, e).Some? && OnTop(s, e)
    ensures Shape(Step(s, e).value)
  {
    hide Apply;
    TopStep(s, e);
  }

  lemma SideShape(s: State, e: Event)
    requires Shape(s) && Items(s) && Step(s, e).Some? && !OnTop(s, e) && !e.Enqueue? && !e.Start? && !e.Purge?
    ensures Shape(Step(s, e).value)
  {
    hide Legal;
  }

  lemma BeginOk(it: Item, owner: Option<nat>, hasReset: bool)
    ensures FrameOk(Frame(it, Begin(it, owner, hasReset)))
  {
  }

  lemma FramesStep(s: State, e: Event)
    requires Frames(s) && Step(s, e).Some?
    ensures Frames(Step(s, e).value)
  {
    hide FrameOk;
    if e.Start? {
      BeginOk(e.item, s.Owner(), s.hasReset);
    } else if e.Enqueue? || e.Purge? {
    } else {
      OtherFrames(s, e);
    }
  }

  lemma OtherFrames(s: State, e: Event)
    requires Frames(s) && Step(s, e).Some? && !e.Enqueue? && !e.Start? && !e.Purge?
    ensures Frames(Step(s, e).value)
  {
    hide FrameOk;
    hide Apply;
    if OnTop(s, e) {
      TopStep(s, e);
      TopFrame(s, e);
    } else {
      SideStep(s, e);
    }
  }

  lemma TopFrame(s: State, e: Event)
    requires Apply(s, e).Some? && OnTop(s, e) && s.stack != [] && FrameOk(s.Top()) && Apply(s, e).value.stack != []
    ensures FrameOk(Apply(s, e).value.Top())
  {
    if e.Mb? { MB.NextKeepsOk(s.Top().phase.req, s.Top().phase.p, e.acc); }
  }

  lemma ClaimsStep(s: State, e: Event)
    requires Claims(s) && Shape(s) && Step(s, e).Some?
    ensures Claims(Step(s, e).value)
  {
    hide Class;
    hide HdrAt;
    hide FirstIn;
    hide Legal;
  }

  lemma Later(s: State)
    requires Items(s)
    ensures Items(s.(t := s.t + 1))
  {
  }

  lemma PurgeItems(s: State, slot: nat, gone: seq<Item>)
    requires Items(s) && Shape(s) && OnPurge(s, slot, gone).Some?
    ensures Items(OnPurge(s, slot, gone).value.(t := s.t + 1))
  {
    hide NotOf;
    var s' := OnPurge(s, slot, gone).value;
    forall k | 0 <= k < 3 ensures QueueOk(s'.clients, s'.t, s'.queues[k], k) {
      NotOfSub(s.queues[k], slot);
    }
    Later(s');
  }

  lemma StartItems(s: State, it: Item)
    requires Items(s) && OnStart(s, it).Some?
    ensures Items(OnStart(s, it).value.(t := s.t + 1))
  {
    assert QueueOk(s.clients, s.t, s.queues[FirstQueue(s.queues, s.Owner())], FirstQueue(s.queues, s.Owner()));
    Later(OnStart(s, it).value);
  }

  lemma EnqueueItems(s: State, it: Item)
    requires Items(s) && OnEnqueue(s, it).Some?
    ensures Items(OnEnqueue(s, it).value.(t := s.t + 1))
  {
    Later(OnEnqueue(s, it).value);
  }

  lemma ConnectItems(s: State, slot: nat)
    requires Items(s) && OnConnect(s, slot).Some?
    ensures Items(OnConnect(s, slot).value.(t := s.t + 1))
  {
    Later(OnConnect(s, slot).value);
  }

  /** Steps that only move the stack and the claim. */
  lemma StackItems(s: State, s': State)
    requires Items(s) && s'.clients == s.clients && s'.nextCid == s.nextCid && s'.queues == s.queues
    requires s'.t == s.t + 1
    requires s'.inbox.None? || s'.inbox == s.inbox
             || (s'.inbox.value.uid == s.t && s'.inbox.value.slot in s.clients
                 && s'.inbox.value.cid == s.clients[s'.inbox.value.slot])
    requires |s'.stack| <= |s.stack| && forall i :: 0 <= i < |s'.stack| ==> s'.stack[i].item == s.stack[i].item
    requires s'.claim.None? || s'.claim == s.claim
             || (s.stack != [] && s'.claim.value.slot == s.Top().item.slot && s'.claim.value.cid == s.Top().item.cid)
    ensures Items(s')
  {
  }

  lemma OtherItems(s: State, e: Event)
    requires Items(s) && Step(s, e).Some? && !e.Connect? && !e.Enqueue? && !e.Start? && !e.Purge?
    ensures Items(Step(s, e).value)
  {
    hide Apply;
    hide Items;
    SameClients(s, e);
    if OnTop(s, e) { TopStep(s, e); } else { SideStep(s, e); }
    StackItems(s, Step(s, e).value);
  }

  lemma SameClients(s: State, e: Event)
    requires Apply(s, e).Some? && !e.Connect? && !e.Enqueue? && !e.Start? && !e.Purge?
    ensures var s' := Apply(s, e).value;
            && s'.clients == s.clients && s'.nextCid == s.nextCid
            && (s'.claim.None? || s'.claim == s.claim
                || (s.stack != [] && s'.claim.value.slot == s.Top().item.slot
                    && s'.claim.value.cid == s.Top().item.cid))
  {
    hide MB.Next;
    hide WithVal;
    hide Legal;
  }

  lemma ItemsStep(s: State, e: Event)
    requires Items(s) && Shape(s) && Step(s, e).Some?
    ensures Items(Step(s, e).value)
  {
    hide Items;
    hide Shape;
    match e {
      case Connect(slot) => ConnectItems(s, slot);
      case Enqueue(it) => EnqueueItems(s, it);
      case Start(it) => StartItems(s, it);
      case Purge(slot, gone) => PurgeItems(s, slot, gone);
      case _ => OtherItems(s, e);
    }
  }

  lemma PurgeInOrder(s: State, slot: nat, gone: seq<Item>)
    requires InOrder(s) && OnPurge(s, slot, gone).Some?
    ensures InOrder(OnPurge(s, slot, gone).value)
  {
    hide NotOf;
    hide Of;
    hide Sorted;
    var s' := OnPurge(s, slot, gone).value;
    forall k | 0 <= k < 3
      ensures Sorted(s'.queues[k])
      ensures forall i :: 0 <= i < |s'.queues[k]| ==> s'.queues[k][i] in s.queues[k]
    {
      NotOfSub(s.queues[k], slot);
      NotOfSorted(s.queues[k], slot);
    }
  }

  lemma StartInOrder(s: State, it: Item)
    requires InOrder(s) && OnStart(s, it).Some?
    ensures InOrder(OnStart(s, it).value)
  {
    hide Begin;
    hide FirstIn;
    hide FirstQueue;
    hide Without;
    hide Sorted;
    var k := FirstQueue(s.queues, s.Owner());
    WithoutSorted(s.queues[k], FirstIn(s.queues[k], s.Owner()));
  }

  lemma WithoutSorted(q: seq<Item>, i: nat)
    requires Sorted(q) && i < |q|
    ensures Sorted(Without(q, i)) && forall j :: 0 <= j < |Without(q, i)| ==> Without(q, i)[j] in q
  {
  }

  lemma EnqueueInOrder(s: State, it: Item)
    requires InOrder(s) && OnEnqueue(s, it).Some?
    ensures InOrder(OnEnqueue(s, it).value)
  {
  }

  lemma OtherInOrder(s: State, e: Event)
    requires InOrder(s) && Step(s, e).Some? && !e.Enqueue? && !e.Start? && !e.Purge?
    ensures InOrder(Step(s, e).value)
  {
    hide Apply;
    hide Sorted;
    if OnTop(s, e) { TopStep(s, e); } else { SideStep(s, e); }
  }

  lemma InOrderStep(s: State, e: Event)
    requires InOrder(s) && Step(s, e).Some?
    ensures InOrder(Step(s, e).value)
  {
    hide Sorted;
    match e {
      case Enqueue(it) => EnqueueInOrder(s, it);
      case Start(it) => StartInOrder(s, it);
      case Purge(slot, gone) => PurgeInOrder(s, slot, gone);
      case _ => OtherInOrder(s, e);
    }
  }

  lemma InvStep(s: State, e: Event)
    requires Inv(s) && Step(s, e).Some?
    ensures Inv(Step(s, e).value)
  {
    ShapeStep(s, e);
    FramesStep(s, e);
    ClaimsStep(s, e);
    ItemsStep(s, e);
    InOrderStep(s, e);
  }

  /** Every reachable state satisfies the invariant. */
  lemma {:induction false} Always(hasReset: bool, log: seq<Event>)
    requires Reachable(hasReset, log)
    ensures Inv(After(hasReset, log))
  {
    if log != [] {
      Always(hasReset, log[..|log| - 1]);
      InvStep(After(hasReset, log[..|log| - 1]), log[|log| - 1]);
    }
  }
}
