// Every datagram is answered exactly once, unless its client goes away first, and the answer
// echoes the request's header.

module Responses {
  import opened Bytes
  import opened Wire
  import opened Machine
  import opened Invariants

  function AsNat(b: bool): nat { if b then 1 else 0 }

  // --- Where datagram u can be ---------------------------------------------------------------

  function InQueue(q: seq<Item>, u: nat): nat {
    if q == [] then 0 else AsNat(q[0].uid == u) + InQueue(q[1..], u)
  }

  function InQueues(qs: Queues, u: nat): nat {
    InQueue(qs[0], u) + InQueue(qs[1], u) + InQueue(qs[2], u)
  }

  /** Executing and still owed an answer. */
  function Owed(stack: seq<Frame>, u: nat): nat {
    if stack == [] then 0
    else
      var f := stack[|stack| - 1];
      Owed(stack[..|stack| - 1], u) + AsNat(!f.phase.Answered? && f.item.uid == u)
  }

  function InInbox(s: State, u: nat): nat {
    AsNat(s.inbox.Some? && s.inbox.value.uid == u)
  }

  // --- What the events say of datagram u -----------------------------------------------------

  function Received(log: seq<Event>, u: nat): nat {
    AsNat(u < |log| && log[u].Receive?)
  }

  /** Answers sent to it. */
  function Replies(log: seq<Event>, u: nat): nat {
    if log == [] then 0
    else
      var e := log[|log| - 1];
      Replies(log[..|log| - 1], u) + AsNat(e.Reply? && e.uid == u)
  }

  /** Times it was thrown away with its client. */
  function Purges(log: seq<Event>, u: nat): nat {
    if log == [] then 0
    else
      var e := log[|log| - 1];
      Purges(log[..|log| - 1], u) + if e.Purge? then InQueue(e.gone, u) else 0
  }

  // --- Counting ------------------------------------------------------------------------------

  lemma {:induction false} CountConcat(a: seq<Item>, b: seq<Item>, u: nat)
    ensures InQueue(a + b, u) == InQueue(a, u) + InQueue(b, u)
  {
    if a == [] {
      assert a + b == b;
    } else {
      assert (a + b)[1..] == a[1..] + b;
      CountConcat(a[1..], b, u);
    }
  }

  lemma CountOne(it: Item, u: nat)
    ensures InQueue([it], u) == AsNat(it.uid == u)
  {
    assert [it][1..] == [];
  }

  lemma CountWithout(q: seq<Item>, i: nat, u: nat)
    requires i < |q|
    ensures InQueue(q, u) == InQueue(Without(q, i), u) + AsNat(q[i].uid == u)
  {
    assert q == q[..i] + ([q[i]] + q[i + 1..]);
    CountConcat(q[..i], [q[i]] + q[i + 1..], u);
    CountConcat([q[i]], q[i + 1..], u);
    CountConcat(q[..i], q[i + 1..], u);
    CountOne(q[i], u);
  }

  lemma {:induction false} CountSplit(q: seq<Item>, slot: nat, u: nat)
    ensures InQueue(q, u) == InQueue(Of(q, slot), u) + InQueue(NotOf(q, slot), u)
  {
    if q != [] {
      CountSplit(q[1..], slot, u);
      CountOne(q[0], u);
      CountConcat([q[0]], Of(q[1..], slot), u);
      CountConcat([q[0]], NotOf(q[1..], slot), u);
      assert [] + Of(q[1..], slot) == Of(q[1..], slot) && [] + NotOf(q[1..], slot) == NotOf(q[1..], slot);
    }
  }

  lemma OwedPush(stack: seq<Frame>, f: Frame, u: nat)
    ensures Owed(stack + [f], u) == Owed(stack, u) + AsNat(!f.phase.Answered? && f.item.uid == u)
  {
    assert (stack + [f])[..|stack|] == stack;
  }

  lemma OwedTop(s: State, phase: Phase, u: nat)
    requires s.stack != []
    ensures Owed(s.WithTop(phase).stack, u)
         == Owed(s.stack[..|s.stack| - 1], u) + AsNat(!phase.Answered? && s.Top().item.uid == u)
  {
    var n := |s.stack| - 1;
    assert s.WithTop(phase).stack[..n] == s.stack[..n];
  }

  // --- Conservation --------------------------------------------------------------------------

  /** Datagram u is known to the daemon and not yet answered. */
  function Pending(s: State, u: nat): nat {
    InInbox(s, u) + InQueues(s.queues, u) + Owed(s.stack, u)
  }

  predicate Balance(s: State, e: Event, s': State, u: nat) {
    Pending(s, u) + AsNat(e.Receive? && u == s.t)
    == Pending(s', u) + AsNat(e.Reply? && e.uid == u) + if e.Purge? then InQueue(e.gone, u) else 0
  }

  lemma EnqueueBalance(s: State, it: Item, u: nat)
    requires OnEnqueue(s, it).Some?
    ensures Balance(s, Enqueue(it), OnEnqueue(s, it).value, u)
  {
    CountConcat(s.queues[Class(it.hdr.flags)], [it], u);
    CountOne(it, u);
  }

  lemma CountUpdate(qs: Queues, k: nat, q: seq<Item>, u: nat)
    requires k < 3
    ensures InQueues(qs[k := q], u) + InQueue(qs[k], u) == InQueues(qs, u) + InQueue(q, u)
  {
  }

  lemma BeginOwes(it: Item, owner: Option<nat>, hasReset: bool)
    ensures !Begin(it, owner, hasReset).Answered?
  {
  }

  lemma StartBalance(s: State, it: Item, u: nat)
    requires OnStart(s, it).Some?
    ensures Balance(s, Start(it), OnStart(s, it).value, u)
  {
    hide Begin;
    hide FirstIn;
    hide FirstQueue;
    var k := FirstQueue(s.queues, s.Owner());
    var i := FirstIn(s.queues[k], s.Owner());
    CountWithout(s.queues[k], i, u);
    CountUpdate(s.queues, k, Without(s.queues[k], i), u);
    OwedPush(s.stack, Frame(it, Begin(it, s.Owner(), s.hasReset)), u);
    BeginOwes(it, s.Owner(), s.hasReset);
  }

  lemma PurgeBalance(s: State, slot: nat, gone: seq<Item>, u: nat)
    requires OnPurge(s, slot, gone).Some?
    ensures Balance(s, Purge(slot, gone), OnPurge(s, slot, gone).value, u)
  {
    CountSplit(s.queues[0], slot, u);
    CountSplit(s.queues[1], slot, u);
    CountSplit(s.queues[2], slot, u);
    CountConcat(Of(s.queues[0], slot), Of(s.queues[1], slot), u);
    CountConcat(Of(s.queues[0], slot) + Of(s.queues[1], slot), Of(s.queues[2], slot), u);
  }

  /** Events on the innermost item, its answer included. */
  lemma TopBalance(s: State, s': State, u: nat)
    requires s.stack != [] && s'.stack != [] && s'.stack == s.WithTop(s'.Top().phase).stack && !s.Top().phase.Answered?
    ensures Owed(s.stack, u) == Owed(s'.stack, u) + AsNat(s'.Top().phase.Answered? && s.Top().item.uid == u)
  {
    OwedTop(s, s'.Top().phase, u);
  }

  lemma OtherBalance(s: State, e: Event, u: nat)
    requires Apply(s, e).Some? && !e.Enqueue? && !e.Start? && !e.Purge?
    ensures Balance(s, e, Apply(s, e).value, u)
  {
    hide Apply;
    var s' := Apply(s, e).value;
    if OnTop(s, e) {
      TopStep(s, e);
      TopBalance(s, s', u);
    } else {
      SideStep(s, e);
    }
  }

  lemma BalanceStep(s: State, e: Event, u: nat)
    requires Step(s, e).Some?
    ensures Balance(s, e, Step(s, e).value, u)
  {
    match e
    case Enqueue(it) => EnqueueBalance(s, it, u);
    case Start(it) => StartBalance(s, it, u);
    case Purge(slot, gone) => PurgeBalance(s, slot, gone, u);
    case _ => OtherBalance(s, e, u);
  }

  /** Conservation, for every datagram of every run: received once, it is at all times in exactly
      one place, waiting to be looked at, queued, executing, answered, or purged. */
  lemma {:induction false} Conservation(hasReset: bool, log: seq<Event>, u: nat)
    requires Reachable(hasReset, log)
    ensures var s := After(hasReset, log);
            Received(log, u)
            == Replies(log, u) + Purges(log, u) + InInbox(s, u) + InQueues(s.queues, u) + Owed(s.stack, u)
  {
    hide Step;
    if log != [] {
      var k := |log| - 1;
      At(hasReset, log, k);
      assert log[..k + 1] == log;
      Conservation(hasReset, log[..k], u);
      TimeIs(hasReset, log[..k]);
      BalanceStep(After(hasReset, log[..k]), log[k], u);
    }
  }

  /** No datagram is answered twice, and an answer always answers a datagram. */
  lemma AnsweredAtMostOnce(hasReset: bool, log: seq<Event>, u: nat)
    requires Reachable(hasReset, log)
    ensures Replies(log, u) <= 1
    ensures Replies(log, u) == 1 ==> u < |log| && log[u].Receive? && Purges(log, u) == 0
  {
    Conservation(hasReset, log, u);
  }

  /** With the queues empty and nothing executing, every datagram of a client that did not go away
      has been answered. */
  lemma AllAnswered(hasReset: bool, log: seq<Event>, u: nat)
    requires Reachable(hasReset, log) && u < |log| && log[u].Receive?
    requires After(hasReset, log).Idle() && After(hasReset, log).queues == [[], [], []]
    ensures Replies(log, u) + Purges(log, u) == 1
  {
    Conservation(hasReset, log, u);
  }

  // --- Echo ----------------------------------------------------------------------------------

  predicate LetterFrom(log: seq<Event>, l: Letter) {
    l.uid < |log| && log[l.uid] == Receive(l.slot, l.msg)
  }

  predicate ItemFrom(log: seq<Event>, it: Item) {
    it.uid < |log| && log[it.uid].Receive? && log[it.uid].slot == it.slot && Acceptable(log[it.uid].msg)
    && it.hdr == HdrAt(log[it.uid].msg) && it.body == log[it.uid].msg[HDR_LEN..]
  }

  ghost predicate AllFrom(s: State, log: seq<Event>) {
    && (s.inbox.Some? ==> LetterFrom(log, s.inbox.value))
    && (forall k, i :: 0 <= k < 3 && 0 <= i < |s.queues[k]| ==> ItemFrom(log, s.queues[k][i]))
    && (forall i :: 0 <= i < |s.stack| ==> ItemFrom(log, s.stack[i].item))
  }

  lemma PurgeFrom(s: State, log: seq<Event>, slot: nat, gone: seq<Item>)
    requires AllFrom(s, log) && OnPurge(s, slot, gone).Some?
    ensures AllFrom(OnPurge(s, slot, gone).value, log)
  {
    var s' := OnPurge(s, slot, gone).value;
    forall k, i | 0 <= k < 3 && 0 <= i < |s'.queues[k]| ensures ItemFrom(log, s'.queues[k][i]) {
      NotOfSub(s.queues[k], slot);
      assert s'.queues[k][i] in s.queues[k];
    }
  }

  lemma StartFrom(s: State, log: seq<Event>, it: Item)
    requires AllFrom(s, log) && OnStart(s, it).Some?
    ensures AllFrom(OnStart(s, it).value, log)
  {
    hide ItemFrom;
    hide Begin;
  }

  lemma EnqueueFrom(s: State, log: seq<Event>, it: Item)
    requires AllFrom(s, log) && OnEnqueue(s, it).Some?
    ensures AllFrom(OnEnqueue(s, it).value, log)
  {
  }

  lemma OtherFrom(s: State, log: seq<Event>, e: Event)
    requires AllFrom(s, log + [e]) && s.t == |log| && Apply(s, e).Some? && !e.Enqueue? && !e.Start? && !e.Purge?
    ensures AllFrom(Apply(s, e).value, log + [e])
  {
    hide Apply;
    hide ItemFrom;
    if OnTop(s, e) { TopStep(s, e); } else { SideStep(s, e); }
  }

  lemma FromGrows(s: State, log: seq<Event>, e: Event)
    requires AllFrom(s, log)
    ensures AllFrom(s, log + [e])
  {
    assert forall u :: 0 <= u < |log| ==> (log + [e])[u] == log[u];
  }

  lemma FromStep(s: State, log: seq<Event>, e: Event)
    requires AllFrom(s, log + [e]) && s.t == |log| && Step(s, e).Some?
    ensures AllFrom(Step(s, e).value, log + [e])
  {
    if e.Purge? {
      PurgeFrom(s, log + [e], e.slot, e.gone);
    } else if e.Start? {
      StartFrom(s, log + [e], e.item);
    } else if e.Enqueue? {
      EnqueueFrom(s, log + [e], e.item);
    } else {
      OtherFrom(s, log, e);
    }
  }

  lemma {:induction false} Provenance(hasReset: bool, log: seq<Event>)
    requires Reachable(hasReset, log)
    ensures AllFrom(After(hasReset, log), log)
  {
    hide Step;
    if log != [] {
      var k := |log| - 1;
      At(hasReset, log, k);
      assert log[..k + 1] == log && log[..k] + [log[k]] == log;
      Provenance(hasReset, log[..k]);
      TimeIs(hasReset, log[..k]);
      FromGrows(After(hasReset, log[..k]), log[..k], log[k]);
      FromStep(After(hasReset, log[..k]), log[..k], log[k]);
    }
  }

  /** Every answer goes to the client that asked and echoes the header of its datagram, so its
      type and sequence number are the request's; the body fits a message. */
  lemma EchoesRequest(hasReset: bool, log: seq<Event>, k: nat)
    requires Reachable(hasReset, log) && k < |log| && log[k].Reply?
    ensures var u := log[k].uid;
            u < k && log[u].Receive? && log[u].slot == log[k].slot && log[k].req == EchoHdr(log[u].msg)
    ensures |log[k].body| <= MSG_MAX
  {
    At(hasReset, log, k);
    Provenance(hasReset, log[..k]);
    Always(hasReset, log[..k]);
    var s := After(hasReset, log[..k]);
    if s.inbox.None? { ReplyFits(s.Top(), log[k].status, log[k].body); }
  }

  /** The datagram sent carries the request's type with the response bit and its sequence number. */
  lemma EchoOnTheWire(hasReset: bool, log: seq<Event>, k: nat)
    requires Reachable(hasReset, log) && k < |log| && log[k].Reply? && |log[k].body| <= MSG_MAX
    requires log[k].uid < k && log[log[k].uid].Receive? && |log[log[k].uid].msg| >= HDR_LEN
    ensures var h := HdrAt(log[log[k].uid].msg);
            HdrAt(Response(log[k].req, log[k].status, log[k].body))
            == Hdr(VER, RespType(h.typ), log[k].status, h.seq_, |log[k].body|)
  {
    EchoesRequest(hasReset, log, k);
    var h := log[k].req;
    HdrRoundTrip(Hdr(VER, RespType(h.typ), log[k].status, h.seq_, |log[k].body|), log[k].body);
  }

  lemma ReplyFits(f: Frame, status: Status, body: seq<byte>)
    requires FrameOk(f) && MayAnswer(f, status, body) && |f.item.body| <= MSG_MAX
    ensures |body| <= MSG_MAX
  {
  }

  // --- Purges --------------------------------------------------------------------------------

  lemma LeavingStep(s: State, e: Event)
    requires Shape(s) && Step(s, e).Some? && Step(s, e).value.leaving.Some?
    ensures e == Hangup(Step(s, e).value.leaving.value)
            || (Step(s, e).value.leaving == s.leaving && (e.Cleanup? || e.Vacate?))
  {
  }

  /** From a hang-up to the purge nothing happens but the holder's cleanup. */
  lemma {:induction false} LeavingSince(hasReset: bool, log: seq<Event>) returns (h: nat)
    requires Reachable(hasReset, log) && After(hasReset, log).leaving.Some?
    ensures h < |log| && log[h] == Hangup(After(hasReset, log).leaving.value)
    ensures forall i :: h < i < |log| ==> log[i].Cleanup? || log[i].Vacate?
    decreases |log|
  {
    hide Step;
    var k := |log| - 1;
    At(hasReset, log, k);
    assert log[..k + 1] == log;
    Always(hasReset, log[..k]);
    LeavingStep(After(hasReset, log[..k]), log[k]);
    if log[k].Hangup? {
      h := k;
    } else {
      h := LeavingSince(hasReset, log[..k]);
    }
  }

  lemma {:induction false} FoundIn(q: seq<Item>, slot: nat, u: nat) returns (i: nat)
    requires InQueue(Of(q, slot), u) > 0
    ensures i < |q| && q[i].uid == u && q[i].slot == slot
  {
    hide InQueue;
    if q == [] {
      NoneIn(u);
    } else if q[0].slot == slot && q[0].uid == u {
      i := 0;
    } else {
      if q[0].slot == slot {
        CountOne(q[0], u);
        CountConcat([q[0]], Of(q[1..], slot), u);
      } else {
        assert Of(q, slot) == Of(q[1..], slot);
      }
      i := FoundIn(q[1..], slot, u);
      i := i + 1;
    }
  }

  lemma NoneIn(u: nat)
    ensures InQueue([], u) == 0
  {
  }

  lemma PurgedItem(s: State, log: seq<Event>, slot: nat, gone: seq<Item>, u: nat)
    requires AllFrom(s, log) && OnPurge(s, slot, gone).Some? && InQueue(gone, u) > 0
    ensures u < |log| && log[u].Receive? && log[u].slot == slot
  {
    var a, b, c := Of(s.queues[0], slot), Of(s.queues[1], slot), Of(s.queues[2], slot);
    CountConcat(a + b, c, u);
    CountConcat(a, b, u);
    var k := if InQueue(a, u) > 0 then 0 else if InQueue(b, u) > 0 then 1 else 2;
    var i := FoundIn(s.queues[k], slot, u);
    assert ItemFrom(log, s.queues[k][i]);
  }

  /** A datagram is thrown away only after its client hung up. */
  lemma {:induction false} PurgedAfterHangup(hasReset: bool, log: seq<Event>, u: nat) returns (h: nat)
    requires Reachable(hasReset, log) && Purges(log, u) > 0
    ensures u < h < |log| && log[u].Receive? && log[h] == Hangup(log[u].slot)
    decreases |log|
  {
    hide Step;
    var k := |log| - 1;
    At(hasReset, log, k);
    if Purges(log[..k], u) > 0 {
      h := PurgedAfterHangup(hasReset, log[..k], u);
    } else {
      Provenance(hasReset, log[..k]);
      PurgeIsLegal(After(hasReset, log[..k]), log[k]);
      PurgedItem(After(hasReset, log[..k]), log[..k], log[k].slot, log[k].gone, u);
      h := LeavingSince(hasReset, log[..k]);
    }
  }

  lemma PurgeIsLegal(s: State, e: Event)
    requires Step(s, e).Some? && e.Purge?
    ensures OnPurge(s, e.slot, e.gone).Some? && s.leaving == Some(e.slot)
  {
  }

  lemma {:induction false} CountedIn(q: seq<Item>, u: nat) returns (i: nat)
    requires InQueue(q, u) > 0
    ensures i < |q| && q[i].uid == u
  {
    if q[0].uid == u {
      i := 0;
    } else {
      i := CountedIn(q[1..], u);
      i := i + 1;
    }
  }

  lemma QueuedAt(s: State, log: seq<Event>, u: nat) returns (k: nat, i: nat)
    requires InQueues(s.queues, u) > 0 && AllFrom(s, log)
    ensures k < 3 && i < |s.queues[k]| && s.queues[k][i].uid == u && ItemFrom(log, s.queues[k][i])
  {
    var qs := s.queues;
    k := if InQueue(qs[0], u) > 0 then 0 else if InQueue(qs[1], u) > 0 then 1 else 2;
    i := CountedIn(qs[k], u);
  }

  /** So with the queues empty and nothing executing, every datagram whose client did not hang up
      after sending it has been answered exactly once. */
  lemma AnsweredUnlessGone(hasReset: bool, log: seq<Event>, u: nat)
    requires Reachable(hasReset, log) && u < |log| && log[u].Receive?
    requires After(hasReset, log).Idle() && After(hasReset, log).queues == [[], [], []]
    requires forall h :: u < h < |log| ==> log[h] != Hangup(log[u].slot)
    ensures Replies(log, u) == 1
  {
    hide Run;
    AllAnswered(hasReset, log, u);
    if Purges(log, u) > 0 {
      var h := PurgedAfterHangup(hasReset, log, u);
    }
  }
}
