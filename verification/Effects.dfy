// What one event does to the daemon, under the conditions that make it possible.

module Effects {
  import opened Bytes
  import opened Wire
  import opened Machine
  import MB = Mailbox

  ghost predicate OnTrack(hasReset: bool, log: seq<Event>, st: State) {
    Run(hasReset, log) == Some(st)
  }

  lemma OneStep(hasReset: bool, log: seq<Event>, st: State, e: Event)
    requires OnTrack(hasReset, log, st) && Step(st, e).Some?
    ensures OnTrack(hasReset, log + [e], Step(st, e).value)
  {
    Extend(hasReset, log, e);
  }

  lemma CleanupEffect(s: State, res: Result)
    requires s.ending.Some? && s.claim.Some? && s.ending.value < |s.claim.value.cleanup|
    requires Legal(s.claim.value.cleanup[s.ending.value], s.inflight, true, res)
    ensures Apply(s, Cleanup(s.claim.value.cleanup[s.ending.value], res))
            == Some(s.(ending := Some(s.ending.value + 1)))
  {
  }

  lemma VacateEffect(s: State)
    requires s.claim.Some? && s.ending == Some(|s.claim.value.cleanup|)
    ensures Apply(s, Vacate) == Some(s.(ending := None, claim := None))
  {
  }

  lemma ExpireEffect(s: State, now: nat)
    requires s.Idle() && s.claim.Some? && now > s.claim.value.deadline
    ensures Apply(s, Expire(now)) == Some(s.(ending := Some(0)))
  {
  }

  lemma HangupEffect(s: State, slot: nat)
    requires s.Idle() && slot in s.clients
    ensures Apply(s, Hangup(slot))
         == Some(s.(leaving := Some(slot), ending := if s.Owner() == Some(slot) then Some(0) else None))
  {
  }

  lemma PurgeEffect(s: State, slot: nat, gone: seq<Item>)
    requires s.leaving == Some(slot) && s.ending.None?
    requires gone == Of(s.queues[0], slot) + Of(s.queues[1], slot) + Of(s.queues[2], slot)
    ensures Apply(s, Purge(slot, gone))
         == Some(s.(leaving := None, clients := s.clients - {slot},
                    queues := [NotOf(s.queues[0], slot), NotOf(s.queues[1], slot), NotOf(s.queues[2], slot)]))
  {
  }

  lemma ConnectEffect(s: State, slot: nat)
    requires s.Idle() && slot < MAX_CLIENTS && slot !in s.clients && forall k :: 0 <= k < slot ==> k in s.clients
    ensures Apply(s, Connect(slot)) == Some(s.(clients := s.clients[slot := s.nextCid + 1], nextCid := s.nextCid + 1))
  {
  }

  lemma ReceiveEffect(s: State, slot: nat, msg: seq<byte>)
    requires s.Idle() && slot in s.clients && 0 < |msg| <= HDR_LEN + MSG_MAX
    ensures Apply(s, Receive(slot, msg)) == Some(s.(inbox := Some(Letter(s.t, slot, s.clients[slot], msg))))
  {
  }

  lemma EnqueueEffect(s: State)
    requires s.inbox.Some? && Acceptable(s.inbox.value.msg) && Queued(s.queues) + |s.stack| < MAX_QITEMS
    ensures var it := ItemOf(s.inbox.value);
            var k := Class(it.hdr.flags);
            Apply(s, Enqueue(it)) == Some(s.(inbox := None, queues := s.queues[k := s.queues[k] + [it]]))
  {
  }

  lemma RefuseEffect(s: State, status: Status)
    requires s.inbox.Some?
    requires if Acceptable(s.inbox.value.msg) then status == EBUSY && Queued(s.queues) + |s.stack| >= MAX_QITEMS
             else status == EINVAL
    ensures var l := s.inbox.value;
            Apply(s, Reply(l.uid, l.slot, EchoHdr(l.msg), status, [])) == Some(s.(inbox := None))
  {
  }

  lemma StartEffect(s: State, k: nat, i: nat)
    requires s.MayStart() && k == FirstQueue(s.queues, s.Owner()) < 3 && i == FirstIn(s.queues[k], s.Owner())
    ensures var it := s.queues[k][i];
            Apply(s, Start(it)) == Some(s.(queues := s.queues[k := Without(s.queues[k], i)],
                                           stack := s.stack + [Frame(it, Begin(it, s.Owner(), s.hasReset))]))
  {
    hide Begin;
  }

  lemma FinishEffect(s: State)
    requires s.stack != [] && s.Quiet() && s.Top().phase.Answered?
    ensures Apply(s, Finish(s.Top().item)) == Some(s.(stack := s.stack[..|s.stack| - 1]))
  {
  }

  ghost predicate InMail(s: State, req: MB.Req, p: MB.Phase) {
    s.stack != [] && s.Quiet() && s.Top().phase == Mail(req, p) && req.Valid()
  }

  /** s with the innermost item at phase p of its transaction. */
  ghost function MailAt(s: State, t: nat, req: MB.Req, p: MB.Phase, inflight: bool): State
    requires s.stack != []
  {
    s.WithTop(Mail(req, p)).(t := t, inflight := inflight)
  }

  /** The flag after a transaction moved from p to p'. */
  function Flag(p: MB.Phase, p': MB.Phase, inflight: bool): bool {
    if p.Check? && p'.Active() then true else if p.Active() && p'.Done? then false else inflight
  }

  lemma MbEffect(s: State, req: MB.Req, p: MB.Phase, a: MB.Access)
    requires InMail(s, req, p) && MB.Next(req, p, a).Some?
    ensures var p' := MB.Next(req, p, a).value;
            && Apply(s, Mb(req.slice, a)).Some?
            && Apply(s, Mb(req.slice, a)).value.(t := s.t + 1)
               == MailAt(s, s.t + 1, req, p', Flag(p, p', s.inflight))
  {
    hide MB.Next;
  }

  /** One access after another. */
  lemma MailTwice(s: State, t: nat, req: MB.Req, p: MB.Phase, fl: bool, t': nat, p': MB.Phase, fl': bool)
    requires s.stack != [] && s.Quiet() && req.Valid()
    ensures var m := MailAt(s, t, req, p, fl);
            InMail(m, req, p) && m.inflight == fl && MailAt(m, t', req, p', fl') == MailAt(s, t', req, p', fl')
  {
    var m := MailAt(s, t, req, p, fl);
    assert m.stack[|s.stack| - 1 := m.Top().(phase := Mail(req, p'))] == s.WithTop(Mail(req, p')).stack;
  }

  lemma GrantEffect(s: State, now: nat)
    requires Asks(s, CLAIM) && ClaimOk(s.Top().item.body)
    ensures var it := s.Top().item;
            Apply(s, Grant(now)) == Some(s.WithTop(Ready(OK, [])).(
              claim := Some(Claimed(it.slot, it.cid, now + 1000 * Get32(it.body, 0), CleanupOps(it.body)))))
  {
  }

  lemma ReleaseEffect(s: State)
    requires Asks(s, RELEASE)
    ensures Apply(s, Release) == Some(s.WithTop(Ready(OK, [])).(claim := None))
  {
  }

  lemma ResetEffect(s: State)
    requires Asks(s, RESET)
    ensures Apply(s, Reset) == Some(s.WithTop(Ready(OK, [])).(inflight := false))
  {
  }

  function OpsAfter(p: Phase, op: Op, res: Result): (q: Phase)
    requires p.Ops? && OP_LEN * (p.n + 1) <= |p.body|
    ensures q.Ops? && |q.body| == |p.body|
  {
    Ops(p.n + 1, res.Status(), if !op.write && res.Done? then WithVal(p.body, p.n, res.val) else p.body)
  }

  lemma AccessEffect(s: State, op: Op, res: Result)
    requires s.stack != [] && s.Quiet() && s.Top().phase.Ops? && Legal(op, s.inflight, false, res)
    requires var Ops(n, st, body) := s.Top().phase;
             st == OK && n < Count(s.Top().item) && OP_LEN * (n + 1) <= |body| && op == OpAt(body, n)
    ensures Apply(s, Access(op, res)) == Some(s.WithTop(OpsAfter(s.Top().phase, op, res)))
  {
  }

  lemma ReplyEffect(s: State, status: Status, body: seq<byte>)
    requires s.stack != [] && s.Quiet() && MayAnswer(s.Top(), status, body)
    ensures Apply(s, Reply(s.Top().item.uid, s.Top().item.slot, s.Top().item.hdr, status, body))
            == Some(s.WithTop(Answered))
  {
  }
}
