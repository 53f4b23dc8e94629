// Mailbox transactions inside a run: what the daemon answers is what the protocol makes of the
// register accesses of that one transaction, whatever was drained in between.

module MailRuns {
  import opened Bytes
  import opened Wire
  import opened Machine
  import opened Invariants
  import opened ClaimRuns
  import MB = Mailbox

  /** The mailbox accesses of every executing item, innermost last. */
  function Transcripts(log: seq<Event>): seq<seq<MB.Access>> {
    if log == [] then []
    else
      var r, e := Transcripts(log[..|log| - 1]), log[|log| - 1];
      if e.Start? then r + [[]]
      else if e.Finish? && r != [] then r[..|r| - 1]
      else if e.Mb? && r != [] then r[|r| - 1 := Last(r) + [e.acc]]
      else r
  }

  predicate IsMail(it: Item) { it.hdr.typ == MAILBOX && MailOk(it.body) && MailReq(it.body).Valid() }

  /** The frame stands where its accesses lead. */
  ghost predicate Follows(f: Frame, accs: seq<MB.Access>) {
    && (f.phase.Mail? ==> f.phase.req.Valid() && MB.Run(f.phase.req, accs) == Some(f.phase.p))
    && (IsMail(f.item) ==> f.phase.Answered? || (f.phase.Mail? && f.phase.req == MailReq(f.item.body)))
  }

  ghost predicate AllFollow(stack: seq<Frame>, ts: seq<seq<MB.Access>>) {
    |ts| == |stack| && forall i :: 0 <= i < |stack| ==> Follows(stack[i], ts[i])
  }

  lemma BeginFollows(it: Item, owner: Option<nat>, hasReset: bool)
    ensures Follows(Frame(it, Begin(it, owner, hasReset)), [])
  {
  }

  lemma MbFollows(s: State, slice: byte, a: MB.Access, accs: seq<MB.Access>)
    requires OnMb(s, slice, a).Some? && s.stack != [] && Follows(s.Top(), accs) && OnMb(s, slice, a).value.stack != []
    ensures Follows(OnMb(s, slice, a).value.Top(), accs + [a])
  {
    hide IsMail;
    hide MB.Next;
    assert (accs + [a])[..|accs|] == accs;
  }

  /** Nothing but the protocol leads into, or on from, a transaction. */
  lemma TopFollows(s: State, e: Event, accs: seq<MB.Access>)
    requires Apply(s, e).Some? && OnTop(s, e) && !e.Mb? && s.stack != [] && Follows(s.Top(), accs)
    requires FrameOk(s.Top()) && Apply(s, e).value.stack != []
    ensures Follows(Apply(s, e).value.Top(), accs)
  {
    hide MB.Run;
    hide Legal;
    hide WithVal;
    hide CleanupOps;
  }

  lemma FollowStep(s: State, e: Event, ts: seq<seq<MB.Access>>)
    requires AllFollow(s.stack, ts) && Frames(s) && Step(s, e).Some?
    ensures AllFollow(Step(s, e).value.stack,
                      if e.Start? then ts + [[]]
                      else if e.Finish? && ts != [] then ts[..|ts| - 1]
                      else if e.Mb? && ts != [] then ts[|ts| - 1 := Last(ts) + [e.acc]]
                      else ts)
  {
    hide Apply;
    hide Follows;
    hide FrameOk;
    if e.Enqueue? || e.Start? || e.Purge? {
      QueueStep(s, e);
      if e.Start? { BeginFollows(e.item, s.Owner(), s.hasReset); }
    } else if OnTop(s, e) {
      TopStep(s, e);
      if e.Mb? { MbTop(s, e.slice, e.acc, Last(ts)); } else { TopFollows(s, e, Last(ts)); }
    } else {
      SideStep(s, e);
    }
  }

  lemma MbTop(s: State, slice: byte, a: MB.Access, accs: seq<MB.Access>)
    requires Apply(s, Mb(slice, a)).Some? && s.stack != [] && Follows(s.Top(), accs)
    requires Apply(s, Mb(slice, a)).value.stack != []
    ensures Follows(Apply(s, Mb(slice, a)).value.Top(), accs + [a])
  {
    MbFollows(s, slice, a, accs);
  }

  /** In every run, every mailbox item stands where its own accesses lead. */
  lemma {:induction false} Following(hasReset: bool, log: seq<Event>)
    requires Reachable(hasReset, log)
    ensures AllFollow(After(hasReset, log).stack, Transcripts(log))
  {
    hide Step;
    if log != [] {
      var k := |log| - 1;
      At(hasReset, log, k);
      assert log[..k + 1] == log;
      Following(hasReset, log[..k]);
      Always(hasReset, log[..k]);
      FollowStep(After(hasReset, log[..k]), log[k], Transcripts(log[..k]));
    }
  }

  /** The answer to a mailbox request that was carried out: the transaction is over, its status is
      the answer's, and with OK the body carries the command and the payload of the packet read
      from the response window, which has a length of 6 to 1024 and a matching checksum. */
  lemma MailboxAnswer(hasReset: bool, log: seq<Event>, k: nat)
    requires Reachable(hasReset, log) && k < |log| && log[k].Reply?
    requires Executing(log[..k]) != [] && IsMail(Last(Executing(log[..k])))
    ensures Transcripts(log[..k]) != []
    ensures IsVerdict(Last(Executing(log[..k])).body, Last(Transcripts(log[..k])), log[k].status, log[k].body)
  {
    hide Step;
    hide IsVerdict;
    hide IsMail;
    hide Executing;
    hide Transcripts;
    hide MayAnswer;
    hide Follows;
    At(hasReset, log, k);
    Always(hasReset, log[..k]);
    Readings(hasReset, log[..k]);
    Following(hasReset, log[..k]);
    var s := After(hasReset, log[..k]);
    AnswerAt(s, log[k]);
    VerdictOf(s.Top(), Last(Transcripts(log[..k])), log[k].status, log[k].body);
  }

  /** The answer is what the accesses of the transaction amount to. */
  ghost predicate IsVerdict(b: seq<byte>, accs: seq<MB.Access>, status: Status, body: seq<byte>) {
    && MailOk(b) && MailReq(b).Valid()
    && var run := MB.Run(MailReq(b), accs);
       && run.Some? && run.value.Done? && status == run.value.st
       && (status != OK ==> body == MailHead(b, b[1], 0))
       && (status == OK ==>
             var got := MB.RespBytes(accs);
             && |got| >= 4 && MB.DeclaredLen(got) <= |got| && MB.WellFormed(got[..MB.DeclaredLen(got)])
             && body == MailHead(b, got[0], MB.DeclaredLen(got) - 6) + got[4..MB.DeclaredLen(got) - 2])
  }

  lemma VerdictOf(f: Frame, accs: seq<MB.Access>, status: Status, body: seq<byte>)
    requires Follows(f, accs) && IsMail(f.item) && MayAnswer(f, status, body)
    ensures IsVerdict(f.item.body, accs, status, body)
  {
    hide MB.Run;
    hide MB.RespBytes;
    hide MB.WellFormed;
    MB.ResultMeans(MailReq(f.item.body), accs);
  }

  lemma AnswerAt(s: State, e: Event)
    requires Shape(s) && s.stack != [] && e.Reply? && Step(s, e).Some?
    ensures MayAnswer(s.Top(), e.status, e.body)
  {
    hide MayAnswer;
  }

  // --- Waiting transactions ------------------------------------------------------------------

  /** Frame i is item x, waiting for its response. */
  predicate WaitsAt(s: State, i: nat, x: Item) {
    i < |s.stack| && s.stack[i].item == x && Waiting(s.stack[i])
  }

  lemma OnlyMbMoves(s: State, e: Event)
    requires Apply(s, e).Some? && OnTop(s, e) && s.stack != [] && Waiting(s.Top())
    ensures e.Mb?
  {
  }

  /** It goes on waiting until it makes an access itself. */
  lemma WaitStep(s: State, e: Event, i: nat, x: Item)
    requires WaitsAt(s, i, x) && Step(s, e).Some? && !(e.Mb? && |s.stack| == i + 1)
    ensures WaitsAt(Step(s, e).value, i, x)
  {
    hide Apply;
    if e.Enqueue? || e.Start? || e.Purge? {
      QueueStep(s, e);
    } else if OnTop(s, e) {
      TopStep(s, e);
      if i == |s.stack| - 1 { OnlyMbMoves(s, e); }
    } else {
      SideStep(s, e);
    }
  }

  lemma BelowTopWaits(hasReset: bool, log: seq<Event>, i: nat)
    requires Reachable(hasReset, log) && i + 1 < |Executing(log)|
    ensures WaitsAt(After(hasReset, log), i, Executing(log)[i])
  {
    hide Run;
    hide Executing;
    Always(hasReset, log);
    Readings(hasReset, log);
  }

  /** A transaction that waits when a claim is granted, or anything else happens further in, makes
      at least one more access before it is answered. */
  lemma WaitingGoesOn(hasReset: bool, log: seq<Event>, g: nat, i: nat, k: nat) returns (m: nat)
    requires Reachable(hasReset, log) && g < k < |log| && i + 1 < |Executing(log[..g])|
    requires log[k].Reply? && |Executing(log[..k])| == i + 1
    ensures g <= m < k && log[m].Mb? && |Executing(log[..m])| == i + 1
    ensures Executing(log[..m])[i] == Executing(log[..g])[i]
  {
    hide Run;
    hide Step;
    hide Executing;
    hide WaitsAt;
    var x := Executing(log[..g])[i];
    Prefix(hasReset, log, g);
    BelowTopWaits(hasReset, log[..g], i);
    m := g;
    while m < k && !(log[m].Mb? && |Executing(log[..m])| == i + 1)
      invariant g <= m <= k && Reachable(hasReset, log[..m]) && WaitsAt(After(hasReset, log[..m]), i, x)
    {
      At(hasReset, log, m);
      Readings(hasReset, log[..m]);
      WaitStep(After(hasReset, log[..m]), log[m], i, x);
      m := m + 1;
    }
    Readings(hasReset, log[..m]);
    WaitingItem(After(hasReset, log[..m]), i, x);
    if m == k {
      At(hasReset, log, k);
      Always(hasReset, log[..k]);
      NoReplyYet(After(hasReset, log[..k]), log[k], i, x);
    }
  }

  lemma WaitingItem(s: State, i: nat, x: Item)
    requires WaitsAt(s, i, x)
    ensures i < |s.stack| && s.stack[i].item == x
  {
  }

  lemma NoReplyYet(s: State, e: Event, i: nat, x: Item)
    requires WaitsAt(s, i, x) && |s.stack| == i + 1 && e.Reply? && Shape(s)
    ensures Step(s, e).None?
  {
  }
}
