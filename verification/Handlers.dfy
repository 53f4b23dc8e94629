// How control messages and mailbox requests are answered, over every run, by the bytes of the
// datagram, the holder of the device and, for a mailbox, the accesses of the transaction.

module Handlers {
  import opened Bytes
  import opened Layout
  import opened Wire
  import opened Machine
  import opened Invariants
  import opened ClaimRuns
  import opened MailRuns
  import opened Service
  import MB = Mailbox
  import Tx = Transactions

  // --- Client ids ----------------------------------------------------------------------------

  /** No two connected clients have the same id. */
  predicate Distinct(clients: map<nat, nat>) {
    forall i, j :: i in clients && j in clients && clients[i] == clients[j] ==> i == j
  }

  lemma DistinctStep(s: State, e: Event)
    requires Items(s) && Distinct(s.clients) && Step(s, e).Some?
    ensures Distinct(Step(s, e).value.clients)
  {
    if !e.Connect? && !e.Enqueue? && !e.Start? && !e.Purge? {
      SameClients(s, e);
    }
  }

  lemma {:induction false} DistinctIds(hasReset: bool, log: seq<Event>)
    requires Reachable(hasReset, log)
    ensures Distinct(After(hasReset, log).clients)
  {
    hide Step;
    if log != [] {
      var k := |log| - 1;
      At(hasReset, log, k);
      assert log[..k + 1] == log;
      DistinctIds(hasReset, log[..k]);
      Always(hasReset, log[..k]);
      DistinctStep(After(hasReset, log[..k]), log[k]);
    }
  }

  /** So slots and ids tell the holder from the others alike. */
  lemma HolderById(s: State, it: Item, holder: Option<Item>)
    requires Items(s) && Distinct(s.clients) && Matches(s.claim, holder) && Known(s.clients, s.t, it)
    ensures s.Owner() == Some(it.slot) <==> holder.Some? && holder.value.cid == it.cid
    ensures s.Owner().None? <==> holder.None?
  {
  }

  // --- CLAIM, RELEASE, STATS, TRACE, RESET and the rest ---------------------------------------

  /** Another client than the item's holds the device. */
  predicate Foreign(holder: Option<Item>, it: Item) { holder.Some? && holder.value.cid != it.cid }

  predicate LeaseDecided(it: Item, holder: Option<Item>, st: int, last: Event) {
    && (st == 1 <==> !ClaimSized(it.body))
    && (st == 3 <==> ClaimSized(it.body) && Foreign(holder, it))
    && (st == 0 <==> holder == Some(it)) && st in {0, 1, 3}
    && if st == 0 then last.Grant? else last == Start(it)
  }

  predicate ResetDecided(it: Item, hasReset: bool, st: int, last: Event) {
    && st == (if |it.body| != 8 then 1 else if hasReset then 0 else 5)
    && if st == 0 then last.Reset? else last == Start(it)
  }

  /** The 8 bytes of a mailbox struct: slice and timeout as sent, command and length as given. */
  predicate MailHeadIs(b: seq<byte>, head: seq<byte>, cmd: int, n: int)
    requires |b| >= 8
  {
    |head| >= 8 && head[0] == b[0] && head[1] == cmd && U16(head, 2) == n && head[4..8] == b[4..8]
  }

  /** A MAILBOX whose length field is wrong, or whose slice or payload is out of range, is answered at
      once; the others are transactions. */
  predicate MailStands(it: Item, p: Phase, last: Event) {
    var b := it.body;
    if |b| < 8 || |b| != 8 + U16(b, 2) then p == Ready(1, []) && last == Start(it)
    else if b[0] >= 4 || |b| > 1026 then
      p.Ready? && p.st == 1 && |p.body| == 8 && MailHeadIs(b, p.body, b[1], 0) && last == Start(it)
    else p.Mail? && p.req == MB.Req(b[0], b[1], b[8..])
  }

  /** Where the handler of an item can be after the last event. */
  predicate ControlStands(it: Item, p: Phase, holder: Option<Item>, hasReset: bool, last: Event) {
    p.Answered? ||
    if it.hdr.typ == 4 then
      (p.Asked? && ClaimSized(it.body) && !Foreign(holder, it))
      || (p.Ready? && p.body == [] && LeaseDecided(it, holder, p.st, last))
    else if it.hdr.typ == 5 then
      || (p.Asked? && holder.Some? && !Foreign(holder, it))
      || (p == Ready(0, []) && (holder.None? || Foreign(holder, it)) && (last.Release? || last == Start(it)))
    else if it.hdr.typ == 12 then
      (p.Asked? && |it.body| == 8 && hasReset) || (p.Ready? && p.body == [] && ResetDecided(it, hasReset, p.st, last))
    else if it.hdr.typ in {7, 8} then p.Text? && last == Start(it)
    else if it.hdr.typ == 6 then MailStands(it, p, last)
    else it.hdr.typ in {1, 2, 3} || (p == Ready(5, []) && last == Start(it))
  }

  ghost predicate TopControl(s: State, log: seq<Event>) {
    s.stack != [] ==>
      log != [] && ControlStands(s.Top().item, s.Top().phase, Holder(log), s.hasReset, log[|log| - 1])
  }

  lemma ControlBegins(s: State, it: Item, holder: Option<Item>)
    requires Items(s) && Distinct(s.clients) && Matches(s.claim, holder) && OnStart(s, it).Some?
    ensures ControlStands(it, Begin(it, s.Owner(), s.hasReset), holder, s.hasReset, Start(it))
  {
    hide Distinct;
    hide CleanupOps;
    var k := FirstQueue(s.queues, s.Owner());
    assert QueueOk(s.clients, s.t, s.queues[k], k);
    HolderById(s, it, holder);
  }

  lemma ControlMoves(s: State, e: Event, holder: Option<Item>, last: Event)
    requires Apply(s, e).Some? && OnTop(s, e) && s.stack != [] && Apply(s, e).value.stack != [] && FrameOk(s.Top())
    requires ControlStands(s.Top().item, s.Top().phase, holder, s.hasReset, last)
    ensures var p := Apply(s, e).value.Top().phase;
            var holder' := if e.Grant? then Some(s.Top().item) else if e.Release? then None else holder;
            ControlStands(s.Top().item, p, holder', s.hasReset, e)
  {
    hide MB.Next;
    hide WithVal;
    hide Legal;
    hide MayAnswer;
  }

  /** While something executes, only its own events, a start or its end can happen. */
  lemma OnlyTopMoves(s: State, e: Event)
    requires Shape(s) && Apply(s, e).Some? && s.stack != []
    ensures e.Start? || e.Finish? || OnTop(s, e)
  {
  }

  lemma HolderAfter(log: seq<Event>, e: Event)
    ensures Holder(log + [e]) == if e.Grant? && Executing(log) != [] then Some(Last(Executing(log)))
                                 else if e.Release? || e.Vacate? then None else Holder(log)
  {
    assert (log + [e])[..|log|] == log;
  }

  lemma TopControlStep(s: State, log: seq<Event>, e: Event)
    requires Inv(s) && Distinct(s.clients) && Reads(s, Executing(log), Holder(log)) && TopControl(s, log)
    requires Step(s, e).Some?
    ensures TopControl(Step(s, e).value, log + [e])
  {
    hide Apply;
    hide Distinct;
    hide Executing;
    hide Holder;
    hide ControlStands;
    hide Matches;
    hide FrameOk;
    var s' := Step(s, e).value;
    HolderAfter(log, e);
    if e.Start? {
      QueueStep(s, e);
      StartControl(s, e, Holder(log));
    } else if s.stack == [] {
      StaysEmpty(s, e);
    } else if e.Finish? {
      SideStep(s, e);
      if s'.stack != [] { EnclosedByMail(s, Holder(log), e); }
    } else {
      OnlyTopMoves(s, e);
      TopStep(s, e);
      ControlMoves(s, e, Holder(log), log[|log| - 1]);
    }
  }

  lemma StartControl(s: State, e: Event, holder: Option<Item>)
    requires Items(s) && Distinct(s.clients) && Matches(s.claim, holder) && Apply(s, e).Some? && e.Start?
    ensures ControlStands(e.item, Begin(e.item, s.Owner(), s.hasReset), holder, s.hasReset, e)
  {
    ControlBegins(s, e.item, holder);
  }

  lemma StaysEmpty(s: State, e: Event)
    requires Apply(s, e).Some? && s.stack == [] && !e.Start?
    ensures Apply(s, e).value.stack == []
  {
  }

  lemma EnclosedByMail(s: State, holder: Option<Item>, last: Event)
    requires Shape(s) && Frames(s) && |s.stack| > 1
    ensures var f := s.stack[|s.stack| - 2]; ControlStands(f.item, f.phase, holder, s.hasReset, last)
  {
    assert Waiting(s.stack[|s.stack| - 2]) && FrameOk(s.stack[|s.stack| - 2]);
  }

  lemma {:induction false} TopControls(hasReset: bool, log: seq<Event>)
    requires Reachable(hasReset, log)
    ensures TopControl(After(hasReset, log), log)
  {
    hide Step;
    hide TopControl;
    if log == [] {
      NoControl(hasReset);
    } else {
      var k := |log| - 1;
      At(hasReset, log, k);
      assert log[..k + 1] == log && log[..k] + [log[k]] == log;
      TopControls(hasReset, log[..k]);
      Always(hasReset, log[..k]);
      Readings(hasReset, log[..k]);
      DistinctIds(hasReset, log[..k]);
      TopControlStep(After(hasReset, log[..k]), log[..k], log[k]);
    }
  }

  lemma NoControl(hasReset: bool)
    ensures TopControl(Init(hasReset), [])
  {
  }

  /** How the other requests are answered, by type, length and holder of the device, and the one
      event between start and answer, if any: CLAIM (4), RELEASE (5), STATS (7), TRACE (8), RESET
      (12) and the types that are not served. */
  predicate ControlAnswered(m: seq<byte>, it: Item, holder: Option<Item>, hasReset: bool, last: Event,
                            status: int, body: seq<byte>)
    requires Framed(m)
  {
    if m[1] == 4 then
      && body == [] && status in {0, 1, 3}
      && (status == 1 <==> !(|m| >= 20 && U16(m, 16) <= 64 && |m| == 20 + 12 * U16(m, 16)))
      && (status != 1 ==> (status == 3 <==> Foreign(holder, it)))
      && (status == 0 <==> holder == Some(it)) && (if status == 0 then last.Grant? else last == Start(it))
    else if m[1] == 5 then
      body == [] && status == 0 && (holder.None? || Foreign(holder, it)) && (last.Release? || last == Start(it))
    else if m[1] == 12 then
      && body == [] && status == (if |m| != 20 then 1 else if hasReset then 0 else 5)
      && (if status == 0 then last.Reset? else last == Start(it))
    else if m[1] in {7, 8} then status == 0 && last == Start(it)
    else m[1] in {1, 2, 3, 6} || (status == 5 && body == [] && last == Start(it))
  }

  lemma ControlDecided(s: State, e: Event, holder: Option<Item>, m: seq<byte>, last: Event)
    requires s.stack != [] && Shape(s) && Step(s, e).Some? && e.Reply?
    requires var f := s.Top();
             && ControlStands(f.item, f.phase, holder, s.hasReset, last)
             && Framed(m) && f.item.hdr.typ == m[1] && f.item.body == m[12..]
    ensures ControlAnswered(m, s.Top().item, holder, s.hasReset, last, e.status, e.body)
  {
  }

  /** RELEASE is answered with the device no longer its client's, and CLAIM with OK exactly when its
      client has become the holder. */
  lemma ControlAnswer(hasReset: bool, log: seq<Event>, k: nat)
    requires Reachable(hasReset, log) && 0 < k < |log| && log[k].Reply? && Executing(log[..k]) != []
    ensures Framed(Query(log, k))
    ensures ControlAnswered(Query(log, k), Last(Executing(log[..k])), Holder(log[..k]), hasReset, log[k - 1],
                            log[k].status, log[k].body)
  {
    hide Run;
    hide Step;
    hide Executing;
    hide Holder;
    hide ControlStands;
    hide ControlAnswered;
    hide Inv;
    At(hasReset, log, k);
    InvShape(hasReset, log[..k]);
    Readings(hasReset, log[..k]);
    TopControls(hasReset, log[..k]);
    TimeIs(hasReset, log[..k]);
    QueryIs(hasReset, log, k);
    var s := After(hasReset, log[..k]);
    assert s.Top().item == Last(Executing(log[..k]));
    ControlDecided(s, log[k], Holder(log[..k]), Query(log, k), log[k - 1]);
  }

  /** Only the holder's own RELEASE releases, only a well-formed CLAIM of nobody's rival is granted,
      and only a well-formed RESET pulses the line. */
  lemma ControlActs(hasReset: bool, log: seq<Event>, k: nat)
    requires Reachable(hasReset, log) && k < |log| && (log[k].Grant? || log[k].Release? || log[k].Reset?)
    ensures Executing(log[..k]) != [] && Framed(Query(log, k))
    ensures var it, m, holder := Last(Executing(log[..k])), Query(log, k), Holder(log[..k]);
            && (log[k].Grant? ==> m[1] == 4 && |m| >= 20 && !Foreign(holder, it))
            && (log[k].Release? ==> m[1] == 5 && holder.Some? && !Foreign(holder, it))
            && (log[k].Reset? ==> m[1] == 12 && |m| == 20 && hasReset)
  {
    hide Run;
    hide Executing;
    hide Holder;
    At(hasReset, log, k);
    Readings(hasReset, log[..k]);
    TopControls(hasReset, log[..k]);
    TimeIs(hasReset, log[..k]);
    ActsOnTop(After(hasReset, log[..k]), log[k]);
    QueryIs(hasReset, log, k);
    assert After(hasReset, log[..k]).Top().item == Last(Executing(log[..k]));
  }

  lemma ActsOnTop(s: State, e: Event)
    requires Step(s, e).Some? && (e.Grant? || e.Release? || e.Reset?)
    ensures s.stack != [] && s.Top().phase.Asked?
    ensures s.Top().item.hdr.typ == if e.Grant? then 4 else if e.Release? then 5 else 12
  {
  }

  // --- MAILBOX -------------------------------------------------------------------------------

  /** The answer to a MAILBOX (6) whose own accesses were accs: a struct that repeats slice and
      timeout, and what the accesses amount to. */
  ghost predicate MailAnswered(m: seq<byte>, it: Item, accs: seq<MB.Access>, last: Event,
                               status: Status, body: seq<byte>)
    requires Framed(m)
  {
    if |m| < 20 || |m| != 20 + U16(m, 14) then status == 1 && body == [] && last == Start(it)
    else if m[12] >= 4 || |m| > 1038 then
      status == 1 && |body| == 8 && MailHeadIs(m[12..], body, m[13], 0) && last == Start(it)
    else
      exists cmd: byte, resp: seq<byte> ::
        && Tx.Ended(MB.Req(m[12], m[13], m[20..]), accs, status, cmd, resp)
        && (if status == 0 then MailHeadIs(m[12..], body, cmd, |resp|) && body[8..] == resp
            else |body| == 8 && MailHeadIs(m[12..], body, m[13], 0))
  }

  lemma HeadSpells(b: seq<byte>, cmd: byte, n: u16, resp: seq<byte>)
    requires MailOk(b)
    ensures var body := MailHead(b, cmd, n) + resp;
            |MailHead(b, cmd, n)| == 8 && MailHeadIs(b, body, cmd, n) && body[8..] == resp
  {
  }

  lemma MailDecided(s: State, e: Event, accs: seq<MB.Access>, m: seq<byte>, last: Event)
    requires s.stack != [] && Shape(s) && Step(s, e).Some? && e.Reply?
    requires var f := s.Top();
             && MailStands(f.item, f.phase, last) && Follows(f, accs)
             && Framed(m) && f.item.hdr.typ == 6 == m[1] && f.item.body == m[12..]
    ensures MailAnswered(m, s.Top().item, accs, last, e.status, e.body)
  {
    hide MB.Run;
    hide Tx.Ended;
    hide IsMail;
    var f := s.Top();
    AnswerAt(s, e);
    if f.phase.Mail? {
      var Mail(r, p) := f.phase;
      assert m[12..][8..] == m[20..];
      Tx.TransactionExact(r, accs, p.st, p.cmd, p.resp);
      HeadSpells(f.item.body, p.cmd, |p.resp|, p.resp);
      HeadSpells(f.item.body, f.item.body[1], 0, []);
      assert MailHead(f.item.body, f.item.body[1], 0) + [] == MailHead(f.item.body, f.item.body[1], 0);
    }
  }

  /** Every mailbox request of every run is answered by what its own accesses amount to. */
  lemma MailAnswer(hasReset: bool, log: seq<Event>, k: nat)
    requires Reachable(hasReset, log) && 0 < k < |log| && log[k].Reply?
    requires |Query(log, k)| > 1 && Query(log, k)[1] == 6
    ensures Executing(log[..k]) != [] && Transcripts(log[..k]) != [] && Framed(Query(log, k))
    ensures MailAnswered(Query(log, k), Last(Executing(log[..k])), Last(Transcripts(log[..k])), log[k - 1],
                         log[k].status, log[k].body)
  {
    hide Run;
    hide Step;
    hide Executing;
    hide Holder;
    hide Transcripts;
    hide MailStands;
    hide MailAnswered;
    hide Follows;
    At(hasReset, log, k);
    InvShape(hasReset, log[..k]);
    Readings(hasReset, log[..k]);
    TopControls(hasReset, log[..k]);
    Following(hasReset, log[..k]);
    QueryIs(hasReset, log, k);
    var s := After(hasReset, log[..k]);
    assert s.Top().item == Last(Executing(log[..k]));
    MayStillAnswer(s, log[k]);
    MailDecided(s, log[k], Last(Transcripts(log[..k])), Query(log, k), log[k - 1]);
  }

  lemma MayStillAnswer(s: State, e: Event)
    requires s.stack != [] && Shape(s) && Step(s, e).Some? && e.Reply?
    ensures !s.Top().phase.Answered?
  {
  }

  /** Every mailbox access goes to the slice that was asked for, to a global register. */
  lemma MailAccess(hasReset: bool, log: seq<Event>, k: nat)
    requires Reachable(hasReset, log) && k < |log| && log[k].Mb?
    ensures Executing(log[..k]) != []
    ensures var m, a := Query(log, k), log[k].acc;
            && Framed(m) && m[1] == 6 && 20 <= |m| <= 1038 && |m| == 20 + U16(m, 14) && m[12] < 4
            && XferOf(log[k]) == [if a.Rd? then Read(m[12], 0x1e, a.reg, a.got)
                                  else Write(m[12], 0x1e, a.reg, a.val, a.ok)]
  {
    hide Run;
    hide Executing;
    hide Holder;
    At(hasReset, log, k);
    InvShape(hasReset, log[..k]);
    Readings(hasReset, log[..k]);
    TopControls(hasReset, log[..k]);
    var s := After(hasReset, log[..k]);
    MailTop(s, log[k]);
    QueryIs(hasReset, log, k);
    assert s.Top().item == Last(Executing(log[..k]));
  }

  lemma MailTop(s: State, e: Event)
    requires Frames(s) && Step(s, e).Some? && e.Mb?
    ensures s.stack != [] && s.Top().item.hdr.typ == 6 && s.Top().phase.Mail? && e.slice == s.Top().phase.req.slice
  {
    assert FrameOk(s.Top());
  }

  // --- Claims and starts ---------------------------------------------------------------------

  /** While a client holds the device nothing of another client starts but control messages: no type
      below CLAIM (4), and no MAILBOX (6). */
  lemma StartUnderClaim(hasReset: bool, log: seq<Event>, k: nat)
    requires Reachable(hasReset, log) && k < |log| && log[k].Start? && Holder(log[..k]).Some?
    ensures var it, holder := log[k].item, Holder(log[..k]).value;
            it.cid == holder.cid || it.hdr.typ !in {0, 1, 2, 3, 6}
  {
    hide Run;
    hide Holder;
    At(hasReset, log, k);
    InvShape(hasReset, log[..k]);
    Readings(hasReset, log[..k]);
    EntitledStart(After(hasReset, log[..k]), log[k].item);
  }

  lemma EntitledStart(s: State, it: Item)
    requires Items(s) && OnStart(s, it).Some? && s.claim.Some?
    ensures it.cid == s.claim.value.cid || it.hdr.typ !in {0, 1, 2, 3, 6}
  {
    var k := FirstQueue(s.queues, s.Owner());
    assert QueueOk(s.clients, s.t, s.queues[k], k);
  }
}
