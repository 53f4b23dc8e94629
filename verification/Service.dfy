// What register requests do and how they are answered, over every run, in the bytes of the datagram
// the client sent: message types, statuses, offsets and limits are written out as the protocol has
// them. So are the datagrams that answer, and those refused at the door.

module Service {
  import opened Bytes
  import opened Layout
  import opened Wire
  import opened Machine
  import opened Invariants
  import opened ClaimRuns
  import opened Responses
  import opened Blocks

  // --- From datagram to item -----------------------------------------------------------------

  lemma InvShape(hasReset: bool, log: seq<Event>)
    requires Reachable(hasReset, log)
    ensures Shape(After(hasReset, log)) && Frames(After(hasReset, log)) && Items(After(hasReset, log))
  {
    Always(hasReset, log);
  }

  /** The item is datagram m, received at event it.uid. */
  predicate Brought(log: seq<Event>, it: Item, m: seq<byte>) {
    && it.uid < |log| && log[it.uid] == Receive(it.slot, m) && Framed(m)
    && it.hdr.typ == m[1] && it.hdr.flags == U16(m, 2) && it.hdr.seq_ == U32(m, 4) && it.body == m[12..]
  }

  /** The datagram whose item executes innermost at event k. */
  function Query(log: seq<Event>, k: nat): seq<byte> {
    if k <= |log| && Executing(log[..k]) != [] then
      var u := Last(Executing(log[..k])).uid;
      if u < |log| && log[u].Receive? then log[u].msg else []
    else []
  }

  lemma FromIsBrought(log: seq<Event>, it: Item)
    requires ItemFrom(log, it)
    ensures Brought(log, it, log[it.uid].msg)
  {
    AcceptableIsFramed(log[it.uid].msg);
  }

  lemma BroughtGrows(log: seq<Event>, k: nat, it: Item, m: seq<byte>)
    requires k <= |log| && Brought(log[..k], it, m)
    ensures Brought(log, it, m)
  {
  }

  /** Whatever executes is a datagram as some client sent it. */
  lemma QueryIs(hasReset: bool, log: seq<Event>, k: nat)
    requires Reachable(hasReset, log) && k <= |log| && Executing(log[..k]) != []
    ensures Brought(log, Last(Executing(log[..k])), Query(log, k)) && Last(Executing(log[..k])).uid < k
  {
    hide Run;
    hide Executing;
    hide ItemFrom;
    hide Brought;
    Prefix(hasReset, log, k);
    Provenance(hasReset, log[..k]);
    Readings(hasReset, log[..k]);
    var s, it := After(hasReset, log[..k]), Last(Executing(log[..k]));
    assert s.stack[|s.stack| - 1].item == it;
    FromIsBrought(log[..k], it);
    BroughtMeans(log[..k], it, log[..k][it.uid].msg);
    BroughtGrows(log, k, it, log[..k][it.uid].msg);
  }

  lemma BroughtMeans(log: seq<Event>, it: Item, m: seq<byte>)
    requires Brought(log, it, m)
    ensures it.uid < |log| && log[it.uid] == Receive(it.slot, m)
  {
  }

  /** The holder's CLAIM is a datagram, too. */
  lemma {:induction false} HolderBrought(hasReset: bool, log: seq<Event>) returns (m: seq<byte>)
    requires Reachable(hasReset, log) && Holder(log).Some?
    ensures Brought(log, Holder(log).value, m)
    decreases |log|
  {
    hide Step;
    hide Brought;
    hide Executing;
    var k := |log| - 1;
    At(hasReset, log, k);
    if log[k].Grant? && Executing(log[..k]) != [] {
      QueryIs(hasReset, log, k);
      m := Query(log, k);
    } else {
      m := HolderBrought(hasReset, log[..k]);
      BroughtGrows(log, k, Holder(log).value, m);
    }
  }

  // --- READ, WRITE and BATCH -----------------------------------------------------------------

  /** One op for READ (1) and WRITE (2), 1 to 64 for BATCH (3). */
  predicate OpsSized(m: seq<byte>)
    requires Framed(m)
  {
    if m[1] == 3 then |m| % 12 == 0 && 24 <= |m| <= 780 else |m| == 24
  }

  /** READ reads and WRITE writes, whatever the op's own write byte; a BATCH goes by that byte. */
  predicate Writes(m: seq<byte>, o: nat)
    requires o + 12 <= |m|
  {
    m[1] == 2 || (m[1] == 3 && m[o + 1] != 0)
  }

  /** op is the one n ops behind the header. */
  predicate OpAsked(m: seq<byte>, n: nat, op: Op) {
    var o := 12 + 12 * n;
    && o + 12 <= |m|
    && op.slice == m[o] && op.write == Writes(m, o) && op.mmd == m[o + 2]
    && op.reg == U16(m, o + 4) && op.val == U32(m, o + 8)
  }

  /** What becomes of it on the bus: refused for a slice above 3, or for a mailbox register while a
      transaction is in flight, else one transfer of the kind, address and value asked for. */
  predicate OpCarried(m: seq<byte>, n: nat, inflight: bool, res: Result, xs: seq<Xfer>)
    requires 24 + 12 * n <= |m|
  {
    var o := 12 + 12 * n;
    if m[o] >= 4 then res == Refused(1) && xs == []
    else if inflight && m[o + 2] == 0x1e && 0xd800 <= U16(m, o + 4) <= 0xdaff then res == Refused(3) && xs == []
    else if Writes(m, o) then
      !res.Refused? && xs == [Write(m[o], m[o + 2], U16(m, o + 4), U32(m, o + 8), res.Done?)]
    else
      !res.Refused? && xs == [Read(m[o], m[o + 2], U16(m, o + 4), if res.Done? then Some(res.val) else None)]
  }

  /** The n events before k are register ops, and before them the innermost item was started. */
  predicate FollowsStart(log: seq<Event>, k: nat, n: nat) {
    && n < k <= |log| && Executing(log[..k]) != [] && log[k - 1 - n] == Start(Last(Executing(log[..k])))
    && forall i :: k - n <= i < k ==> log[i].Access?
  }

  lemma OpsBodyBytes(it: Item, m: seq<byte>, n: nat)
    requires Framed(m) && it.hdr.typ == m[1] && m[1] in {1, 2, 3} && it.body == m[12..]
    requires Runnable(it) && n < Count(it)
    ensures OpsSized(m) && 24 + 12 * n <= |m| && OpAsked(m, n, OpAt(OpsBody(it), n))
  {
    hide OpAt;
    hide U16;
    hide U32;
    var b := OpsBody(it);
    PlaceOf(it, m, n);
    OpSpells(b, n);
    SameSpelling(b, m, n, OpAt(b, n));
  }

  lemma PlaceOf(it: Item, m: seq<byte>, n: nat)
    requires Framed(m) && it.hdr.typ == m[1] && m[1] in {1, 2, 3} && it.body == m[12..]
    requires Runnable(it) && n < Count(it)
    ensures OpsSized(m) && 24 + 12 * n <= |m| && |OpsBody(it)| == |m| - 12
    ensures OpsBody(it)[12 * n + 1] != 0 <==> Writes(m, 12 * n + 12)
    ensures forall i :: 12 * n <= i < 12 * n + 12 && i != 12 * n + 1 ==> OpsBody(it)[i] == m[12 + i]
  {
  }

  lemma SameSpelling(b: seq<byte>, m: seq<byte>, n: nat, op: Op)
    requires 24 + 12 * n <= |m| && |b| == |m| - 12 && OpSpelled(b, 12 * n, op)
    requires b[12 * n + 1] != 0 <==> Writes(m, 12 * n + 12)
    requires forall i :: 12 * n <= i < 12 * n + 12 && i != 12 * n + 1 ==> b[i] == m[12 + i]
    ensures OpAsked(m, n, op)
  {
    hide Writes;
  }

  /** Every register op of every run is the one its client asked for at that place of its request,
      and the device sees exactly that. */
  lemma OpOnTheWire(hasReset: bool, log: seq<Event>, k: nat) returns (n: nat)
    requires Reachable(hasReset, log) && k < |log| && log[k].Access?
    ensures FollowsStart(log, k, n) && Reachable(hasReset, log[..k])
    ensures var m := Query(log, k);
            && Framed(m) && m[1] in {1, 2, 3} && OpsSized(m) && OpAsked(m, n, log[k].op)
            && OpCarried(m, n, After(hasReset, log[..k]).inflight, log[k].res, XferOf(log[k]))
  {
    hide Step;
    hide Inv;
    hide Executing;
    hide OpsBody;
    hide TopBlock;
    hide OpAt;
    hide Legal;
    hide OpAsked;
    hide OpCarried;
    At(hasReset, log, k);
    Always(hasReset, log[..k]);
    Readings(hasReset, log[..k]);
    TopBlocks(hasReset, log[..k]);
    var s := After(hasReset, log[..k]);
    n := AccessIsNext(s, log[k], log[..k]);
    QueryIs(hasReset, log, k);
    var it := Last(Executing(log[..k]));
    assert s.Top().item == it;
    OpsBodyBytes(it, Query(log, k), n);
    CarriedAs(Query(log, k), n, s.inflight, log[k]);
  }

  lemma AccessIsNext(s: State, e: Event, log: seq<Event>) returns (n: nat)
    requires Inv(s) && TopBlock(s, log) && Step(s, e).Some? && e.Access?
    ensures s.stack != [] && s.Top().item.hdr.typ in {1, 2, 3} && Runnable(s.Top().item) && n < Count(s.Top().item)
    ensures e.op == OpAt(OpsBody(s.Top().item), n) && Legal(e.op, s.inflight, false, e.res)
    ensures n < |log| && log[|log| - 1 - n] == Start(s.Top().item)
    ensures forall i :: |log| - n <= i < |log| ==> log[i].Access?
  {
    hide OpsBody;
    hide OpAt;
    assert FrameOk(s.Top());
    n := s.Top().phase.n;
    var a := |log| - n - 1;
    forall i | a < i < |log| ensures log[i].Access? {
      assert InBlock(log[i], s.Top().item, i - a - 1, s.Top().phase.body);
    }
  }

  lemma CarriedAs(m: seq<byte>, n: nat, inflight: bool, e: Event)
    requires e.Access? && OpAsked(m, n, e.op) && Legal(e.op, inflight, false, e.res)
    ensures OpCarried(m, n, inflight, e.res, XferOf(e))
  {
  }

  function StatusOf(res: Result): int {
    match res case Done(_) => 0 case Failed => 2 case Refused(st) => st
  }

  /** The answer returns the ops byte for byte, but for their values and, in a READ or WRITE, the
      write byte, which says what was done. */
  predicate BytesReturned(m: seq<byte>, body: seq<byte>)
    requires Framed(m)
  {
    && |body| == |m| - 12
    && forall o :: 0 <= o < |body| && o % 12 < 8 ==>
         body[o] == if o != 1 || m[1] == 3 then m[12 + o] else if m[1] == 2 then 1 else 0
  }

  /** The value returned for op j: the one read, if it was a read that went through, else as sent. */
  predicate ValueReturned(m: seq<byte>, ops: seq<Event>, body: seq<byte>, j: nat)
    requires |body| == |m| - 12 && 12 * j + 12 <= |body|
  {
    U32(body, 12 * j + 8)
    == if j < |ops| && ops[j].Access? && !ops[j].op.write && ops[j].res.Done? then ops[j].res.val
       else U32(m, 12 * j + 20)
  }

  lemma BlockBytes(log: seq<Event>, it: Item, n: nat, st: Status, body: seq<byte>, m: seq<byte>)
    requires Block(log, it, n, st, body)
    requires Framed(m) && it.hdr.typ == m[1] && m[1] in {1, 2, 3} && it.body == m[12..]
    ensures OpsSized(m) && BytesReturned(m, body) && 12 + 12 * n <= |m| && n < |log|
  {
    hide InBlock;
  }

  lemma BlockOps(log: seq<Event>, it: Item, n: nat, st: Status, body: seq<byte>, m: seq<byte>, j: nat)
    requires Block(log, it, n, st, body) && j < Count(it)
    requires Framed(m) && it.hdr.typ == m[1] && m[1] in {1, 2, 3} && it.body == m[12..]
    ensures |body| == |m| - 12 && n < |log| && 12 * j + 12 <= |body| && ValueReturned(m, log[|log| - n..], body, j)
    ensures j < n ==> log[|log| - n + j].Access? && OpAsked(m, j, log[|log| - n + j].op)
  {
    hide OpAsked;
    OpsBodyBytes(it, m, j);
    AskedValue(m, j, OpAt(OpsBody(it), j));
    OpSpells(body, j);
    if j < n {
      assert InBlock(log[|log| - n + j], it, j, body);
    }
  }

  lemma AskedValue(m: seq<byte>, n: nat, op: Op)
    requires OpAsked(m, n, op)
    ensures 24 + 12 * n <= |m| && op.val == U32(m, 12 * n + 20)
  {
  }

  /** What a READ, WRITE or BATCH m is answered after n ops. */
  ghost predicate OpsAnswered(m: seq<byte>, ops: seq<Event>, status: int, body: seq<byte>)
    requires Framed(m)
  {
    var n := |ops|;
    if !OpsSized(m) then n == 0 && status == 1 && body == []
    else
      && 1 <= n && 12 + 12 * n <= |m|
      && (forall j :: 0 <= j < n ==> ops[j].Access? && OpAsked(m, j, ops[j].op))
      && (forall j :: 0 <= j < n - 1 ==> ops[j].res.Done?)
      && status == StatusOf(ops[n - 1].res) && (status == 0 ==> 12 + 12 * n == |m|)
      && BytesReturned(m, body) && forall j :: 0 <= j && 24 + 12 * j <= |m| ==> ValueReturned(m, ops, body, j)
  }

  lemma OkIsDone(hasReset: bool, log: seq<Event>, k: nat)
    requires Reachable(hasReset, log) && k < |log| && log[k].Access? && log[k].res.Status() == OK
    ensures log[k].res.Done?
  {
    hide Run;
    hide Executing;
    var n := OpOnTheWire(hasReset, log, k);
  }

  lemma BlockMeans(log: seq<Event>, it: Item, n: nat, st: Status, body: seq<byte>)
    requires Block(log, it, n, st, body)
    ensures n < |log| && log[|log| - 1 - n] == Start(it)
    ensures forall i :: |log| - n <= i < |log| ==> log[i].Access?
    ensures forall i :: |log| - n <= i < |log| - 1 ==> log[i].res.Status() == OK
  {
    var a := |log| - n - 1;
    forall i | a < i < |log| ensures log[i].Access? {
      assert InBlock(log[i], it, i - a - 1, body);
    }
  }

  lemma BlockAnswered(log: seq<Event>, it: Item, n: nat, st: Status, body: seq<byte>, m: seq<byte>)
    requires Block(log, it, n, st, body) && 1 <= n < |log| && (st == OK ==> n == Count(it))
    requires forall i :: |log| - n <= i < |log| ==> log[i].Access?
    requires forall i :: |log| - n <= i < |log| - 1 ==> log[i].res.Done?
    requires Framed(m) && it.hdr.typ == m[1] && m[1] in {1, 2, 3} && it.body == m[12..]
    ensures OpsAnswered(m, log[|log| - n..], st, body)
  {
    hide OpAsked;
    hide ValueReturned;
    hide BytesReturned;
    BlockBytes(log, it, n, st, body, m);
    BytesAre(m, body);
    var ops := log[|log| - n..];
    CountIs(log, it, n, st, body, m);
    forall j | 0 <= j && 24 + 12 * j <= |m|
      ensures ValueReturned(m, ops, body, j) && (j < n ==> OpAsked(m, j, ops[j].op))
    {
      BlockOps(log, it, n, st, body, m, j);
    }
  }

  lemma BytesAre(m: seq<byte>, body: seq<byte>)
    requires Framed(m) && BytesReturned(m, body)
    ensures |body| == |m| - 12
  {
  }

  lemma CountIs(log: seq<Event>, it: Item, n: nat, st: Status, body: seq<byte>, m: seq<byte>)
    requires Block(log, it, n, st, body) && n >= 1 && n < |log|
    requires Framed(m) && it.hdr.typ == m[1] && m[1] in {1, 2, 3} && it.body == m[12..]
    ensures 12 + 12 * Count(it) == |m| && log[|log| - 1].Access? && st == StatusOf(log[|log| - 1].res)
  {
    assert InBlock(log[|log| - 1], it, n - 1, body);
  }

  lemma NotSized(it: Item, m: seq<byte>)
    requires !Runnable(it) && Framed(m) && it.hdr.typ == m[1] && m[1] in {1, 2, 3} && it.body == m[12..]
    ensures OpsAnswered(m, [], 1, [])
  {
  }

  /** The answer to a READ, WRITE or BATCH: nothing happens between its start and the answer but its
      own ops, in order, up to the first that is refused or fails. The status is that of the last
      one, OK only if all were carried out; the body is the request with the values read. */
  lemma RegisterAnswer(hasReset: bool, log: seq<Event>, k: nat) returns (n: nat)
    requires Reachable(hasReset, log) && k < |log| && log[k].Reply?
    requires |Query(log, k)| > 1 && Query(log, k)[1] in {1, 2, 3}
    ensures FollowsStart(log, k, n) && Framed(Query(log, k))
    ensures OpsAnswered(Query(log, k), log[k - n..k], log[k].status, log[k].body)
  {
    hide Framed;
    hide Run;
    hide Executing;
    hide Block;
    hide OpsAnswered;
    hide OpsSized;
    hide Runnable;
    QueryIs(hasReset, log, k);
    AnswerClosesBlock(hasReset, log, k);
    var it, m := Last(Executing(log[..k])), Query(log, k);
    if Runnable(it) {
      n :| 1 <= n <= Count(it) && Block(log[..k], it, n, log[k].status, log[k].body)
           && (log[k].status == OK ==> n == Count(it));
      BlockMeans(log[..k], it, n, log[k].status, log[k].body);
      forall i | k - n <= i < k - 1 ensures log[i].res.Done? {
        assert log[..k][i] == log[i];
        OkIsDone(hasReset, log, i);
      }
      BlockAnswered(log[..k], it, n, log[k].status, log[k].body, m);
      assert log[..k][k - n..] == log[k - n..k];
    } else {
      n := 0;
      NotSized(it, m);
      assert log[k..k] == [];
    }
  }

  // --- The door ------------------------------------------------------------------------------

  lemma InboxClears(s: State, e: Event)
    requires Shape(s) && Step(s, e).Some? && s.inbox.Some?
    ensures (e.Enqueue? || e.Reply?) && Step(s, e).value.inbox.None?
  {
  }

  lemma InboxFills(s: State, e: Event)
    requires s.inbox.None? && Step(s, e).Some? && Step(s, e).value.inbox.Some?
    ensures e.Receive? && Step(s, e).value.inbox == Some(Letter(s.t, e.slot, s.clients[e.slot], e.msg))
  {
    if OnTop(s, e) { TopStep(s, e); }
  }

  /** A datagram is dealt with before anything else happens. */
  lemma InboxIsLast(hasReset: bool, log: seq<Event>)
    requires Reachable(hasReset, log) && After(hasReset, log).inbox.Some?
    ensures var l := After(hasReset, log).inbox.value;
            log != [] && l.uid == |log| - 1 && log[|log| - 1] == Receive(l.slot, l.msg)
  {
    hide Step;
    var k := |log| - 1;
    At(hasReset, log, k);
    assert log[..k + 1] == log;
    InvShape(hasReset, log[..k]);
    TimeIs(hasReset, log[..k]);
    var s := After(hasReset, log[..k]);
    if s.inbox.Some? { InboxClears(s, log[k]); } else { InboxFills(s, log[k]); }
  }

  /** A datagram is answered at once if it is not framed right, or if 256 requests are waiting. */
  lemma DoorAnswer(hasReset: bool, log: seq<Event>, k: nat)
    requires Reachable(hasReset, log) && k < |log| && log[k].Reply? && Executing(log[..k]) == []
    ensures k > 0 && log[k - 1].Receive? && log[k].uid == k - 1 && log[k].slot == log[k - 1].slot && log[k].body == []
    ensures Reachable(hasReset, log[..k])
    ensures if Framed(log[k - 1].msg) then log[k].status == 3 && Queued(After(hasReset, log[..k]).queues) >= 256
            else log[k].status == 1
  {
    hide Run;
    hide Executing;
    At(hasReset, log, k);
    Readings(hasReset, log[..k]);
    var s := After(hasReset, log[..k]);
    InboxReply(s, log[k]);
    InboxIsLast(hasReset, log[..k]);
    AcceptableIsFramed(log[k - 1].msg);
  }

  lemma InboxReply(s: State, e: Event)
    requires s.stack == [] && Step(s, e).Some? && e.Reply?
    ensures s.inbox.Some? && e.uid == s.inbox.value.uid && e.slot == s.inbox.value.slot && e.body == []
    ensures if Acceptable(s.inbox.value.msg) then e.status == EBUSY && Queued(s.queues) >= MAX_QITEMS
            else e.status == EINVAL
  {
  }

  /** What is queued instead is that datagram. */
  lemma DoorOpens(hasReset: bool, log: seq<Event>, k: nat)
    requires Reachable(hasReset, log) && k < |log| && log[k].Enqueue?
    ensures k > 0 && log[k].item.uid == k - 1 && log[k - 1].Receive? && Brought(log, log[k].item, log[k - 1].msg)
    ensures Reachable(hasReset, log[..k]) && Queued(After(hasReset, log[..k]).queues) < 256
  {
    hide Run;
    At(hasReset, log, k);
    InboxIsLast(hasReset, log[..k]);
    var l := After(hasReset, log[..k]).inbox.value;
    AcceptableIsFramed(l.msg);
  }

  /** Every answer is one datagram to the client that asked, with the header the protocol wants. */
  lemma ReplyOnTheWire(hasReset: bool, log: seq<Event>, k: nat)
    requires Reachable(hasReset, log) && k < |log| && log[k].Reply?
    ensures log[k].uid < k && log[log[k].uid].Receive?
    ensures var q := log[log[k].uid];
            && |MailOf(log[k])| == 1 && MailOf(log[k])[0].slot == q.slot
            && Answers(MailOf(log[k])[0].datagram, q.msg, log[k].status, log[k].body)
  {
    hide Run;
    hide Answers;
    EchoesRequest(hasReset, log, k);
    ResponseAnswers(log[log[k].uid].msg, log[k].req, log[k].status, log[k].body);
  }
}
