// Register requests run as contiguous blocks, and only mailbox transactions enclose others.

module Blocks {
  import opened Bytes
  import opened Wire
  import opened Machine
  import opened Invariants
  import opened ClaimRuns

  /** Something starts while something executes only inside waiting mailbox transactions. */
  lemma OnlyMailboxEncloses(hasReset: bool, log: seq<Event>, k: nat, i: nat)
    requires Reachable(hasReset, log) && k < |log| && log[k].Start? && i < |Executing(log[..k])|
    ensures Executing(log[..k])[i].hdr.typ == MAILBOX
  {
    hide Step;
    hide Inv;
    hide Executing;
    At(hasReset, log, k);
    Always(hasReset, log[..k]);
    Readings(hasReset, log[..k]);
    EnclosersWait(After(hasReset, log[..k]), log[k], i);
  }

  lemma EnclosersWait(s: State, e: Event, i: nat)
    requires Inv(s) && Step(s, e).Some? && e.Start? && i < |s.stack|
    ensures s.stack[i].item.hdr.typ == MAILBOX
  {
    assert Waiting(s.stack[i]) && FrameOk(s.stack[i]);
  }

  // --- Blocks --------------------------------------------------------------------------------

  /** The op as the answer returns it: a successful read carries the value read. */
  function Outcome(op: Op, res: Result): Op {
    if !op.write && res.Done? then op.(val := res.val) else op
  }

  /** A register request the handlers accept. */
  predicate Runnable(it: Item) {
    if it.hdr.typ == BATCH then |it.body| % OP_LEN == 0 && 1 <= |it.body| / OP_LEN <= BATCH_MAX
    else it.hdr.typ in {READ, WRITE} && |it.body| == OP_LEN
  }

  /** Event i of a block that began at a: the next op of the request, none before it failed. */
  predicate InBlock(e: Event, it: Item, i: nat, body: seq<byte>)
    requires Runnable(it) && |body| == |it.body| && i < Count(it)
  {
    e.Access? && e.op == OpAt(OpsBody(it), i) && OpAt(body, i) == Outcome(e.op, e.res)
  }

  /** The run ends with the start of the item and n of its ops, all but the last done, the last
      with status st; body holds their outcomes and the untouched rest. */
  ghost predicate Block(log: seq<Event>, it: Item, n: nat, st: Status, body: seq<byte>) {
    var a := |log| - n - 1;
    && Runnable(it) && |body| == |it.body| && n <= Count(it)
    && a >= 0 && log[a] == Start(it)
    && (forall i :: a < i < |log| ==> InBlock(log[i], it, i - a - 1, body))
    && (forall i :: a < i < |log| - 1 ==> log[i].res.Status() == OK)
    && st == (if n == 0 then OK else log[|log| - 1].res.Status())
    && (forall i :: n <= i < Count(it) ==> OpAt(body, i) == OpAt(OpsBody(it), i))
    && OnlyValues(body, OpsBody(it))
  }

  /** The ops of a and b differ in their values at most. */
  ghost predicate OnlyValues(a: seq<byte>, b: seq<byte>) {
    |a| == |b| && forall o :: 0 <= o < |a| && o % OP_LEN < 8 ==> a[o] == b[o]
  }

  lemma StoredOnlyValues(b: seq<byte>, i: nat, v: u32, c: seq<byte>)
    requires OP_LEN * (i + 1) <= |b| && OnlyValues(b, c)
    ensures OnlyValues(WithVal(b, i, v), c)
  {
    var r := WithVal(b, i, v);
    forall o | 0 <= o < |r| && o % OP_LEN < 8 ensures r[o] == c[o] {
      assert o < OP_LEN * i + 8 || o >= OP_LEN * (i + 1);
    }
  }

  lemma BlockGrows(log: seq<Event>, it: Item, n: nat, body: seq<byte>, op: Op, res: Result, body': seq<byte>)
    requires Block(log, it, n, OK, body) && n < Count(it) && op == OpAt(body, n)
    requires body' == if !op.write && res.Done? then WithVal(body, n, res.val) else body
    ensures Block(log + [Access(op, res)], it, n + 1, res.Status(), body')
  {
    hide OpAt;
    hide WithVal;
    hide OnlyValues;
    var a, log' := |log| - n - 1, log + [Access(op, res)];
    if !op.write && res.Done? { StoredOnlyValues(body, n, res.val, OpsBody(it)); }
    forall i | 0 <= i < Count(it) ensures OpAt(body', i) == if i == n then Outcome(op, res) else OpAt(body, i) {
      if !op.write && res.Done? { WithValChangesOne(body, n, res.val, i); }
    }
    forall i | a < i < |log'| ensures InBlock(log'[i], it, i - a - 1, body') {
      if i < |log| { assert InBlock(log[i], it, i - a - 1, body); }
    }
    forall i | a < i < |log'| - 1 ensures log'[i].res.Status() == OK {
      if i == |log| - 1 { assert n > 0; }
    }
  }

  /** What the run says of the innermost item, if it is a register request. */
  ghost predicate TopBlock(s: State, log: seq<Event>) {
    s.stack != [] && s.Top().item.hdr.typ in {READ, WRITE, BATCH} ==>
      match s.Top().phase
      case Ops(n, st, body) => Block(log, s.Top().item, n, st, body)
      case Ready(st, body) =>
        !Runnable(s.Top().item) && log != [] && log[|log| - 1] == Start(s.Top().item) && st == EINVAL && body == []
      case Answered => true
      case _ => false
  }

  lemma StartBlock(s: State, log: seq<Event>, it: Item)
    requires OnStart(s, it).Some?
    ensures TopBlock(OnStart(s, it).value, log + [Start(it)])
  {
  }

  lemma AccessBlock(s: State, log: seq<Event>, op: Op, res: Result)
    requires TopBlock(s, log) && Frames(s) && OnAccess(s, op, res).Some?
    ensures TopBlock(OnAccess(s, op, res).value, log + [Access(op, res)])
  {
    hide Block;
    var Ops(n, st, body) := s.Top().phase;
    BlockGrows(log, s.Top().item, n, body, op, res, OnAccess(s, op, res).value.Top().phase.body);
  }

  lemma OtherBlock(s: State, log: seq<Event>, e: Event)
    requires TopBlock(s, log) && Shape(s) && Frames(s) && Step(s, e).Some? && !e.Start? && !e.Access?
    ensures var s' := Step(s, e).value;
            s'.stack != [] && s'.Top().item.hdr.typ in {READ, WRITE, BATCH} ==> s'.Top().phase.Answered?
  {
    hide MayAnswer;
    hide Begin;
    var s' := Step(s, e).value;
    if e.Finish? && s'.stack != [] {
      assert Waiting(s.stack[|s.stack| - 2]) && FrameOk(s.stack[|s.stack| - 2]);
    }
  }

  lemma TopBlockStep(s: State, log: seq<Event>, e: Event)
    requires TopBlock(s, log) && Inv(s) && Step(s, e).Some?
    ensures TopBlock(Step(s, e).value, log + [e])
  {
    hide Block;
    hide TopBlock;
    match e {
      case Start(it) =>
        StartBlock(s, log, it);
        SameTop(OnStart(s, it).value, Step(s, e).value, log + [e]);
      case Access(op, res) =>
        AccessBlock(s, log, op, res);
        SameTop(OnAccess(s, op, res).value, Step(s, e).value, log + [e]);
      case _ =>
        OtherBlock(s, log, e);
        NoBlock(Step(s, e).value, log + [e]);
    }
  }

  lemma SameTop(s: State, s': State, log: seq<Event>)
    requires TopBlock(s, log) && s'.stack == s.stack
    ensures TopBlock(s', log)
  {
    hide Block;
  }

  lemma NoBlock(s: State, log: seq<Event>)
    requires s.stack != [] && s.Top().item.hdr.typ in {READ, WRITE, BATCH} ==> s.Top().phase.Answered?
    ensures TopBlock(s, log)
  {
    hide Block;
  }

  lemma {:induction false} TopBlocks(hasReset: bool, log: seq<Event>)
    requires Reachable(hasReset, log)
    ensures TopBlock(After(hasReset, log), log)
  {
    hide Step;
    if log != [] {
      var k := |log| - 1;
      At(hasReset, log, k);
      assert log[..k + 1] == log && log[..k] + [log[k]] == log;
      TopBlocks(hasReset, log[..k]);
      Always(hasReset, log[..k]);
      TopBlockStep(After(hasReset, log[..k]), log[..k], log[k]);
    }
  }

  /** The answer to a READ, WRITE or BATCH closes a contiguous block: the start of the item and its
      ops in order, up to the first that is refused or fails, with nothing in between. The answer's
      status is that of the last op, OK only if all were done, and its body carries the values
      read. A malformed request runs no op. */
  lemma AnswerClosesBlock(hasReset: bool, log: seq<Event>, k: nat)
    requires Reachable(hasReset, log) && k < |log| && log[k].Reply? && Executing(log[..k]) != []
    requires Last(Executing(log[..k])).hdr.typ in {READ, WRITE, BATCH}
    ensures var it := Last(Executing(log[..k]));
            if Runnable(it) then
              exists n :: 1 <= n <= Count(it) && Block(log[..k], it, n, log[k].status, log[k].body)
                          && (log[k].status == OK ==> n == Count(it))
            else
              k > 0 && log[k - 1] == Start(it) && log[k].status == EINVAL && log[k].body == []
  {
    hide Block;
    hide Step;
    hide Inv;
    hide Executing;
    At(hasReset, log, k);
    Always(hasReset, log[..k]);
    Readings(hasReset, log[..k]);
    TopBlocks(hasReset, log[..k]);
    var s := After(hasReset, log[..k]);
    assert s.Top().item == Last(Executing(log[..k]));
    AnswerIsDue(s, log[k]);
    if s.Top().phase.Ops? {
      var Ops(n, st, body) := s.Top().phase;
      assert Block(log[..k], s.Top().item, n, st, body);
      BlockFacts(log[..k], s.Top().item, n, st, body);
    }
  }

  lemma AnswerIsDue(s: State, e: Event)
    requires Inv(s) && Step(s, e).Some? && e.Reply? && s.stack != []
    requires s.Top().item.hdr.typ in {READ, WRITE, BATCH}
    ensures MayAnswer(s.Top(), e.status, e.body)
  {
  }

  lemma BlockFacts(log: seq<Event>, it: Item, n: nat, st: Status, body: seq<byte>)
    requires Block(log, it, n, st, body) && (st != OK || n == Count(it))
    ensures 1 <= n <= Count(it) && Runnable(it)
  {
  }
}
