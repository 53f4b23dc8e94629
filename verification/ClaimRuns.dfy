// Claims over whole runs, read off the events alone: who is executing, who holds the device, and
// what runs when a holder goes away.

module ClaimRuns {
  import opened Bytes
  import opened Layout
  import opened Wire
  import opened Machine
  import opened Invariants

  // --- Reading a run -------------------------------------------------------------------------

  /** The items started and not finished, innermost last. */
  function Executing(log: seq<Event>): seq<Item> {
    if log == [] then []
    else
      var r, e := Executing(log[..|log| - 1]), log[|log| - 1];
      if e.Start? then r + [e.item]
      else if e.Finish? && r != [] then r[..|r| - 1]
      else r
  }

  /** The CLAIM request in force: the one last granted, unless released or vacated since. */
  function Holder(log: seq<Event>): Option<Item> {
    if log == [] then None
    else
      var r, e := Executing(log[..|log| - 1]), log[|log| - 1];
      if e.Grant? && r != [] then Some(r[|r| - 1])
      else if e.Release? || e.Vacate? then None
      else Holder(log[..|log| - 1])
  }

  predicate Matches(claim: Option<Claimed>, holder: Option<Item>) {
    if holder.None? then claim.None?
    else claim.Some? && ClaimOk(holder.value.body) && claim.value.slot == holder.value.slot
         && claim.value.cid == holder.value.cid && claim.value.cleanup == CleanupOps(holder.value.body)
  }

  ghost predicate Reads(s: State, running: seq<Item>, holder: Option<Item>) {
    && |running| == |s.stack|
    && (forall i :: 0 <= i < |s.stack| ==> running[i] == s.stack[i].item)
    && Matches(s.claim, holder)
  }

  lemma ReadsStep(s: State, e: Event, r: seq<Item>, h: Option<Item>)
    requires Reads(s, r, h) && Step(s, e).Some?
    ensures Reads(Step(s, e).value,
                  if e.Start? then r + [e.item] else if e.Finish? && r != [] then r[..|r| - 1] else r,
                  if e.Grant? && r != [] then Some(r[|r| - 1]) else if e.Release? || e.Vacate? then None else h)
  {
    hide Apply;
    if e.Enqueue? || e.Start? || e.Purge? {
      QueueStep(s, e);
    } else if OnTop(s, e) {
      TopStep(s, e);
      LeaseStep(s, e);
    } else {
      SideStep(s, e);
    }
  }

  lemma LeaseStep(s: State, e: Event)
    requires Apply(s, e).Some? && OnTop(s, e)
    ensures s.stack != []
    ensures e.Grant? ==> Matches(Apply(s, e).value.claim, Some(s.Top().item))
    ensures !e.Grant? ==> Apply(s, e).value.claim == if e.Release? then None else s.claim
  {
  }

  /** The readings agree with the state the run leads to. */
  lemma {:induction false} Readings(hasReset: bool, log: seq<Event>)
    requires Reachable(hasReset, log)
    ensures Reads(After(hasReset, log), Executing(log), Holder(log))
  {
    if log != [] {
      var k := |log| - 1;
      Readings(hasReset, log[..k]);
      ReadsStep(After(hasReset, log[..k]), log[k], Executing(log[..k]), Holder(log[..k]));
    }
  }

  // --- Exclusion -----------------------------------------------------------------------------

  function Last<T>(q: seq<T>): T
    requires q != []
  {
    q[|q| - 1]
  }

  /** While a client holds the device, every register op comes from that client's own item. */
  lemma ClaimExclusion(hasReset: bool, log: seq<Event>, k: nat)
    requires Reachable(hasReset, log) && k < |log| && log[k].Access?
    ensures Executing(log[..k]) != []
    ensures Holder(log[..k]).Some? ==>
              Last(Executing(log[..k])).slot == Holder(log[..k]).value.slot &&
              Last(Executing(log[..k])).cid == Holder(log[..k]).value.cid
  {
    hide Step;
    hide Inv;
    hide Executing;
    hide Holder;
    At(hasReset, log, k);
    Always(hasReset, log[..k]);
    Readings(hasReset, log[..k]);
    var s := After(hasReset, log[..k]);
    AccessIsOwned(s, log[k]);
    assert s.Top().item == Last(Executing(log[..k]));
  }

  lemma AccessIsOwned(s: State, e: Event)
    requires Inv(s) && Step(s, e).Some? && e.Access?
    ensures s.stack != []
    ensures s.claim.Some? ==> s.Top().item.slot == s.claim.value.slot && s.Top().item.cid == s.claim.value.cid
  {
  }

  /** The body of a CLAIM: max_ms, the number n of cleanup ops at offset 4, and behind 8 bytes the ops. */
  predicate ClaimSized(b: seq<byte>) { |b| >= 8 && U16(b, 4) <= 64 && |b| == 8 + 12 * U16(b, 4) }

  lemma OpsSpelled(b: seq<byte>)
    requires ClaimOk(b)
    ensures ClaimSized(b) && |CleanupOps(b)| == U16(b, 4)
    ensures forall i :: 0 <= i < U16(b, 4) ==> OpSpelled(b, 8 + 12 * i, CleanupOps(b)[i])
  {
    forall i | 0 <= i < U16(b, 4) ensures OpSpelled(b, 8 + 12 * i, CleanupOps(b)[i]) {
      OpSpells(b[8..], i);
      assert forall j :: 12 * i <= j < 12 * i + 12 ==> b[8..][j] == b[8 + j];
    }
  }

  /** A cleanup op runs for the holder whose CLAIM spells it, with nothing executing. */
  lemma CleanupIsHolders(hasReset: bool, log: seq<Event>, k: nat) returns (i: nat)
    requires Reachable(hasReset, log) && k < |log| && log[k].Cleanup?
    ensures Executing(log[..k]) == [] && Holder(log[..k]).Some?
    ensures var b := Holder(log[..k]).value.body;
            ClaimSized(b) && i < U16(b, 4) && OpSpelled(b, 8 + 12 * i, log[k].op)
  {
    hide OpSpelled;
    hide CleanupOps;
    hide ClaimSized;
    hide Holder;
    hide Executing;
    hide Step;
    hide Inv;
    At(hasReset, log, k);
    Always(hasReset, log[..k]);
    Readings(hasReset, log[..k]);
    i := CleanupNumber(After(hasReset, log[..k]), log[k]);
    OpsSpelled(Holder(log[..k]).value.body);
  }

  lemma CleanupNumber(s: State, e: Event) returns (i: nat)
    requires Inv(s) && Step(s, e).Some? && e.Cleanup?
    ensures s.stack == [] && s.claim.Some? && i < |s.claim.value.cleanup| && e.op == s.claim.value.cleanup[i]
  {
    hide Items;
    hide Frames;
    hide Claims;
    hide InOrder;
    i := s.ending.value;
  }

  lemma ClaimKept(s: State, e: Event)
    requires Inv(s) && Step(s, e).Some? && s.claim.Some? && Step(s, e).value.claim.Some?
    ensures Step(s, e).value.claim.value.cid == s.claim.value.cid
  {
  }

  lemma HolderKept(hasReset: bool, log: seq<Event>)
    requires Reachable(hasReset, log) && log != [] && Holder(log).Some? && Holder(log[..|log| - 1]).Some?
    ensures Holder(log).value.cid == Holder(log[..|log| - 1]).value.cid
  {
    hide Step;
    var m := |log| - 1;
    At(hasReset, log, m);
    assert log[..m + 1] == log;
    Always(hasReset, log[..m]);
    Readings(hasReset, log[..m]);
    Readings(hasReset, log);
    ClaimKept(After(hasReset, log[..m]), log[m]);
  }

  /** The device passes from one client to another only through a vacancy. */
  lemma {:induction false} NoHandover(hasReset: bool, log: seq<Event>, i: nat, j: nat)
    requires Reachable(hasReset, log) && i <= j <= |log|
    requires Holder(log[..i]).Some? && Holder(log[..j]).Some?
    requires Holder(log[..i]).value.cid != Holder(log[..j]).value.cid
    ensures exists k :: i < k < j && Holder(log[..k]).None?
    decreases j
  {
    hide Step;
    if Holder(log[..j - 1]).Some? {
      Prefix(hasReset, log, j);
      assert log[..j][..j - 1] == log[..j - 1];
      HolderKept(hasReset, log[..j]);
      NoHandover(hasReset, log, i, j - 1);
    } else {
      assert i < j - 1;
    }
  }

  // --- Mailboxes under a claim ---------------------------------------------------------------

  /** Event g is the grant by which the present holder took the device; renewals do not count. */
  ghost predicate Taken(log: seq<Event>, g: nat) {
    && g < |log| && log[g].Grant? && Holder(log[..g]).None?
    && forall j :: g < j <= |log| ==> Holder(log[..j]).Some?
  }

  lemma TakenOnce(log: seq<Event>, g: nat, h: nat)
    requires Taken(log, g) && Taken(log, h)
    ensures g == h
  {
    hide Holder;
  }

  lemma TakenGrows(log: seq<Event>, e: Event, g: nat)
    requires Taken(log, g) && Holder(log + [e]).Some?
    ensures Taken(log + [e], g) && Executing((log + [e])[..g]) == Executing(log[..g])
  {
    hide Holder;
    hide Executing;
    var all := log + [e];
    assert all[g] == log[g] && all[..|all|] == all;
    assert forall j :: 0 <= j <= |log| ==> all[..j] == log[..j];
  }

  /** The item was already executing when the present holder took the device. */
  ghost predicate Earlier(log: seq<Event>, it: Item) {
    exists g :: 0 <= g < |log| && Taken(log, g) && it in Executing(log[..g])
  }

  lemma EarlierGrows(log: seq<Event>, e: Event, it: Item)
    requires Earlier(log, it) && Holder(log + [e]).Some?
    ensures Earlier(log + [e], it)
  {
    hide Executing;
    hide Holder;
    hide Taken;
    var g :| 0 <= g < |log| && Taken(log, g) && it in Executing(log[..g]);
    TakenGrows(log, e, g);
  }

  /** The frame's item is not a control message and belongs to another client than the holder. */
  predicate Trespasses(f: Frame, claim: Option<Claimed>) {
    claim.Some? && !Control(f.item.hdr.typ) && f.item.cid != claim.value.cid
  }

  /** Only items that were executing when the holder took the device do. */
  ghost predicate Excused(s: State, log: seq<Event>) {
    forall i :: 0 <= i < |s.stack| && Trespasses(s.stack[i], s.claim) ==> Earlier(log, s.stack[i].item)
  }

  lemma StartIsEntitled(s: State, e: Event)
    requires Inv(s) && e.Start? && Apply(s, e).Some?
    ensures var s' := Apply(s, e).value; s'.stack != [] && !Trespasses(s'.Top(), s'.claim)
  {
    hide Begin;
    var k := FirstQueue(s.queues, s.Owner());
    assert QueueOk(s.clients, s.t, s.queues[k], k);
  }

  lemma ExcusedStep(s: State, e: Event, log: seq<Event>)
    requires Excused(s, log) && Inv(s) && Step(s, e).Some? && Reads(s, Executing(log), Holder(log))
    requires Reads(Step(s, e).value, Executing(log + [e]), Holder(log + [e]))
    ensures Excused(Step(s, e).value, log + [e])
  {
    hide Apply;
    hide Executing;
    hide Holder;
    hide Trespasses;
    hide Earlier;
    hide Inv;
    var s' := Step(s, e).value;
    if e.Start? { StartIsEntitled(s, e); }
    if e.Enqueue? || e.Start? || e.Purge? { QueueStep(s, e); }
    else if OnTop(s, e) { TopStep(s, e); LeaseStep(s, e); } else { SideStep(s, e); }
    forall i | 0 <= i < |s'.stack| && Trespasses(s'.stack[i], s'.claim) ensures Earlier(log + [e], s'.stack[i].item) {
      assert i < |s.stack| && s'.stack[i].item == s.stack[i].item;
      HeldBy(s'.stack[i], s'.claim);
      if s.claim.None? {
        GrantExcuses(log, e, s.stack[i].item, i);
      } else {
        ClaimKept(s, e);
        SameTrespass(s.stack[i], s'.stack[i], s.claim, s'.claim);
        EarlierGrows(log, e, s.stack[i].item);
      }
    }
  }

  lemma HeldBy(f: Frame, claim: Option<Claimed>)
    requires Trespasses(f, claim)
    ensures claim.Some?
  {
  }

  lemma GrantExcuses(log: seq<Event>, e: Event, it: Item, i: nat)
    requires e.Grant? && i < |Executing(log)| && Executing(log)[i] == it
    requires Holder(log).None? && Holder(log + [e]).Some?
    ensures Earlier(log + [e], it)
  {
    hide Executing;
    hide Holder;
    var all := log + [e];
    assert all[|log|] == e && all[..|log|] == log && all[..|all|] == all;
    assert Taken(all, |log|);
  }

  lemma SameTrespass(f: Frame, f': Frame, claim: Option<Claimed>, claim': Option<Claimed>)
    requires Trespasses(f', claim') && f'.item == f.item && claim.Some? && claim.value.cid == claim'.value.cid
    ensures Trespasses(f, claim)
  {
  }

  lemma {:induction false} AllExcused(hasReset: bool, log: seq<Event>)
    requires Reachable(hasReset, log)
    ensures Excused(After(hasReset, log), log)
  {
    hide Step;
    hide Excused;
    if log == [] {
      NothingToExcuse(hasReset);
    } else {
      var k := |log| - 1;
      At(hasReset, log, k);
      assert log[..k + 1] == log && log[..k] + [log[k]] == log;
      AllExcused(hasReset, log[..k]);
      Always(hasReset, log[..k]);
      Readings(hasReset, log[..k]);
      Readings(hasReset, log);
      ExcusedStep(After(hasReset, log[..k]), log[k], log[..k]);
    }
  }

  lemma NothingToExcuse(hasReset: bool)
    ensures Excused(Init(hasReset), [])
  {
  }

  /** A mailbox access made while a client holds the device belongs to the holder, or to a mailbox
      request that was already executing when the holder took the device. */
  lemma MailboxUnderClaim(hasReset: bool, log: seq<Event>, k: nat)
    requires Reachable(hasReset, log) && k < |log| && log[k].Mb? && Holder(log[..k]).Some?
    ensures Executing(log[..k]) != []
    ensures var it := Last(Executing(log[..k]));
            it.hdr.typ == MAILBOX && (it.cid == Holder(log[..k]).value.cid || Earlier(log[..k], it))
  {
    hide Step;
    hide Inv;
    hide Executing;
    hide Holder;
    hide Earlier;
    At(hasReset, log, k);
    Always(hasReset, log[..k]);
    Readings(hasReset, log[..k]);
    AllExcused(hasReset, log[..k]);
    var s := After(hasReset, log[..k]);
    MailboxOnTop(s, log[k]);
    assert s.Top().item == Last(Executing(log[..k]));
  }

  lemma MailboxOnTop(s: State, e: Event)
    requires Inv(s) && Step(s, e).Some? && e.Mb?
    ensures s.stack != [] && s.Top().item.hdr.typ == MAILBOX
  {
    assert FrameOk(s.Top());
  }

  /** No mailbox request of another client than cid is executing. */
  predicate NoneForeign(items: seq<Item>, cid: nat) {
    forall i :: 0 <= i < |items| && items[i].hdr.typ == MAILBOX ==> items[i].cid == cid
  }

  /** So a claim taken while no foreign mailbox request executes is exclusive until it ends: every
      register op and every mailbox access is the holder's. */
  lemma ClaimIsExclusive(hasReset: bool, log: seq<Event>, g: nat, k: nat)
    requires Reachable(hasReset, log) && k < |log| && (log[k].Access? || log[k].Mb?) && Holder(log[..k]).Some?
    ensures Executing(log[..k]) != []
    ensures Taken(log[..k], g) && NoneForeign(Executing(log[..g]), Holder(log[..k]).value.cid) ==>
              Last(Executing(log[..k])).cid == Holder(log[..k]).value.cid
  {
    hide Executing;
    hide Holder;
    if log[k].Access? {
      ClaimExclusion(hasReset, log, k);
    } else {
      MailboxUnderClaim(hasReset, log, k);
      var it := Last(Executing(log[..k]));
      if Taken(log[..k], g) && Earlier(log[..k], it) {
        var h :| 0 <= h < k && Taken(log[..k], h) && it in Executing(log[..k][..h]);
        TakenOnce(log[..k], g, h);
        assert log[..k][..g] == log[..g];
      }
    }
  }

  // --- Reused slots --------------------------------------------------------------------------

  predicate Since(it: Item, slot: nat, k: nat) {
    it.slot == slot ==> it.uid > k
  }

  /** Nothing of the slot is older than event k. */
  ghost predicate AllSince(s: State, slot: nat, k: nat) {
    && (forall q, i :: 0 <= q < 3 && 0 <= i < |s.queues[q]| ==> Since(s.queues[q][i], slot, k))
    && (forall i :: 0 <= i < |s.stack| ==> Since(s.stack[i].item, slot, k))
    && (s.inbox.Some? && s.inbox.value.slot == slot ==> s.inbox.value.uid > k)
    && s.t > k
  }

  lemma PurgeSince(s: State, slot: nat, gone: seq<Item>, x: nat, k: nat)
    requires AllSince(s, x, k) && OnPurge(s, slot, gone).Some?
    ensures AllSince(OnPurge(s, slot, gone).value, x, k)
  {
    var s' := OnPurge(s, slot, gone).value;
    forall q, i | 0 <= q < 3 && 0 <= i < |s'.queues[q]| ensures Since(s'.queues[q][i], x, k) {
      NotOfSub(s.queues[q], slot);
      assert s'.queues[q][i] in s.queues[q];
    }
  }

  lemma StartSince(s: State, it: Item, x: nat, k: nat)
    requires AllSince(s, x, k) && OnStart(s, it).Some?
    ensures AllSince(OnStart(s, it).value, x, k)
  {
    hide Since;
    hide Begin;
  }

  lemma EnqueueSince(s: State, it: Item, x: nat, k: nat)
    requires AllSince(s, x, k) && OnEnqueue(s, it).Some?
    ensures AllSince(OnEnqueue(s, it).value, x, k)
  {
  }

  lemma OtherSince(s: State, e: Event, x: nat, k: nat)
    requires AllSince(s, x, k) && Step(s, e).Some? && !e.Enqueue? && !e.Start? && !e.Purge?
    ensures AllSince(Step(s, e).value, x, k)
  {
    hide Apply;
    hide Since;
    if OnTop(s, e) { TopStep(s, e); } else { SideStep(s, e); }
  }

  lemma SinceStep(s: State, e: Event, x: nat, k: nat)
    requires AllSince(s, x, k) && Step(s, e).Some?
    ensures AllSince(Step(s, e).value, x, k)
  {
    if e.Purge? {
      PurgeSince(s, e.slot, e.gone, x, k);
    } else if e.Start? {
      StartSince(s, e.item, x, k);
    } else if e.Enqueue? {
      EnqueueSince(s, e.item, x, k);
    } else {
      OtherSince(s, e, x, k);
    }
  }

  lemma {:induction false} SinceConnect(hasReset: bool, log: seq<Event>, k: nat)
    requires Reachable(hasReset, log) && k < |log| && log[k].Connect?
    ensures AllSince(After(hasReset, log), log[k].slot, k)
    ensures Holder(log).Some? ==> Since(Holder(log).value, log[k].slot, k)
    decreases |log|
  {
    hide Step;
    hide Inv;
    hide Executing;
    hide AllSince;
    var m := |log| - 1;
    At(hasReset, log, m);
    var s := After(hasReset, log[..m]);
    Always(hasReset, log[..m]);
    Readings(hasReset, log[..m]);
    TimeIs(hasReset, log[..m]);
    assert log[..m + 1] == log;
    if k == m {
      FreshSince(s, log[k], Executing(log[..k]), Holder(log[..k]));
    } else {
      SinceConnect(hasReset, log[..m], k);
      SinceStep(s, log[m], log[k].slot, k);
      RunningSince(s, Executing(log[..m]), Holder(log[..m]), log[k].slot, k);
    }
  }

  lemma FreshSince(s: State, e: Event, r: seq<Item>, h: Option<Item>)
    requires Inv(s) && Reads(s, r, h) && Step(s, e).Some? && e.Connect?
    ensures AllSince(Step(s, e).value, e.slot, s.t) && (h.Some? ==> h.value.slot != e.slot)
  {
    assert forall q: nat :: q < 3 ==> QueueOk(s.clients, s.t, s.queues[q], q);
  }

  lemma RunningSince(s: State, r: seq<Item>, h: Option<Item>, x: nat, k: nat)
    requires Reads(s, r, h) && AllSince(s, x, k)
    ensures forall i :: 0 <= i < |r| ==> Since(r[i], x, k)
  {
  }

  /** A client on a reused slot inherits nothing: whatever starts, or holds the device, for its
      slot arrived after it connected. */
  lemma SlotReuse(hasReset: bool, log: seq<Event>, k: nat, m: nat)
    requires Reachable(hasReset, log) && k < m < |log| && log[k].Connect?
    ensures log[m].Start? && log[m].item.slot == log[k].slot ==> log[m].item.uid > k
    ensures Holder(log[..m]).Some? && Holder(log[..m]).value.slot == log[k].slot ==> Holder(log[..m]).value.uid > k
  {
    At(hasReset, log, m);
    SinceConnect(hasReset, log[..m], k);
  }

  // --- Cleanup -------------------------------------------------------------------------------

  /** The claim ends abnormally: it expired, or its holder hung up. */
  predicate EndsAbnormally(log: seq<Event>, k: nat)
    requires k < |log|
  {
    Holder(log[..k]).Some? && (log[k].Expire? || log[k] == Hangup(Holder(log[..k]).value.slot))
  }

  /** A cleanup of ops is under way, n of them done. */
  predicate CleaningUp(s: State, ops: seq<Op>, n: nat) {
    s.ending == Some(n) && s.claim.Some? && s.claim.value.cleanup == ops && s.stack == [] && s.inbox.None?
  }

  lemma CleanupBegins(s: State, e: Event)
    requires Shape(s) && Step(s, e).Some? && s.claim.Some? && (e.Expire? || e == Hangup(s.claim.value.slot))
    ensures CleaningUp(Step(s, e).value, s.claim.value.cleanup, 0) && s.stack == []
  {
  }

  /** During a cleanup the only possible events are the next cleanup op and, after the last, the
      end of the claim. */
  lemma CleaningStep(s: State, e: Event, ops: seq<Op>, n: nat)
    requires CleaningUp(s, ops, n) && n <= |ops| && Step(s, e).Some?
    ensures n < |ops| ==> e.Cleanup? && e.op == ops[n] && CleaningUp(Step(s, e).value, ops, n + 1)
    ensures n < |ops| ==> Settled(e.op, e.res, XferOf(e))
    ensures n == |ops| ==> e.Vacate?
  {
  }

  /** What becomes of a cleanup op: refused for a slice above 3 and for nothing else, or one transfer. */
  predicate Settled(op: Op, res: Result, xs: seq<Xfer>) {
    if op.slice >= 4 then res == Refused(1) && xs == []
    else
      && !res.Refused?
      && xs == [if op.write then Write(op.slice, op.mmd, op.reg, op.val, res.Done?)
                else Read(op.slice, op.mmd, op.reg, if res.Done? then Some(res.val) else None)]
  }

  /** The state j events after an abnormal end. */
  lemma {:induction false} CleanupProgress(hasReset: bool, log: seq<Event>, k: nat, ops: seq<Op>, j: nat)
    requires Reachable(hasReset, log) && k + 1 + j <= |log| && j <= |ops|
    requires Reachable(hasReset, log[..k + 1]) && CleaningUp(After(hasReset, log[..k + 1]), ops, 0)
    ensures Reachable(hasReset, log[..k + 1 + j]) && CleaningUp(After(hasReset, log[..k + 1 + j]), ops, j)
    decreases j
  {
    hide Step;
    if j > 0 {
      At(hasReset, log, k + j);
      CleanupProgress(hasReset, log, k, ops, j - 1);
      CleaningStep(After(hasReset, log[..k + j]), log[k + j], ops, j - 1);
    }
  }

  lemma CleanupEvent(hasReset: bool, log: seq<Event>, k: nat, ops: seq<Op>, j: nat)
    requires Reachable(hasReset, log) && k + 1 + j < |log| && j <= |ops|
    requires Reachable(hasReset, log[..k + 1]) && CleaningUp(After(hasReset, log[..k + 1]), ops, 0)
    ensures var e := log[k + 1 + j];
            if j < |ops| then e.Cleanup? && e.op == ops[j] && Settled(e.op, e.res, XferOf(e)) else e.Vacate?
  {
    CleanupProgress(hasReset, log, k, ops, j);
    At(hasReset, log, k + 1 + j);
    CleaningStep(After(hasReset, log[..k + 1 + j]), log[k + 1 + j], ops, j);
  }

  /** Cleanup op i of the CLAIM body b is carried out. */
  predicate CleanedUp(b: seq<byte>, i: nat, e: Event)
    requires ClaimSized(b) && i < U16(b, 4)
  {
    e.Cleanup? && OpSpelled(b, 8 + 12 * i, e.op) && Settled(e.op, e.res, XferOf(e))
  }

  /** A claim that expires or whose holder hangs up is followed at once by every op the holder's
      last granted CLAIM spells, in order, each once, and then by the end of the claim; nothing is
      executing, so no mailbox is in flight either (Inflight.CleanupNotInFlight). */
  lemma CleanupExactlyOnce(hasReset: bool, log: seq<Event>, k: nat)
    requires Reachable(hasReset, log) && k < |log| && EndsAbnormally(log, k)
    ensures ClaimSized(Holder(log[..k]).value.body) && Executing(log[..k]) == []
    ensures var b := Holder(log[..k]).value.body;
            && (forall i :: k < i <= k + U16(b, 4) && i < |log| ==> CleanedUp(b, i - k - 1, log[i]))
            && (k + 1 + U16(b, 4) < |log| ==> log[k + 1 + U16(b, 4)].Vacate?)
  {
    hide Step;
    hide Settled;
    hide OpSpelled;
    hide CleanupOps;
    hide ClaimSized;
    At(hasReset, log, k);
    Always(hasReset, log[..k]);
    Readings(hasReset, log[..k]);
    CleanupBegins(After(hasReset, log[..k]), log[k]);
    var ops := CleanupOps(Holder(log[..k]).value.body);
    var b := Holder(log[..k]).value.body;
    OpsSpelled(b);
    forall i | k < i <= k + U16(b, 4) && i < |log| ensures CleanedUp(b, i - k - 1, log[i]) {
      CleanupEvent(hasReset, log, k, ops, i - k - 1);
    }
    if k + 1 + |ops| < |log| { CleanupEvent(hasReset, log, k, ops, |ops|); }
  }

  lemma EndingStarts(s: State, e: Event)
    requires Shape(s) && Step(s, e).Some? && Step(s, e).value.ending.Some?
    ensures s.claim.Some?
    ensures if s.ending.Some? then e.Cleanup? else e.Expire? || e == Hangup(s.claim.value.slot)
  {
  }

  /** Cleanup ops run at no other time: each follows an abnormal end with only cleanup ops in
      between. In particular a RELEASE runs none. */
  lemma CleanupOnlyThen(hasReset: bool, log: seq<Event>, m: nat)
    requires Reachable(hasReset, log) && m < |log| && log[m].Cleanup?
    ensures exists k :: 0 <= k < m && EndsAbnormally(log, k) && forall i :: k < i < m ==> log[i].Cleanup?
  {
    At(hasReset, log, m);
    CleanupOrigin(hasReset, log, m);
  }

  lemma {:induction false} CleanupOrigin(hasReset: bool, log: seq<Event>, m: nat)
    requires Reachable(hasReset, log) && m <= |log|
    requires Reachable(hasReset, log[..m]) && After(hasReset, log[..m]).ending.Some?
    ensures exists k :: 0 <= k < m && EndsAbnormally(log, k) && forall i :: k < i < m ==> log[i].Cleanup?
    decreases m
  {
    hide Step;
    assert m > 0;
    At(hasReset, log, m - 1);
    Always(hasReset, log[..m - 1]);
    EndingStarts(After(hasReset, log[..m - 1]), log[m - 1]);
    if After(hasReset, log[..m - 1]).ending.Some? {
      CleanupOrigin(hasReset, log, m - 1);
    } else {
      Readings(hasReset, log[..m - 1]);
      assert EndsAbnormally(log, m - 1);
    }
  }

  // --- Deadlines -----------------------------------------------------------------------------

  /** The clock at the last grant. */
  function GrantTime(log: seq<Event>): nat {
    if log == [] then 0
    else if log[|log| - 1].Grant? then log[|log| - 1].now
    else GrantTime(log[..|log| - 1])
  }

  /** The holder's deadline: max_ms, the first four bytes of its last granted CLAIM, after that grant. */
  predicate DueAt(deadline: nat, granted: nat, b: seq<byte>) {
    |b| >= 4 && deadline == granted + 1000 * U32(b, 0)
  }

  lemma LeaseTerm(s: State, e: Event)
    requires Apply(s, e).Some?
    ensures e.Grant? ==> s.stack != [] && Apply(s, e).value.claim.Some?
                         && DueAt(Apply(s, e).value.claim.value.deadline, e.now, s.Top().item.body)
    ensures !e.Grant? && Apply(s, e).value.claim.Some? ==> Apply(s, e).value.claim == s.claim
  {
    if OnTop(s, e) { LeaseStep(s, e); }
  }

  lemma {:induction false} DeadlineIs(hasReset: bool, log: seq<Event>)
    requires Reachable(hasReset, log) && Holder(log).Some?
    ensures After(hasReset, log).claim.Some?
    ensures DueAt(After(hasReset, log).claim.value.deadline, GrantTime(log), Holder(log).value.body)
    decreases |log|
  {
    hide Apply;
    hide DueAt;
    hide Executing;
    var k := |log| - 1;
    At(hasReset, log, k);
    assert log[..k + 1] == log;
    Readings(hasReset, log[..k]);
    Readings(hasReset, log);
    LeaseTerm(After(hasReset, log[..k]), log[k]);
    if !log[k].Grant? { DeadlineIs(hasReset, log[..k]); }
  }

  /** A claim expires only when its time is over, with nothing executing. */
  lemma ExpiryIsDue(hasReset: bool, log: seq<Event>, k: nat)
    requires Reachable(hasReset, log) && k < |log| && log[k].Expire?
    ensures Holder(log[..k]).Some? && Executing(log[..k]) == []
    ensures var b := Holder(log[..k]).value.body;
            |b| >= 4 && log[k].now > GrantTime(log[..k]) + 1000 * U32(b, 0)
  {
    hide Run;
    hide Executing;
    hide Holder;
    hide GrantTime;
    At(hasReset, log, k);
    Readings(hasReset, log[..k]);
    DeadlineIs(hasReset, log[..k]);
  }
}
