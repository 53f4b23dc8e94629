// The order in which requests start: within one client and between priorities.

module Order {
  import opened Bytes
  import opened Wire
  import opened Machine
  import opened Invariants
  import opened ClaimRuns

  const PRIO_HIGH := 1
  const PRIO_LOW := 2

  /** Flags a ask to be served before flags b. */
  predicate Outranks(a: u16, b: u16) {
    (a % 4 == PRIO_HIGH && b % 4 != PRIO_HIGH) || (a % 4 != PRIO_LOW && b % 4 == PRIO_LOW)
  }

  /** Register requests, mailbox requests and type 0, which wait while another client holds the
      device. */
  predicate Bulk(it: Item) { it.hdr.typ in {0, 1, 2, 3, 6} }

  /** Nobody else's claim keeps the item from starting. */
  predicate Servable(holder: Option<Item>, it: Item) {
    holder.None? || it.slot == holder.value.slot || !Bulk(it)
  }

  /** Same client structure, same rank, both held back by claims or neither. */
  predicate SameGroup(a: Item, b: Item) {
    && a.slot == b.slot && (Bulk(a) <==> Bulk(b))
    && !Outranks(a.hdr.flags, b.hdr.flags) && !Outranks(b.hdr.flags, a.hdr.flags)
  }

  lemma SameQueue(a: Item, b: Item)
    requires SameGroup(a, b)
    ensures Class(a.hdr.flags) == Class(b.hdr.flags) && Control(a.hdr.typ) == Control(b.hdr.typ)
  {
  }

  /** The item that starts is the oldest of its group in the queue. */
  lemma NoneOvertaken(s: State, b: Item, i: nat)
    requires Inv(s) && OnStart(s, b).Some?
    requires i < |s.queues[Class(b.hdr.flags)]| && SameGroup(s.queues[Class(b.hdr.flags)][i], b)
    ensures b.uid <= s.queues[Class(b.hdr.flags)][i].uid
  {
    SameQueue(s.queues[Class(b.hdr.flags)][i], b);
    var k := FirstQueue(s.queues, s.Owner());
    var j := FirstIn(s.queues[k], s.Owner());
    assert QueueOk(s.clients, s.t, s.queues[k], k) && b == s.queues[k][j];
    assert Sorted(s.queues[k]);
  }

  /** Seen from event j on: whatever is queued and arrived before j was queued at j. */
  ghost predicate Waited(s: State, seen: Queues, j: nat) {
    && (forall q, i :: 0 <= q < 3 && 0 <= i < |s.queues[q]| && s.queues[q][i].uid < j ==> s.queues[q][i] in seen[q])
    && (s.inbox.Some? ==> s.inbox.value.uid >= j)
    && s.t >= j
  }

  lemma PurgeWaited(s: State, slot: nat, gone: seq<Item>, seen: Queues, j: nat)
    requires Waited(s, seen, j) && OnPurge(s, slot, gone).Some?
    ensures Waited(OnPurge(s, slot, gone).value, seen, j)
  {
    var s' := OnPurge(s, slot, gone).value;
    forall q, i | 0 <= q < 3 && 0 <= i < |s'.queues[q]| && s'.queues[q][i].uid < j
      ensures s'.queues[q][i] in seen[q]
    {
      NotOfSub(s.queues[q], slot);
      assert s'.queues[q][i] in s.queues[q];
    }
  }

  lemma WaitedStep(s: State, e: Event, seen: Queues, j: nat)
    requires Waited(s, seen, j) && Step(s, e).Some?
    ensures Waited(Step(s, e).value, seen, j)
  {
    hide Waited;
    if e.Purge? {
      PurgeWaited(s, e.slot, e.gone, seen, j);
      WaitedLater(OnPurge(s, e.slot, e.gone).value, seen, j);
    } else if e.Start? {
      StartWaited(s, e.item, seen, j);
      WaitedLater(OnStart(s, e.item).value, seen, j);
    } else if e.Enqueue? {
      EnqueueWaited(s, e.item, seen, j);
      WaitedLater(OnEnqueue(s, e.item).value, seen, j);
    } else {
      OtherWaited(s, e, seen, j);
    }
  }

  lemma WaitedLater(s: State, seen: Queues, j: nat)
    requires Waited(s, seen, j)
    ensures Waited(s.(t := s.t + 1), seen, j)
  {
  }

  lemma StartWaited(s: State, it: Item, seen: Queues, j: nat)
    requires Waited(s, seen, j) && OnStart(s, it).Some?
    ensures Waited(OnStart(s, it).value, seen, j)
  {
    hide Begin;
  }

  lemma EnqueueWaited(s: State, it: Item, seen: Queues, j: nat)
    requires Waited(s, seen, j) && OnEnqueue(s, it).Some?
    ensures Waited(OnEnqueue(s, it).value, seen, j)
  {
  }

  lemma OtherWaited(s: State, e: Event, seen: Queues, j: nat)
    requires Waited(s, seen, j) && Step(s, e).Some? && !e.Enqueue? && !e.Start? && !e.Purge?
    ensures Waited(Step(s, e).value, seen, j)
  {
    hide Apply;
    if OnTop(s, e) { TopStep(s, e); } else { SideStep(s, e); }
  }

  lemma {:induction false} OldOnesWaited(hasReset: bool, log: seq<Event>, j: nat, m: nat)
    requires Reachable(hasReset, log) && j <= m <= |log|
    requires Reachable(hasReset, log[..j]) && After(hasReset, log[..j]).inbox.None?
    ensures Reachable(hasReset, log[..m])
    ensures Waited(After(hasReset, log[..m]), After(hasReset, log[..j]).queues, j)
    decreases m
  {
    hide Step;
    if m == j {
      TimeIs(hasReset, log[..j]);
    } else {
      At(hasReset, log, m - 1);
      OldOnesWaited(hasReset, log, j, m - 1);
      WaitedStep(After(hasReset, log[..m - 1]), log[m - 1], After(hasReset, log[..j]).queues, j);
    }
  }

  lemma StartsFromQueue(s: State, it: Item)
    requires Inv(s) && OnStart(s, it).Some?
    ensures s.inbox.None? && it.uid < s.t && it in s.queues[Class(it.hdr.flags)]
  {
    var k := FirstQueue(s.queues, s.Owner());
    assert QueueOk(s.clients, s.t, s.queues[k], k);
  }

  lemma StartedAt(hasReset: bool, log: seq<Event>, i: nat)
    requires Reachable(hasReset, log) && i < |log| && log[i].Start?
    ensures Reachable(hasReset, log[..i])
    ensures var s, it := After(hasReset, log[..i]), log[i].item;
            Inv(s) && OnStart(s, it).Some? && s.inbox.None? && it.uid < i && it in s.queues[Class(it.hdr.flags)]
  {
    At(hasReset, log, i);
    Always(hasReset, log[..i]);
    TimeIs(hasReset, log[..i]);
    StartsFromQueue(After(hasReset, log[..i]), log[i].item);
  }

  /** Two items of the same client, class and group start in the order they arrived, whatever
      claims come and go and however deep the draining nests. */
  lemma StartOrder(hasReset: bool, log: seq<Event>, i: nat, j: nat)
    requires Reachable(hasReset, log) && i < |log| && j < |log| && log[i].Start? && log[j].Start?
    requires SameGroup(log[i].item, log[j].item) && log[i].item.uid < log[j].item.uid
    ensures i < j
  {
    hide Run;
    hide Inv;
    hide OnStart;
    var a, b := log[i].item, log[j].item;
    StartedAt(hasReset, log, i);
    StartedAt(hasReset, log, j);
    SameQueue(a, b);
    if j < i {
      var k, sj := Class(b.hdr.flags), After(hasReset, log[..j]);
      OldOnesWaited(hasReset, log, j, i);
      assert a in sj.queues[k];
      var n :| 0 <= n < |sj.queues[k]| && sj.queues[k][n] == a;
      NoneOvertaken(sj, b, n);
    }
  }

  /** Whatever starts, nothing that could have been started instead outranks it, and nothing of
      its own rank that could have been started arrived before it. */
  lemma PriorityOrder(hasReset: bool, log: seq<Event>, j: nat, k: nat, i: nat)
    requires Reachable(hasReset, log) && j < |log| && log[j].Start? && Reachable(hasReset, log[..j])
    requires k < 3 && i < |After(hasReset, log[..j]).queues[k]|
    requires Servable(Holder(log[..j]), After(hasReset, log[..j]).queues[k][i])
    ensures var x, it := After(hasReset, log[..j]).queues[k][i], log[j].item;
            !Outranks(x.hdr.flags, it.hdr.flags) && (Outranks(it.hdr.flags, x.hdr.flags) || it.uid <= x.uid)
  {
    hide Run;
    hide Holder;
    hide Executing;
    At(hasReset, log, j);
    Always(hasReset, log[..j]);
    Readings(hasReset, log[..j]);
    FirstStarts(After(hasReset, log[..j]), log[j].item, k, i);
  }

  lemma FirstStarts(s: State, it: Item, k: nat, i: nat)
    requires Items(s) && InOrder(s) && OnStart(s, it).Some?
    requires k < 3 && i < |s.queues[k]| && Eligible(s.Owner(), s.queues[k][i])
    ensures var x := s.queues[k][i];
            !Outranks(x.hdr.flags, it.hdr.flags) && (Outranks(it.hdr.flags, x.hdr.flags) || it.uid <= x.uid)
  {
    var m := FirstQueue(s.queues, s.Owner());
    assert QueueOk(s.clients, s.t, s.queues[m], m) && QueueOk(s.clients, s.t, s.queues[k], k);
    assert Sorted(s.queues[m]);
  }
}
