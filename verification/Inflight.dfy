// The mailbox in-flight flag and the guard it switches on, over whole runs.

module Inflight {
  import opened Bytes
  import opened Wire
  import opened Machine
  import opened Invariants
  import opened ClaimRuns
  import MB = Mailbox
  import Spi

  /** A mailbox transaction past its busy check and not yet over. */
  predicate Active(f: Frame) { f.phase.Mail? && f.phase.p.Active() }

  ghost predicate SomeActive(s: State) {
    exists i :: 0 <= i < |s.stack| && Active(s.stack[i])
  }

  // --- The flag comes down -------------------------------------------------------------------

  /** No event on the innermost item but a mailbox access finds or leaves it active. */
  lemma TopInactive(s: State, e: Event)
    requires Apply(s, e).Some? && OnTop(s, e) && !e.Mb? && s.stack != [] && Apply(s, e).value.stack != []
    ensures !Active(s.Top()) && !Active(Apply(s, e).value.Top())
    ensures Apply(s, e).value.inflight == (s.inflight && !e.Reset?)
  {
    hide Legal;
    hide CleanupOps;
    hide OpAt;
  }

  lemma StartInactive(s: State, e: Event)
    requires Apply(s, e).Some? && (e.Enqueue? || e.Start? || e.Purge?)
    ensures var s' := Apply(s, e).value; s'.inflight == s.inflight && (e.Start? ==> s'.stack != [] && !Active(s'.Top()))
  {
    hide FirstIn;
    hide Class;
  }

  lemma SideFlag(s: State, e: Event)
    requires Apply(s, e).Some? && !OnTop(s, e) && !e.Enqueue? && !e.Start? && !e.Purge?
    ensures Apply(s, e).value.inflight == s.inflight
  {
  }

  /** Frames outside both stacks count as inactive. */
  predicate ActiveAt(s: State, i: int) { 0 <= i < |s.stack| && Active(s.stack[i]) }

  /** Events other than mailbox accesses leave every frame's activity as it was, and a RESET alone
      brings the flag down. */
  lemma ActivityKept(s: State, e: Event)
    requires Step(s, e).Some? && !e.Mb?
    ensures var s' := Step(s, e).value;
            (forall i :: ActiveAt(s', i) == ActiveAt(s, i)) && s'.inflight == (s.inflight && !e.Reset?)
  {
    hide Apply;
    if e.Enqueue? || e.Start? || e.Purge? {
      QueueStep(s, e);
      StartInactive(s, e);
    } else if OnTop(s, e) {
      TopStep(s, e);
      TopInactive(s, e);
    } else {
      SideStep(s, e);
      SideFlag(s, e);
    }
  }

  lemma FlagMb(s: State, slice: byte, a: MB.Access)
    requires (s.inflight ==> SomeActive(s)) && OnMb(s, slice, a).Some?
    ensures OnMb(s, slice, a).value.inflight ==> SomeActive(OnMb(s, slice, a).value)
  {
    hide MB.Next;
    var s' := OnMb(s, slice, a).value;
    var n := |s.stack| - 1;
    if s'.inflight && !Active(s'.stack[n]) {
      var i :| 0 <= i < |s.stack| && Active(s.stack[i]);
      MbKeepsActive(s.stack[n].phase.req, s.stack[n].phase.p, a);
      assert Active(s'.stack[i]);
    }
  }

  /** An access either ends the transaction or leaves it active, unless it was the busy check. */
  lemma MbKeepsActive(r: MB.Req, p: MB.Phase, a: MB.Access)
    requires r.Valid() && MB.Next(r, p, a).Some?
    ensures !p.Done? && !MB.Next(r, p, a).value.Check?
  {
  }

  lemma FlagStep(s: State, e: Event)
    requires (s.inflight ==> SomeActive(s)) && Step(s, e).Some?
    ensures Step(s, e).value.inflight ==> SomeActive(Step(s, e).value)
  {
    if e.Mb? {
      FlagMb(s, e.slice, e.acc);
      assert OnMb(s, e.slice, e.acc).value.stack == Step(s, e).value.stack;
    } else {
      FlagKept(s, e);
    }
  }

  lemma FlagKept(s: State, e: Event)
    requires (s.inflight ==> SomeActive(s)) && Step(s, e).Some? && !e.Mb?
    ensures Step(s, e).value.inflight ==> SomeActive(Step(s, e).value)
  {
    hide Step;
    ActivityKept(s, e);
    if s.inflight {
      var i :| 0 <= i < |s.stack| && Active(s.stack[i]);
      assert ActiveAt(s, i) && ActiveAt(Step(s, e).value, i);
    }
  }

  lemma {:induction false} FlagHasOwner(hasReset: bool, log: seq<Event>)
    requires Reachable(hasReset, log)
    ensures After(hasReset, log).inflight ==> SomeActive(After(hasReset, log))
  {
    hide Step;
    if log != [] {
      var k := |log| - 1;
      At(hasReset, log, k);
      assert log[..k + 1] == log;
      FlagHasOwner(hasReset, log[..k]);
      FlagStep(After(hasReset, log[..k]), log[k]);
    }
  }

  /** Whatever the device replied and however transactions nested, failed or were reset, the flag
      is down whenever nothing is executing. */
  lemma FlagDownWhenIdle(hasReset: bool, log: seq<Event>)
    requires Reachable(hasReset, log) && Executing(log) == []
    ensures !After(hasReset, log).inflight
  {
    FlagHasOwner(hasReset, log);
    Readings(hasReset, log);
  }

  // --- A device that shows BUSY --------------------------------------------------------------

  /** The device shows BUSY to a busy check made while a transaction is in flight. */
  predicate HonestAt(s: State, e: Event) {
    e.Mb? && e.acc.Rd? && e.acc.got.Some? && s.inflight
    && s.stack != [] && s.Top().phase.Mail? && s.Top().phase.p.Check?
    ==> MB.BusyBit(e.acc.got.value)
  }

  /** What keeps transactions apart at one event: an honest busy check, and no RESET while a
      transaction is active. */
  ghost predicate ApartAt(s: State, e: Event) {
    HonestAt(s, e) && (e.Reset? ==> !SomeActive(s))
  }

  ghost predicate Apart(hasReset: bool, log: seq<Event>) {
    forall k :: 0 <= k < |log| && Reachable(hasReset, log[..k]) ==> ApartAt(After(hasReset, log[..k]), log[k])
  }

  lemma ApartPrefix(hasReset: bool, log: seq<Event>, k: nat)
    requires Apart(hasReset, log) && k <= |log|
    ensures Apart(hasReset, log[..k])
  {
    hide ApartAt;
    forall j | 0 <= j < k && Reachable(hasReset, log[..k][..j])
      ensures ApartAt(After(hasReset, log[..k][..j]), log[..k][j])
    {
      assert log[..k][..j] == log[..j];
    }
  }

  /** At most one transaction is active, and the flag is up exactly while one is. */
  ghost predicate Sole(s: State) {
    && (forall i, j :: 0 <= i < j < |s.stack| && Active(s.stack[i]) ==> !Active(s.stack[j]))
    && (s.inflight <==> SomeActive(s))
  }

  lemma SoleMb(s: State, slice: byte, a: MB.Access)
    requires Sole(s) && HonestAt(s, Mb(slice, a)) && OnMb(s, slice, a).Some?
    ensures Sole(OnMb(s, slice, a).value)
  {
    var s' := OnMb(s, slice, a).value;
    var n := |s.stack| - 1;
    var p, p' := s.Top().phase.p, s'.Top().phase.p;
    assert forall i :: 0 <= i < n ==> s'.stack[i] == s.stack[i];
    if p.Check? && p'.Active() {
      assert !s.inflight;
      assert Active(s'.stack[n]);
    } else if p.Active() && p'.Done? {
      assert Active(s.stack[n]) && !Active(s'.stack[n]);
      assert forall i :: 0 <= i < n ==> !Active(s.stack[i]);
    } else {
      assert Active(s.stack[n]) == Active(s'.stack[n]);
      if SomeActive(s) {
        var i :| 0 <= i < |s.stack| && Active(s.stack[i]);
        assert Active(s'.stack[i]);
      }
    }
  }

  lemma SoleStep(s: State, e: Event)
    requires Sole(s) && ApartAt(s, e) && Step(s, e).Some?
    ensures Sole(Step(s, e).value)
  {
    if e.Mb? {
      SoleMb(s, e.slice, e.acc);
      SoleSame(OnMb(s, e.slice, e.acc).value, Step(s, e).value);
    } else {
      SoleKept(s, e);
    }
  }

  lemma SoleSame(s: State, s': State)
    requires Sole(s) && s'.stack == s.stack && s'.inflight == s.inflight
    ensures Sole(s')
  {
  }

  lemma SoleKept(s: State, e: Event)
    requires Sole(s) && ApartAt(s, e) && Step(s, e).Some? && !e.Mb?
    ensures Sole(Step(s, e).value)
  {
    hide Step;
    hide Active;
    ActivityKept(s, e);
    var s' := Step(s, e).value;
    forall i, j | 0 <= i < j < |s'.stack| && Active(s'.stack[i]) ensures !Active(s'.stack[j]) {
      assert ActiveAt(s', i) == ActiveAt(s, i) && ActiveAt(s', j) == ActiveAt(s, j);
    }
    if SomeActive(s) {
      var i :| 0 <= i < |s.stack| && Active(s.stack[i]);
      assert ActiveAt(s, i) && ActiveAt(s', i);
    }
    if SomeActive(s') {
      var i :| 0 <= i < |s'.stack| && Active(s'.stack[i]);
      assert ActiveAt(s', i) && ActiveAt(s, i);
    }
  }

  /** An event that does not keep transactions apart puts an end to it. */
  lemma SoleBroken(s: State, e: Event)
    requires Sole(s) && !ApartAt(s, e) && Step(s, e).Some?
    ensures !Sole(Step(s, e).value)
  {
    var i :| 0 <= i < |s.stack| && Active(s.stack[i]);
    if e.Mb? { BusyIgnored(s, e, i); } else { ResetInside(s, e, i); }
  }

  lemma BusyIgnored(s: State, e: Event, i: nat)
    requires e.Mb? && !HonestAt(s, e) && Step(s, e).Some? && i < |s.stack| && Active(s.stack[i])
    ensures !Sole(Step(s, e).value)
  {
    var s', n := Step(s, e).value, |s.stack| - 1;
    assert Active(s'.stack[i]) && Active(s'.stack[n]) && i < n;
  }

  lemma ResetInside(s: State, e: Event, i: nat)
    requires e.Reset? && Step(s, e).Some? && i < |s.stack| && Active(s.stack[i])
    ensures !Sole(Step(s, e).value)
  {
    hide Step;
    hide Active;
    ActivityKept(s, e);
    assert ActiveAt(s, i) && ActiveAt(Step(s, e).value, i);
  }

  /** One step: transactions stay apart exactly when the event keeps them apart. */
  lemma SoleStepExact(s: State, e: Event)
    requires Sole(s) && Step(s, e).Some?
    ensures Sole(Step(s, e).value) <==> ApartAt(s, e)
  {
    hide Step;
    hide Sole;
    hide ApartAt;
    if ApartAt(s, e) { SoleStep(s, e); } else { SoleBroken(s, e); }
  }

  lemma {:induction false} OneAtATime(hasReset: bool, log: seq<Event>)
    requires Reachable(hasReset, log) && Apart(hasReset, log)
    ensures Sole(After(hasReset, log))
  {
    hide Step;
    hide ApartAt;
    if log != [] {
      var k := |log| - 1;
      At(hasReset, log, k);
      assert log[..k + 1] == log;
      ApartPrefix(hasReset, log, k);
      OneAtATime(hasReset, log[..k]);
      SoleStep(After(hasReset, log[..k]), log[k]);
    }
  }

  /** Whole runs: at most one transaction is ever active, with the flag up exactly then, if and
      only if every busy check was honest and every RESET came while no transaction was active. */
  lemma OneAtATimeExactly(hasReset: bool, log: seq<Event>)
    requires Reachable(hasReset, log)
    ensures (forall k :: 0 <= k <= |log| && Reachable(hasReset, log[..k]) ==> Sole(After(hasReset, log[..k])))
       <==> Apart(hasReset, log)
  {
    hide Step;
    hide Run;
    hide Sole;
    hide ApartAt;
    if Apart(hasReset, log) {
      forall k | 0 <= k <= |log| && Reachable(hasReset, log[..k]) ensures Sole(After(hasReset, log[..k])) {
        ApartPrefix(hasReset, log, k);
        OneAtATime(hasReset, log[..k]);
      }
    } else {
      var k :| 0 <= k < |log| && Reachable(hasReset, log[..k]) && !ApartAt(After(hasReset, log[..k]), log[k]);
      At(hasReset, log, k);
      if Sole(After(hasReset, log[..k])) { SoleBroken(After(hasReset, log[..k]), log[k]); }
      assert !Sole(After(hasReset, log[..k])) || !Sole(After(hasReset, log[..k + 1]));
    }
  }

  // --- Non-interference ----------------------------------------------------------------------

  /** The register on the wire is a mailbox register of some slice. */
  predicate MailboxRegister(w: Spi.Wire) {
    w.page % 32 == MMD_GLOBAL && MB.MB_GUARD_LO <= w.reg <= MB.MB_GUARD_HI
  }

  function OnWire(op: Op): Spi.Wire { Spi.OnWire(op.slice, op.mmd, op.reg) }

  /** Every mailbox transaction works on these registers and no others. */
  lemma TransactionRegisters(req: MB.Req, p: MB.Phase, a: MB.Access)
    requires req.Valid() && MB.PhaseOk(req, p) && MB.Next(req, p, a).Some?
    ensures MailboxRegister(Spi.OnWire(req.slice, MMD_GLOBAL, a.reg))
  {
    MB.AccessInWindow(req, p, a);
    Spi.PageMmd(req.slice, MMD_GLOBAL);
  }

  /** The guard looks at the request, not at the wire: it lets an op through to a mailbox register
      exactly when the op's mmd has more than five bits and its low five name the mailbox. */
  lemma GuardExact(op: Op)
    requires op.slice < 4
    ensures Refusal(op, true, false).None? && MailboxRegister(OnWire(op))
       <==> op.mmd >= 32 && op.mmd % 32 == MMD_GLOBAL && MB.MB_GUARD_LO <= op.reg <= MB.MB_GUARD_HI
  {
    Spi.PageMmd(op.slice, op.mmd);
  }

  /** For instance a write to mmd 0x3e of slice 0 rings slice 1's doorbell past the guard. */
  lemma GuardBypassed(v: u32)
    ensures var op := Op(0, true, 0x3e, MB.MB_FLAG, v);
            Refusal(op, true, false).None? && OnWire(op) == Spi.OnWire(1, MMD_GLOBAL, MB.MB_FLAG)
  {
    assert Spi.Or(0, 0x3e) == 0x3e && Spi.Or(32, 0x1e) == 0x3e by {
      Spi.Powers();
      Spi.OrLow(1, 5, 0x1e);
      Spi.OrLow(0, 6, 0x3e);
      assert Pow2(6) == 64;
    }
  }

  /** While a transaction is active, transactions having been kept apart so far: a client's op that
      reaches the device misses every mailbox register unless its mmd exceeds five bits, and the
      only mailbox access another transaction makes is to read the flag. */
  lemma NonInterference(hasReset: bool, log: seq<Event>, k: nat, i: nat)
    requires Reachable(hasReset, log) && k < |log| && Reachable(hasReset, log[..k]) && Apart(hasReset, log[..k])
    requires i < |After(hasReset, log[..k]).stack| && Active(After(hasReset, log[..k]).stack[i])
    ensures log[k].Access? && log[k].res.OnDevice() ==>
              (MailboxRegister(OnWire(log[k].op)) <==>
               log[k].op.mmd >= 32 && log[k].op.mmd % 32 == MMD_GLOBAL
               && MB.MB_GUARD_LO <= log[k].op.reg <= MB.MB_GUARD_HI)
    ensures log[k].Mb? && i != |After(hasReset, log[..k]).stack| - 1 ==>
              log[k].acc.Rd? && log[k].acc.reg == MB.MB_FLAG
    ensures !log[k].Cleanup?
  {
    At(hasReset, log, k);
    OneAtATime(hasReset, log[..k]);
    Always(hasReset, log[..k]);
    var s, e := After(hasReset, log[..k]), log[k];
    if e.Access? && e.res.OnDevice() {
      GuardExact(e.op);
    } else if e.Mb? && i != |s.stack| - 1 {
      NestedCheck(s, e.slice, e.acc, i);
    }
  }

  lemma NestedCheck(s: State, slice: byte, a: MB.Access, i: nat)
    requires Sole(s) && i < |s.stack| - 1 && Active(s.stack[i]) && Frames(s) && OnMb(s, slice, a).Some?
    ensures a.Rd? && a.reg == MB.MB_FLAG
  {
    assert !Active(s.Top());
  }

  // --- Cleanup -------------------------------------------------------------------------------

  /** A claim that ends abnormally does so, and runs its cleanup ops, with no mailbox in flight. */
  lemma CleanupNotInFlight(hasReset: bool, log: seq<Event>, k: nat)
    requires Reachable(hasReset, log) && k < |log| && (EndsAbnormally(log, k) || log[k].Cleanup?)
    ensures Reachable(hasReset, log[..k]) && !After(hasReset, log[..k]).inflight
  {
    hide Step;
    Prefix(hasReset, log, k);
    if log[k].Cleanup? { var i := CleanupIsHolders(hasReset, log, k); } else { CleanupExactlyOnce(hasReset, log, k); }
    FlagDownWhenIdle(hasReset, log[..k]);
  }
}
