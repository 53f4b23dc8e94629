// Runs that show what the daemon does not promise. One client's mailbox transaction waits for its
// response; of another client's two requests the first, a RESET or a CLAIM, is served inside the
// wait.

module Scenes {
  import opened Bytes
  import opened Wire
  import opened Machine
  import opened Effects
  import opened ClaimRuns
  import opened Inflight
  import MB = Mailbox
  import EX = Exchanges
  import Spi

  // --- Requests ------------------------------------------------------------------------------

  /** A mailbox request without payload, a CLAIM without cleanup ops, a RESET with defaults. */
  const EIGHT: seq<byte> := [0, 0, 0, 0, 0, 0, 0, 0]

  /** A write of the doorbell to the mailbox flag of slice 0. */
  const RING: seq<byte> := [0, 1, 0x1e, 0, 0, 0xda, 0, 0, 0, 0, 1, 0]

  const REQ := MB.Req(0, 0, [])

  function Msg(typ: byte, body: seq<byte>): seq<byte>
    requires |body| <= MSG_MAX
  {
    Request(typ, 0, 0, body)
  }

  function ItemAt(uid: nat, slot: nat, cid: nat, typ: byte, body: seq<byte>): Item
    requires |body| <= MSG_MAX
  {
    Item(uid, slot, cid, Hdr(VER, typ, 0, 0, |body|), body)
  }

  const MAIL := ItemAt(2, 0, 1, MAILBOX, EIGHT)

  function Second(typ: byte): Item { ItemAt(4, 1, 2, typ, EIGHT) }

  const LAST := ItemAt(6, 1, 2, WRITE, RING)

  // --- Steps ---------------------------------------------------------------------------------

  lemma Go(log: seq<Event>, s: State, e: Event, s1: State)
    requires OnTrack(true, log, s) && Apply(s, e) == Some(s1)
    ensures OnTrack(true, log + [e], s1.(t := s.t + 1))
  {
    hide Apply;
    OneStep(true, log, s, e);
  }

  /** A datagram arrives and is queued in the normal class. */
  lemma Arrives(log: seq<Event>, s: State, slot: nat, typ: byte, body: seq<byte>)
    requires OnTrack(true, log, s) && s.Idle() && slot in s.clients && |body| <= MSG_MAX && Queued(s.queues) < 3
    ensures var it := ItemAt(s.t, slot, s.clients[slot], typ, body);
            OnTrack(true, log + [Receive(slot, Msg(typ, body))] + [Enqueue(it)],
                    s.(t := s.t + 2, queues := s.queues[1 := s.queues[1] + [it]]))
  {
    hide OnTrack;
    hide Apply;
    var m := Msg(typ, body);
    RequestRoundTrip(typ, 0, 0, body);
    ReceiveEffect(s, slot, m);
    var s1 := s.(inbox := Some(Letter(s.t, slot, s.clients[slot], m)), t := s.t + 1);
    Go(log, s, Receive(slot, m), s.(inbox := s1.inbox));
    EnqueueEffect(s1);
    var it := ItemOf(s1.inbox.value);
    Go(log + [Receive(slot, m)], s1, Enqueue(it), s1.(inbox := None, queues := s.queues[1 := s.queues[1] + [it]]));
  }

  const TWO := [Connect(0), Connect(1)]

  /** Two clients are connected and these items queued. */
  function AtRest(t: nat, items: seq<Item>): State {
    State(t, map[0 := 1, 1 := 2], 2, None, [[], items, []], [], None, None, None, false, true)
  }

  lemma TwoConnect()
    ensures OnTrack(true, TWO, AtRest(2, []))
  {
    assert OnTrack(true, [], Init(true));
    hide OnTrack;
    hide Apply;
    var s0 := Init(true);
    ConnectEffect(s0, 0);
    Go([], s0, Connect(0), s0.(clients := map[0 := 1], nextCid := 1));
    var s1 := s0.(clients := map[0 := 1], nextCid := 1, t := 1);
    ConnectEffect(s1, 1);
    Go([] + [Connect(0)], s1, Connect(1), s1.(clients := s1.clients[1 := 2], nextCid := 2));
    assert [] + [Connect(0)] + [Connect(1)] == TWO;
  }

  lemma Queues(log: seq<Event>, t: nat, items: seq<Item>, slot: nat, typ: byte, body: seq<byte>)
    requires OnTrack(true, log, AtRest(t, items)) && slot < 2 && |body| <= MSG_MAX && |items| < 3
    ensures var it := ItemAt(t, slot, slot + 1, typ, body);
            OnTrack(true, log + [Receive(slot, Msg(typ, body))] + [Enqueue(it)], AtRest(t + 2, items + [it]))
  {
    hide OnTrack;
    var s, it := AtRest(t, items), ItemAt(t, slot, slot + 1, typ, body);
    Arrives(log, s, slot, typ, body);
    assert s.queues[1 := s.queues[1] + [it]] == [[], items + [it], []];
  }

  function Opening(typ: byte): seq<Event> {
    TWO + [Receive(0, Msg(MAILBOX, EIGHT))] + [Enqueue(MAIL)]
    + [Receive(1, Msg(typ, EIGHT))] + [Enqueue(Second(typ))]
    + [Receive(1, Msg(WRITE, RING))] + [Enqueue(LAST)]
  }

  lemma Opens(typ: byte)
    ensures OnTrack(true, Opening(typ), AtRest(8, [MAIL, Second(typ), LAST]))
  {
    hide OnTrack;
    hide AtRest;
    TwoConnect();
    Queues(TWO, 2, [], 0, MAILBOX, EIGHT);
    var l4 := TWO + [Receive(0, Msg(MAILBOX, EIGHT))] + [Enqueue(MAIL)];
    assert [] + [MAIL] == [MAIL];
    Queues(l4, 4, [MAIL], 1, typ, EIGHT);
    var l6 := l4 + [Receive(1, Msg(typ, EIGHT))] + [Enqueue(Second(typ))];
    assert [MAIL] + [Second(typ)] == [MAIL, Second(typ)];
    Queues(l6, 6, [MAIL, Second(typ)], 1, WRITE, RING);
    assert [MAIL, Second(typ)] + [LAST] == [MAIL, Second(typ), LAST];
  }

  // --- The wait ------------------------------------------------------------------------------

  function Accesses(slice: byte, accs: seq<MB.Access>): seq<Event> {
    seq(|accs|, i requires 0 <= i < |accs| => Mb(slice, accs[i]))
  }

  /** Accesses that follow the protocol take the innermost item along, the flag up from the first
      one that leaves the busy check behind. */
  lemma {:induction false} Talks(log: seq<Event>, s: State, req: MB.Req, accs: seq<MB.Access>)
    requires OnTrack(true, log, s) && InMail(s, req, MB.Check) && !s.inflight
    requires MB.Run(req, accs).Some? && !MB.Run(req, accs).value.Done?
    ensures OnTrack(true, log + Accesses(req.slice, accs),
                    MailAt(s, s.t + |accs|, req, MB.Run(req, accs).value, accs != []))
  {
    hide OnTrack;
    hide Apply;
    hide MB.Next;
    if accs == [] {
      assert log + Accesses(req.slice, accs) == log;
      assert s.stack[|s.stack| - 1 := s.Top().(phase := Mail(req, MB.Check))] == s.stack;
    } else {
      var n := |accs| - 1;
      var p := MB.Run(req, accs[..n]).value;
      NotOver(req, p, accs[n]);
      Talks(log, s, req, accs[..n]);
      var m := MailAt(s, s.t + n, req, p, accs[..n] != []);
      var p' := MB.Run(req, accs).value;
      MailTwice(s, s.t + n, req, p, accs[..n] != [], s.t + n + 1, p', true);
      MbEffect(m, req, p, accs[n]);
      CheckFirst(req, accs);
      Go(log + Accesses(req.slice, accs[..n]), m, Mb(req.slice, accs[n]), Apply(m, Mb(req.slice, accs[n])).value);
      assert log + Accesses(req.slice, accs) == log + Accesses(req.slice, accs[..n]) + [Mb(req.slice, accs[n])];
    }
  }

  lemma NotOver(req: MB.Req, p: MB.Phase, a: MB.Access)
    requires req.Valid() && MB.Next(req, p, a).Some?
    ensures !p.Done? && !MB.Next(req, p, a).value.Check?
  {
  }

  lemma CheckFirst(req: MB.Req, accs: seq<MB.Access>)
    requires req.Valid() && accs != [] && MB.Run(req, accs).Some?
    ensures MB.Run(req, accs[..|accs| - 1]).Some?
    ensures MB.Run(req, accs[..|accs| - 1]).value.Check? <==> |accs| == 1
  {
    hide MB.Next;
    var n := |accs| - 1;
    if n > 0 {
      NotOver(req, MB.Run(req, accs[..n][..n - 1]).value, accs[..n][n - 1]);
    }
  }

  /** The request goes out, the doorbell rings, and the response is not there yet. */
  function Waits(): seq<MB.Access> { EX.Rung(REQ, 0) + [MB.Rd(MB.MB_FLAG, Some(0))] }

  lemma WaitsRuns()
    ensures MB.Run(REQ, Waits()) == Some(MB.Wait)
  {
    hide MB.Run;
    hide EX.Rung;
    EX.RungRuns(REQ, 0);
    EX.RunOne(REQ, EX.Rung(REQ, 0), MB.Poll, MB.Rd(MB.MB_FLAG, Some(0)));
  }

  const WAITING := Frame(MAIL, Mail(REQ, MB.Wait))

  /** The mailbox item waits and items are queued. */
  function InWait(t: nat, items: seq<Item>): State {
    AtRest(t, items).(stack := [WAITING], inflight := true)
  }

  function Wait(typ: byte): seq<Event> { Opening(typ) + [Start(MAIL)] + Accesses(0, Waits()) }

  lemma WaitBegins(typ: byte)
    ensures OnTrack(true, Wait(typ), InWait(9 + |Waits()|, [Second(typ), LAST]))
  {
    hide OnTrack;
    hide Apply;
    hide MB.Run;
    hide Waits;
    hide Opening;
    Opens(typ);
    var s := AtRest(8, [MAIL, Second(typ), LAST]);
    assert [MAIL] + [Second(typ), LAST] == [MAIL, Second(typ), LAST];
    StartFirst(Opening(typ), s, MAIL, [Second(typ), LAST]);
    MailBegins();
    var s1 := AtRest(9, [Second(typ), LAST]).(stack := [Frame(MAIL, Mail(REQ, MB.Check))]);
    assert [] + [Frame(MAIL, Mail(REQ, MB.Check))] == s1.stack;
    WaitsRuns();
    Talks(Opening(typ) + [Start(MAIL)], s1, REQ, Waits());
    assert Waits() != [] by { WaitsSome(); }
    assert s1.WithTop(Mail(REQ, MB.Wait)).stack == [WAITING];
  }

  lemma WaitsSome()
    ensures Waits() != []
  {
  }

  lemma MailBegins()
    ensures Begin(MAIL, None, true) == Mail(REQ, MB.Check)
  {
    assert EIGHT[MB_LEN..] == [];
  }

  /** The first queued item starts; only the normal class has any. */
  lemma StartFirst(log: seq<Event>, s: State, it: Item, rest: seq<Item>)
    requires OnTrack(true, log, s) && s.MayStart() && s.hasReset
    requires s.queues == [[], [it] + rest, []] && Eligible(s.Owner(), it)
    ensures OnTrack(true, log + [Start(it)],
                    s.(t := s.t + 1, queues := [[], rest, []],
                       stack := s.stack + [Frame(it, Begin(it, s.Owner(), true))]))
  {
    hide OnTrack;
    hide Apply;
    hide Begin;
    assert FirstQueue(s.queues, s.Owner()) == 1 && FirstIn(s.queues[1], s.Owner()) == 0;
    StartEffect(s, 1, 0);
    assert Without(s.queues[1], 0) == rest;
    assert s.queues[1 := rest] == [[], rest, []];
    Go(log, s, Start(it), s.(queues := [[], rest, []], stack := s.stack + [Frame(it, Begin(it, s.Owner(), true))]));
  }

  /** The second request starts inside the wait and is about to take effect. */
  lemma SecondStarts(typ: byte)
    requires typ == RESET || typ == CLAIM
    ensures OnTrack(true, Wait(typ) + [Start(Second(typ))],
                    InWait(10 + |Waits()|, [LAST]).(stack := [WAITING, Frame(Second(typ), Asked)]))
  {
    hide OnTrack;
    hide Waits;
    hide Wait;
    WaitBegins(typ);
    var s := InWait(9 + |Waits()|, [Second(typ), LAST]);
    assert [Second(typ)] + [LAST] == [Second(typ), LAST];
    StartFirst(Wait(typ), s, Second(typ), [LAST]);
    assert [WAITING] + [Frame(Second(typ), Asked)] == [WAITING, Frame(Second(typ), Asked)];
  }

  /** Once ready, it is answered and retired. */
  function Closing(it: Item): seq<Event> { [Reply(it.uid, it.slot, it.hdr, OK, []), Finish(it)] }

  lemma Closes(log: seq<Event>, s: State)
    requires OnTrack(true, log, s) && s.stack != [] && s.Quiet() && s.Top().phase == Ready(OK, [])
    ensures OnTrack(true, log + Closing(s.Top().item), s.(t := s.t + 2, stack := s.stack[..|s.stack| - 1]))
  {
    hide OnTrack;
    hide Apply;
    var it := s.Top().item;
    var e := Reply(it.uid, it.slot, it.hdr, OK, []);
    ReplyEffect(s, OK, []);
    Go(log, s, e, s.WithTop(Answered));
    var s1 := s.WithTop(Answered).(t := s.t + 1);
    FinishEffect(s1);
    Go(log + [e], s1, Finish(it), s1.(stack := s1.stack[..|s1.stack| - 1]));
    assert log + [e] + [Finish(it)] == log + Closing(it);
    assert s1.stack[..|s1.stack| - 1] == s.stack[..|s.stack| - 1];
  }

  // --- RESET ---------------------------------------------------------------------------------

  const DOORBELL := Op(0, true, MMD_GLOBAL, MB.MB_FLAG, 0x1_0000)

  /** A RESET served inside the wait. */
  function ResetInside(): seq<Event> {
    Wait(RESET) + [Start(Second(RESET))] + [Reset] + Closing(Second(RESET)) + [Start(LAST)]
  }

  lemma ResetInsideRuns()
    ensures OnTrack(true, ResetInside(),
                    AtRest(14 + |Waits()|, []).(stack := [WAITING, Frame(LAST, Ops(0, OK, RING))]))
  {
    hide OnTrack;
    hide Apply;
    hide Waits;
    hide Wait;
    var b, n := Second(RESET), |Waits()|;
    var l1 := Wait(RESET) + [Start(b)];
    SecondStarts(RESET);
    var s1 := InWait(10 + n, [LAST]).(stack := [WAITING, Frame(b, Asked)]);
    ResetEffect(s1);
    var s2 := AtRest(11 + n, [LAST]).(stack := [WAITING, Frame(b, Ready(OK, []))]);
    assert s1.WithTop(Ready(OK, [])).stack == s2.stack;
    Go(l1, s1, Reset, s2.(t := 10 + n));
    Closes(l1 + [Reset], s2);
    var s3 := AtRest(13 + n, [LAST]).(stack := [WAITING]);
    assert s2.stack[..1] == [WAITING] && [LAST] + [] == [LAST];
    StartFirst(l1 + [Reset] + Closing(b), s3, LAST, []);
    LastBegins();
    assert [WAITING] + [Frame(LAST, Ops(0, OK, RING))] == [WAITING, Frame(LAST, Ops(0, OK, RING))];
  }

  lemma LastBegins()
    ensures Begin(LAST, None, true) == Ops(0, OK, RING) && OpAt(RING, 0) == DOORBELL
  {
    assert RING[1 := 1] == RING;
  }

  /** A RESET served inside a mailbox wait lifts the guard while the transaction goes on: this run
      rings the waiting mailbox's doorbell for another client. */
  lemma ResetLiftsGuard()
    ensures var log := ResetInside() + [Access(DOORBELL, Machine.Done(DOORBELL.val))];
            && Reachable(true, log) && Reachable(true, ResetInside())
            && SomeActive(After(true, ResetInside())) && MailboxRegister(OnWire(DOORBELL)) && !Apart(true, log)
  {
    hide Run;
    hide ResetInside;
    hide Apply;
    hide Waits;
    ResetInsideRuns();
    LastBegins();
    var l, s := ResetInside(), AtRest(14 + |Waits()|, []).(stack := [WAITING, Frame(LAST, Ops(0, OK, RING))]);
    assert OnTrack(true, l, s);
    var e := Access(DOORBELL, Machine.Done(DOORBELL.val));
    AccessEffect(s, DOORBELL, Machine.Done(DOORBELL.val));
    Go(l, s, e, s.WithTop(OpsAfter(s.Top().phase, DOORBELL, Machine.Done(DOORBELL.val))));
    assert OnTrack(true, l + [e],
                   s.WithTop(OpsAfter(s.Top().phase, DOORBELL, Machine.Done(DOORBELL.val))).(t := s.t + 1));
    Spi.PageMmd(0, MMD_GLOBAL);
    assert Active(s.stack[0]);
    NotSole(s);
    if Apart(true, l + [e]) {
      ApartPrefix(true, l + [e], |l|);
      assert (l + [e])[..|l|] == l;
      OneAtATime(true, l);
    }
  }

  lemma NotSole(s: State)
    requires SomeActive(s) && !s.inflight
    ensures !Sole(s)
  {
  }

  // --- CLAIM ---------------------------------------------------------------------------------

  /** A CLAIM granted inside the wait. */
  function ClaimInside(now: nat): seq<Event> {
    Wait(CLAIM) + [Start(Second(CLAIM))] + [Grant(now)] + Closing(Second(CLAIM))
  }

  lemma ClaimInsideRuns(now: nat)
    ensures OnTrack(true, ClaimInside(now),
                    InWait(13 + |Waits()|, [LAST]).(claim := Some(Claimed(1, 2, now, []))))
  {
    hide OnTrack;
    hide Apply;
    hide Waits;
    hide Wait;
    var b, n := Second(CLAIM), |Waits()|;
    var l1 := Wait(CLAIM) + [Start(b)];
    SecondStarts(CLAIM);
    var s1 := InWait(10 + n, [LAST]).(stack := [WAITING, Frame(b, Asked)]);
    GrantEffect(s1, now);
    assert CleanupOps(EIGHT) == [] && Get32(EIGHT, 0) == 0;
    var s2 := InWait(11 + n, [LAST]).(stack := [WAITING, Frame(b, Ready(OK, []))],
                                      claim := Some(Claimed(1, 2, now, [])));
    assert s1.WithTop(Ready(OK, [])).stack == s2.stack;
    Go(l1, s1, Grant(now), s2.(t := 10 + n));
    Closes(l1 + [Grant(now)], s2);
    assert s2.stack[..1] == [WAITING];
  }

  /** Exclusion is not whole-device: in this run the second client holds the device, and the next
      access is one of the first client's mailbox transaction. */
  lemma MailboxIgnoresClaim(now: nat)
    ensures var a := MB.Rd(MB.MB_FLAG, Some(0)); var log := ClaimInside(now);
            && Reachable(true, log + [Mb(0, a)])
            && Holder(log).Some? && Holder(log).value.cid == 2
            && Executing(log) != [] && Last(Executing(log)) == MAIL && MAIL.cid == 1
  {
    hide Run;
    hide ClaimInside;
    hide Apply;
    hide Waits;
    hide Executing;
    hide Holder;
    var a, l := MB.Rd(MB.MB_FLAG, Some(0)), ClaimInside(now);
    var s := InWait(13 + |Waits()|, [LAST]).(claim := Some(Claimed(1, 2, now, [])));
    ClaimInsideRuns(now);
    assert OnTrack(true, l, s);
    MbEffect(s, REQ, MB.Wait, a);
    Go(l, s, Mb(0, a), Apply(s, Mb(0, a)).value);
    assert OnTrack(true, l + [Mb(0, a)], Apply(s, Mb(0, a)).value.(t := s.t + 1));
    Readings(true, l);
  }
}
