// Whole mailbox transactions, access by access: any request against any response in the window.

module Exchanges {
  import opened Bytes
  import opened CrcErrors
  import opened Mailbox
  import opened Wire

  function Zeros(n: nat): seq<byte> { seq(n, i => 0) }

  /** p filled up to whole words. */
  function Padded(p: seq<byte>): (b: seq<byte>)
    ensures |b| == 4 * Words(|p|) && b[..|p|] == p
  {
    p + Zeros(4 * Words(|p|) - |p|)
  }

  lemma RunNone(r: Req)
    requires r.Valid()
    ensures Run(r, []) == Some(Check)
  {
  }

  lemma RunOne(r: Req, accs: seq<Access>, p: Phase, a: Access)
    requires r.Valid() && Run(r, accs) == Some(p)
    ensures Run(r, accs + [a]) == Next(r, p, a)
  {
    assert (accs + [a])[..|accs|] == accs;
  }

  /** The busy check, which finds flag, and the first n request words. */
  function Sending(r: Req, flag: u32, n: nat): seq<Access>
    requires r.Valid() && n <= Words(r.Len())
  {
    if n == 0 then [Rd(MB_FLAG, Some(flag))]
    else Sending(r, flag, n - 1) + [Wr(MB_CMD + (n - 1), Get32(Padded(Packet(r)), 4 * (n - 1)), true)]
  }

  lemma {:induction false} SendingRuns(r: Req, flag: u32, n: nat)
    requires r.Valid() && n <= Words(r.Len()) && !BusyBit(flag)
    ensures Run(r, Sending(r, flag, n)) == Some(if n < Words(r.Len()) then Send(n) else MaskGet)
  {
    hide Packet;
    hide Get32;
    hide Padded;
    hide Run;
    hide Carries;
    if n == 0 {
      assert Run(r, []) == Some(Check) by { RunNone(r); }
      RunOne(r, [], Check, Rd(MB_FLAG, Some(flag)));
      assert [] + [Rd(MB_FLAG, Some(flag))] == [Rd(MB_FLAG, Some(flag))];
    } else {
      var b := Padded(Packet(r));
      SendingRuns(r, flag, n - 1);
      WordCarries(r, b, n - 1);
      RunOne(r, Sending(r, flag, n - 1), Send(n - 1), Wr(MB_CMD + (n - 1), Get32(b, 4 * (n - 1)), true));
    }
  }

  /** The request and the doorbell. */
  function Rung(r: Req, flag: u32): seq<Access>
    requires r.Valid()
  {
    Sending(r, flag, Words(r.Len()))
    + [Rd(MB_MCU_MASK, Some(0))] + [Wr(MB_MCU_MASK, 1, true)] + [Wr(MB_FLAG, MB_SET_REQ, true)]
  }

  lemma RungRuns(r: Req, flag: u32)
    requires r.Valid() && !BusyBit(flag)
    ensures Run(r, Rung(r, flag)) == Some(Poll)
  {
    hide Run;
    hide Sending;
    var a := Sending(r, flag, Words(r.Len()));
    SendingRuns(r, flag, Words(r.Len()));
    RunOne(r, a, MaskGet, Rd(MB_MCU_MASK, Some(0)));
    RunOne(r, a + [Rd(MB_MCU_MASK, Some(0))], MaskSet(0), Wr(MB_MCU_MASK, 1, true));
    RunOne(r, a + [Rd(MB_MCU_MASK, Some(0))] + [Wr(MB_MCU_MASK, 1, true)], Ring, Wr(MB_FLAG, MB_SET_REQ, true));
  }

  /** Then the response flag and the first n words of packet q. */
  function Reading(r: Req, flag: u32, q: seq<byte>, n: nat): seq<Access>
    requires r.Valid() && WellFormed(q) && n <= Words(|q|)
  {
    if n == 0 then Rung(r, flag) + [Rd(MB_FLAG, Some(2))]
    else Reading(r, flag, q, n - 1) + [Rd(MB_RESP + (n - 1), Some(Get32(Padded(q), 4 * (n - 1))))]
  }

  lemma {:induction false} ReadingRuns(r: Req, flag: u32, q: seq<byte>, n: nat)
    requires r.Valid() && !BusyBit(flag) && WellFormed(q) && n <= Words(|q|)
    ensures Run(r, Reading(r, flag, q, n))
         == Some(if n == 0 then Head else if n < Words(|q|) then Body(Padded(q)[..4 * n]) else Clear(Padded(q)))
  {
    hide Get32;
    hide Le32;
    hide Run;
    hide Rung;
    hide Sealed;
    var b := Padded(q);
    if n == 0 {
      RungRuns(r, flag);
      RunOne(r, Rung(r, flag), Poll, Rd(MB_FLAG, Some(2)));
    } else {
      var w := Get32(b, 4 * (n - 1));
      ReadingRuns(r, flag, q, n - 1);
      Get32RoundTrip(b, 4 * (n - 1));
      assert b[..4 * n] == b[..4 * (n - 1)] + Le32(w) && b[..|b|] == b;
      assert b[2] == q[2] && b[3] == q[3];
      if n == 1 {
        HeadLength(w);
        assert b[..4] == Le32(w);
        RunOne(r, Reading(r, flag, q, 0), Head, Rd(MB_RESP, Some(w)));
      } else {
        RunOne(r, Reading(r, flag, q, n - 1), Body(b[..4 * (n - 1)]), Rd(MB_RESP + (n - 1), Some(w)));
      }
    }
  }

  /** A transaction whose busy check finds flag and whose response window holds q. */
  function Exchange(r: Req, flag: u32, q: seq<byte>): seq<Access>
    requires r.Valid() && WellFormed(q)
  {
    Reading(r, flag, q, Words(|q|)) + [Wr(MB_FLAG, MB_CLR_RESP, true)]
  }

  lemma ExchangeRuns(r: Req, flag: u32, q: seq<byte>)
    requires r.Valid() && !BusyBit(flag) && WellFormed(q)
    ensures Run(r, Exchange(r, flag, q)) == Some(Done(OK, q[0], q[4..|q| - 2]))
  {
    hide Run;
    hide Reading;
    hide Sealed;
    var b := Padded(q);
    ReadingRuns(r, flag, q, Words(|q|));
    assert DeclaredLen(b) == |q| && b[..|q|] == q && b[4..|q| - 2] == q[4..|q| - 2];
    RunOne(r, Reading(r, flag, q, Words(|q|)), Clear(b), Wr(MB_FLAG, MB_CLR_RESP, true));
  }

  lemma {:induction false} SendingStarts(r: Req, flag: u32, n: nat)
    requires r.Valid() && n <= Words(r.Len())
    ensures |Sending(r, flag, n)| == n + 1 && Sending(r, flag, n)[0] == Rd(MB_FLAG, Some(flag))
  {
    if n > 0 { SendingStarts(r, flag, n - 1); }
  }

  lemma {:induction false} ReadingStarts(r: Req, flag: u32, q: seq<byte>, n: nat)
    requires r.Valid() && WellFormed(q) && n <= Words(|q|)
    ensures Reading(r, flag, q, n) != [] && Reading(r, flag, q, n)[0] == Rd(MB_FLAG, Some(flag))
  {
    hide WellFormed;
    if n > 0 { ReadingStarts(r, flag, q, n - 1); } else { SendingStarts(r, flag, Words(r.Len())); }
  }

  /** A response that was there before the request is taken for the answer. The busy check looks at
      the busy bit alone, and for every request and every packet q there is a transaction that
      finds the response flag up at its busy check and returns the command and payload of q. */
  lemma StaleResponse(r: Req, q: seq<byte>)
    requires r.Valid() && WellFormed(q)
    ensures forall v: u32, w: u32 :: BusyBit(v) == BusyBit(w) ==>
              Next(r, Check, Rd(MB_FLAG, Some(v))) == Next(r, Check, Rd(MB_FLAG, Some(w)))
    ensures exists accs: seq<Access> :: |accs| > 0 && accs[0].Rd? && accs[0].got.Some? && RespBit(accs[0].got.value)
                           && Run(r, accs) == Some(Done(OK, q[0], q[4..|q| - 2]))
  {
    hide Run;
    hide Exchange;
    ExchangeRuns(r, 2, q);
    ExchangeStarts(r, 2, q);
  }

  lemma ExchangeStarts(r: Req, flag: u32, q: seq<byte>)
    requires r.Valid() && WellFormed(q)
    ensures Exchange(r, flag, q) != [] && Exchange(r, flag, q)[0] == Rd(MB_FLAG, Some(flag))
  {
    ReadingStarts(r, flag, q, Words(|q|));
  }
}
