// Runs against a device whose registers change only when the daemon writes them: what comes back is
// what was last written, whichever client or mailbox transaction wrote it.

module DeviceRuns {
  import opened Bytes
  import opened Machine
  import Spi

  /** The transfer is this call of the SPI layer, with this return. */
  predicate Gave(c: Spi.Call, r: Spi.Ret, x: Xfer) {
    match x
    case Read(slice, mmd, reg, got) =>
      c.Get? && c.k == Spi.Key(slice, mmd, reg) && r == if got.Some? then Spi.Value(got.value) else Spi.Failed
    case Write(slice, mmd, reg, val, ok) =>
      c.Put? && c.k == Spi.Key(slice, mmd, reg) && c.v == val && r == if ok then Spi.Stored else Spi.Failed
  }

  /** The transfers are those of calls on a device that starts with these registers. */
  ghost predicate FromDevice(regs: Spi.Wire -> u32, calls: seq<Spi.Call>, xs: seq<Xfer>) {
    && |calls| == |xs| == |Spi.DeviceRun(regs, calls)|
    && forall i :: 0 <= i < |xs| ==> Gave(calls[i], Spi.DeviceRun(regs, calls)[i], xs[i])
  }

  /** The registers after calls. */
  function RegsOf(regs: Spi.Wire -> u32, calls: seq<Spi.Call>): Spi.Wire -> u32
    decreases |calls|
  {
    if calls == [] then regs else RegsOf(Spi.RegsAfter(regs, calls[0]), calls[1..])
  }

  lemma {:induction false} RunAt(regs: Spi.Wire -> u32, calls: seq<Spi.Call>, k: nat)
    requires k < |calls| == |Spi.DeviceRun(regs, calls)|
    ensures Spi.DeviceRun(regs, calls)[k] == Spi.Returns(calls[k], RegsOf(regs, calls[..k])(calls[k].k.Wire()))
    decreases k
  {
    if k > 0 {
      RunAt(Spi.RegsAfter(regs, calls[0]), calls[1..], k - 1);
      assert calls[..k][1..] == calls[1..][..k - 1];
    }
  }

  lemma {:induction false} RegsOfConcat(regs: Spi.Wire -> u32, a: seq<Spi.Call>, b: seq<Spi.Call>)
    ensures RegsOf(regs, a + b) == RegsOf(RegsOf(regs, a), b)
    decreases |a|
  {
    if a == [] {
      assert a + b == b;
    } else {
      assert (a + b)[1..] == a[1..] + b;
      RegsOfConcat(Spi.RegsAfter(regs, a[0]), a[1..], b);
    }
  }

  lemma {:induction false} Untouched(regs: Spi.Wire -> u32, calls: seq<Spi.Call>, w: Spi.Wire)
    requires forall i :: 0 <= i < |calls| && calls[i].Put? ==> calls[i].k.Wire() != w
    ensures RegsOf(regs, calls)(w) == regs(w)
    decreases |calls|
  {
    hide Spi.OnWire;
    if calls != [] {
      assert calls[0].Put? ==> calls[0].k.Wire() != w;
      Untouched(Spi.RegsAfter(regs, calls[0]), calls[1..], w);
    }
  }

  lemma OneCall(regs: Spi.Wire -> u32, c: Spi.Call)
    ensures RegsOf(regs, [c]) == Spi.RegsAfter(regs, c)
  {
    assert [c][1..] == [];
  }

  /** The register a transfer selects, as it goes over the wire. */
  function Selects(x: Xfer): Spi.Wire { Spi.OnWire(x.slice, x.mmd, x.reg) }

  /** A successful read returns the value of the last write to its register, if that succeeded,
      whoever made it; every write in between went elsewhere. */
  lemma ReadsLastWritten(log: seq<Event>, regs: Spi.Wire -> u32, calls: seq<Spi.Call>, j: nat, k: nat)
    requires FromDevice(regs, calls, OnBus(log)) && j < k < |OnBus(log)|
    requires var xs := OnBus(log);
             xs[k].Read? && xs[k].got.Some? && xs[j].Write? && xs[j].ok && Selects(xs[j]) == Selects(xs[k])
    requires var xs := OnBus(log); forall i :: j < i < k && xs[i].Write? ==> Selects(xs[i]) != Selects(xs[k])
    ensures OnBus(log)[k].got.value == OnBus(log)[j].val
  {
    hide OnBus;
    hide Spi.OnWire;
    hide Spi.DeviceRun;
    hide RegsOf;
    var xs, w := OnBus(log), Selects(OnBus(log)[k]);
    RunAt(regs, calls, k);
    RunAt(regs, calls, j);
    var between := calls[j + 1..k];
    var before := RegsOf(regs, calls[..j]);
    assert calls[..k] == calls[..j] + ([calls[j]] + between);
    RegsOfConcat(regs, calls[..j], [calls[j]] + between);
    RegsOfConcat(before, [calls[j]], between);
    OneCall(before, calls[j]);
    forall i | 0 <= i < |between| && between[i].Put? ensures between[i].k.Wire() != w {
      assert between[i] == calls[j + 1 + i]
             && Gave(calls[j + 1 + i], Spi.DeviceRun(regs, calls)[j + 1 + i], xs[j + 1 + i]);
    }
    Untouched(Spi.RegsAfter(before, calls[j]), between, w);
  }

  /** A successful read of a register that was never written returns what it held at the start. */
  lemma ReadsInitial(log: seq<Event>, regs: Spi.Wire -> u32, calls: seq<Spi.Call>, k: nat)
    requires FromDevice(regs, calls, OnBus(log)) && k < |OnBus(log)|
    requires var xs := OnBus(log); xs[k].Read? && xs[k].got.Some?
    requires var xs := OnBus(log); forall i :: 0 <= i < k && xs[i].Write? ==> Selects(xs[i]) != Selects(xs[k])
    ensures OnBus(log)[k].got.value == regs(Selects(OnBus(log)[k]))
  {
    hide OnBus;
    hide Spi.OnWire;
    hide Spi.DeviceRun;
    hide RegsOf;
    var xs := OnBus(log);
    RunAt(regs, calls, k);
    forall i | 0 <= i < k && calls[..k][i].Put? ensures calls[..k][i].k.Wire() != Selects(xs[k]) {
      assert Gave(calls[i], Spi.DeviceRun(regs, calls)[i], xs[i]);
    }
    Untouched(regs, calls[..k], calls[k].k.Wire());
  }
}
