// The SPI frame layer: 23-bit addresses, big-endian frames, and a device that answers every
// read one transaction late.

module Spi {
  import opened Bytes

  const SPI_BYTES := 7
  const SPI_BUF_MAX := 22

  // --- Addresses -----------------------------------------------------------------------------

  /** Bitwise or. */
  function Or(a: nat, b: nat): nat {
    if a == 0 && b == 0 then 0
    else (if a % 2 == 1 || b % 2 == 1 then 1 else 0) + 2 * Or(a / 2, b / 2)
  }

  /** `slice << 21 | mmd << 16 | reg` */
  function Addr(slice: byte, mmd: byte, reg: u16): nat {
    Or(Or(slice * 0x20_0000, mmd * 0x1_0000), reg)
  }

  lemma {:induction false} OrLow(a: nat, k: nat, b: nat)
    requires b < Pow2(k)
    ensures Or(a * Pow2(k), b) == a * Pow2(k) + b
    decreases k
  {
    if k == 0 {
      OrZero(a);
    } else {
      assert a * Pow2(k) == 2 * (a * Pow2(k - 1));
      OrLow(a, k - 1, b / 2);
    }
  }

  lemma {:induction false} OrZero(a: nat)
    ensures Or(a, 0) == a
  {
    if a > 0 { OrZero(a / 2); }
  }

  /** a moved up k bits. */
  function Shl(a: nat, k: nat): nat {
    if k == 0 then a else 2 * Shl(a, k - 1)
  }

  lemma {:induction false} ShlIs(a: nat, k: nat)
    ensures Shl(a, k) == a * Pow2(k)
  {
    if k > 0 {
      ShlIs(a, k - 1);
      Doubled(a, Pow2(k - 1));
    }
  }

  lemma Doubled(a: nat, p: nat)
    ensures a * (2 * p) == 2 * (a * p)
  {
  }

  lemma OrShifted(a: nat, b: nat, k: nat)
    ensures Or(a * Pow2(k), b * Pow2(k)) == Or(a, b) * Pow2(k)
  {
    hide Or;
    hide Pow2;
    ShlIs(a, k);
    ShlIs(b, k);
    ShlIs(Or(a, b), k);
    OrShl(a, b, k);
  }

  lemma {:induction false} OrShl(a: nat, b: nat, k: nat)
    ensures Or(Shl(a, k), Shl(b, k)) == Shl(Or(a, b), k)
  {
    if k > 0 { OrShl(a, b, k - 1); }
  }

  lemma OrMod(a: nat, k: nat, b: nat)
    ensures Or(a * Pow2(k), b) % Pow2(k) == b % Pow2(k)
  {
    hide Or;
    hide Pow2;
    ShlIs(a, k);
    ShlMod(a, k, b);
  }

  lemma {:induction false} ShlMod(a: nat, k: nat, b: nat)
    ensures Or(Shl(a, k), b) % Pow2(k) == b % Pow2(k)
    decreases k
  {
    if k > 0 {
      ShlMod(a, k - 1, b / 2);
      OrHalves(Shl(a, k - 1), b);
      HalfMod(Or(Shl(a, k), b), Pow2(k - 1));
      HalfMod(b, Pow2(k - 1));
    }
  }

  lemma OrHalves(a: nat, b: nat)
    ensures Or(2 * a, b) % 2 == b % 2 && Or(2 * a, b) / 2 == Or(a, b / 2)
  {
  }

  lemma HalfMod(n: nat, p: nat)
    requires p > 0
    ensures n % (2 * p) == n % 2 + 2 * (n / 2 % p)
  {
    var q, r := n / 2 / p, n / 2 % p;
    assert n / 2 == p * q + r;
    assert n == (2 * p) * q + (n % 2 + 2 * r);
    Quotient(n, 2 * p, q, n % 2 + 2 * r);
  }

  lemma Powers()
    ensures Pow2(5) == 32 && Pow2(16) == 0x1_0000 && Pow2(21) == 0x20_0000
  {
    assert Pow2(8) == 8 * Pow2(5) && Pow2(5) == 8 * Pow2(2);
    assert Pow2(12) == 16 * Pow2(8);
    assert Pow2(16) == 16 * Pow2(12);
    assert Pow2(20) == 16 * Pow2(16);
  }

  /** The 7 address bits above the register number, as the frame carries them. */
  function Page(slice: byte, mmd: byte): nat {
    Or(slice * 32, mmd) % 128
  }

  lemma AddrParts(slice: byte, mmd: byte, reg: u16)
    ensures Addr(slice, mmd, reg) == Or(slice * 32, mmd) * 0x1_0000 + reg
  {
    Powers();
    assert slice * 0x20_0000 == (slice * 32) * 0x1_0000;
    OrShifted(slice * 32, mmd, 16);
    OrLow(Or(slice * 32, mmd), 16, reg);
  }

  /** Slice and mmd do not overlap when the mmd has five bits. */
  lemma PagePlain(slice: byte, mmd: byte)
    requires slice < 4 && mmd < 32
    ensures Page(slice, mmd) == slice * 32 + mmd
  {
    hide Or;
    Powers();
    OrLow(slice, 5, mmd);
    assert slice * 32 + mmd < 128;
  }

  /** The five low bits always select the mmd; a larger mmd only disturbs the slice. */
  lemma PageMmd(slice: byte, mmd: byte)
    ensures Page(slice, mmd) % 32 == mmd % 32
  {
    Powers();
    OrMod(slice, 5, mmd);
    ModMod(Or(slice * 32, mmd));
  }

  lemma ModMod(n: nat)
    ensures n % 128 % 32 == n % 32
  {
  }

  /** The register the device sees. */
  datatype Wire = Wire(page: nat, reg: u16)

  function OnWire(slice: byte, mmd: byte, reg: u16): Wire {
    Wire(Page(slice, mmd), reg)
  }

  /** For slice < 4 and mmd < 32 the 23-bit address names one register. */
  lemma AddrInjective(s: byte, m: byte, r: u16, s': byte, m': byte, r': u16)
    requires s < 4 && m < 32 && s' < 4 && m' < 32
    ensures OnWire(s, m, r) == OnWire(s', m', r') <==> s == s' && m == m' && r == r'
  {
    PagePlain(s, m);
    PagePlain(s', m');
  }

  // --- Frames --------------------------------------------------------------------------------

  function Be32(v: u32): (b: seq<byte>)
    ensures |b| == 4
  {
    [v / 16777216, v / 65536 % 256, v / 256 % 256, v % 256]
  }

  function GetBe32(b: seq<byte>): u32
    requires |b| == 4
  {
    (b[3] as int) + 256 * (b[2] as int) + 65536 * (b[1] as int) + 16777216 * (b[0] as int)
  }

  lemma Be32RoundTrip(v: u32)
    ensures GetBe32(Be32(v)) == v
  {
    assert v / 65536 == v / 256 / 256 && v / 16777216 == v / 65536 / 256;
  }

  /** `spi_fill` */
  method Fill(tx: array<byte>, write: bool, addr: nat, val: u32)
    requires tx.Length == SPI_BUF_MAX
    modifies tx
    ensures tx[0] == (if write then 0x80 else 0) + addr / 0x1_0000 % 128
    ensures tx[1] == addr / 256 % 256 && tx[2] == addr % 256
    ensures write ==> tx[3..7] == Be32(val)
    ensures forall i :: (if write then 7 else 3) <= i < tx.Length ==> tx[i] == 0xff
  {
    for i := 0 to tx.Length
      invariant forall j :: 0 <= j < i ==> tx[j] == 0xff
    {
      tx[i] := 0xff;
    }
    tx[0] := (if write then 0x80 else 0) + addr / 0x1_0000 % 128;
    tx[1] := addr / 256 % 256;
    tx[2] := addr % 256;
    if write {
      var b := Be32(val);
      tx[3], tx[4], tx[5], tx[6] := b[0], b[1], b[2], b[3];
    }
  }

  lemma FilledHead(slice: byte, mmd: byte, reg: u16)
    ensures var a := Addr(slice, mmd, reg);
            a / 0x1_0000 % 128 == Page(slice, mmd) && a / 256 % 256 == reg / 256 && a % 256 == reg % 256
  {
    hide Addr;
    hide Or;
    AddrParts(slice, mmd, reg);
    HeadParts(Or(slice * 32, mmd), reg);
  }

  lemma HeadParts(h: nat, reg: u16)
    ensures var a := h * 0x1_0000 + reg;
            a / 0x1_0000 == h && a / 256 % 256 == reg / 256 && a % 256 == reg % 256
  {
    var m := h * 256 + reg / 256;
    Quotient(h * 0x1_0000 + reg, 0x1_0000, h, reg);
    Quotient(h * 0x1_0000 + reg, 256, m, reg % 256);
    Quotient(m, 256, h, reg / 256);
  }

  // --- The device ----------------------------------------------------------------------------

  function Updated(regs: Wire -> u32, w: Wire, v: u32): Wire -> u32 {
    x => if x == w then v else regs(x)
  }

  /** A bank of registers behind a one-transaction-late reply. */
  class Device {
    var regs: Wire -> u32
    var pending: u32     // what the next transaction clocks out
    var afterWrite: u32  // what the chip clocks out after a write: unspecified

    constructor (regs: Wire -> u32, stale: u32, afterWrite: u32)
      ensures this.regs == regs && pending == stale
    {
      this.regs, pending, this.afterWrite := regs, stale, afterWrite;
    }

    function Selected(tx: seq<byte>): Wire
      requires |tx| >= SPI_BYTES
    {
      Wire(tx[0] % 128, tx[1] as int * 256 + tx[2] as int)
    }

    /** One chip-select window. */
    method Transfer(tx: array<byte>, rx: array<byte>)
      requires tx.Length == rx.Length == SPI_BUF_MAX && tx != rx
      modifies this, rx
      ensures rx[3..7] == Be32(old(pending))
      ensures old(tx[0]) >= 128 ==> regs == Updated(old(regs), Selected(old(tx[..])), GetBe32(old(tx[3..7])))
      ensures old(tx[0]) < 128 ==> regs == old(regs) && pending == regs(Selected(old(tx[..])))
    {
      var out := Be32(pending);
      rx[3], rx[4], rx[5], rx[6] := out[0], out[1], out[2], out[3];
      if tx[0] >= 128 {
        regs := Updated(regs, Selected(tx[..]), GetBe32(tx[3..7]));
        pending := afterWrite;
      } else {
        pending := regs(Selected(tx[..]));
      }
    }
  }

  // --- The daemon's side ---------------------------------------------------------------------

  /** How an ioctl ends: through, failed before the device saw it, or failed although it did. */
  datatype Io = Through | Lost | Late

  class Bus {
    const dev: Device
    const deviceIdReg: u16
    var nReads: nat
    var nWrites: nat
    var nIoErr: nat

    constructor (dev: Device, deviceIdReg: u16)
      ensures this.dev == dev && this.deviceIdReg == deviceIdReg
      ensures nReads == nWrites == nIoErr == 0
    {
      this.dev, this.deviceIdReg := dev, deviceIdReg;
      nReads, nWrites, nIoErr := 0, 0, 0;
    }

    /** `spi_write_reg` */
    method WriteReg(slice: byte, mmd: byte, reg: u16, val: u32, io: Io) returns (ok: bool)
      modifies this, dev
      ensures ok == io.Through?
      ensures dev.regs == if io.Lost? then old(dev.regs) else Updated(old(dev.regs), OnWire(slice, mmd, reg), val)
      ensures nReads == old(nReads)
      ensures nWrites == old(nWrites) + (if ok then 1 else 0) && nIoErr == old(nIoErr) + (if ok then 0 else 1)
    {
      var tx, rx := new byte[SPI_BUF_MAX], new byte[SPI_BUF_MAX];
      Fill(tx, true, Addr(slice, mmd, reg), val);
      if !io.Lost? {
        FilledHead(slice, mmd, reg);
        Be32RoundTrip(val);
        assert dev.Selected(tx[..]) == OnWire(slice, mmd, reg);
        dev.Transfer(tx, rx);
      }
      if !io.Through? {
        nIoErr := nIoErr + 1;
        return false;
      }
      nWrites := nWrites + 1;
      ok := true;
    }

    /** `spi_read_reg`: the prime, then a dummy DEVICE_ID read that collects its answer. */
    method ReadReg(slice: byte, mmd: byte, reg: u16, io0: Io, io1: Io) returns (ok: bool, val: u32)
      modifies this, dev
      ensures ok == (io0.Through? && io1.Through?)
      ensures dev.regs == old(dev.regs)
      ensures ok ==> val == dev.regs(OnWire(slice, mmd, reg))
      ensures nWrites == old(nWrites)
      ensures nReads == old(nReads) + (if ok then 1 else 0) && nIoErr == old(nIoErr) + (if ok then 0 else 1)
    {
      hide Be32;
      hide Page;
      hide Addr;
      val := 0;
      var tx0, rx0 := new byte[SPI_BUF_MAX], new byte[SPI_BUF_MAX];
      var tx1, rx1 := new byte[SPI_BUF_MAX], new byte[SPI_BUF_MAX];
      Fill(tx0, false, Addr(slice, mmd, reg), 0);
      Fill(tx1, false, Addr(slice, MMD_GLOBAL, deviceIdReg), 0);
      FilledHead(slice, mmd, reg);
      FilledHead(slice, MMD_GLOBAL, deviceIdReg);
      if !io0.Lost? {
        assert dev.Selected(tx0[..]) == OnWire(slice, mmd, reg);
        dev.Transfer(tx0, rx0);
      }
      if !io0.Through? {
        nIoErr := nIoErr + 1;
        return false, 0;
      }
      ghost var answer := dev.pending;
      if !io1.Lost? {
        dev.Transfer(tx1, rx1);
      }
      if !io1.Through? {
        nIoErr := nIoErr + 1;
        return false, 0;
      }
      Be32RoundTrip(answer);
      val := GetBe32(rx1[3..7]);
      nReads := nReads + 1;
      ok := true;
    }
  }

  // --- Whole sequences of calls --------------------------------------------------------------

  datatype Key = Key(slice: byte, mmd: byte, reg: u16) {
    predicate Valid() { slice < 4 && mmd < 32 }

    function Wire(): Wire { OnWire(slice, mmd, reg) }
  }

  datatype Call = Get(k: Key, io0: Io, io1: Io) | Put(k: Key, v: u32, io: Io)

  datatype Ret = Value(v: u32) | Stored | Failed

  /** What a call returns when its register holds v. */
  function Returns(c: Call, v: u32): Ret {
    match c
    case Get(_, io0, io1) => if io0.Through? && io1.Through? then Value(v) else Failed
    case Put(_, _, io) => if io.Through? then Stored else Failed
  }

  predicate Stores(c: Call) { c.Put? && !c.io.Lost? }

  function RegsAfter(regs: Wire -> u32, c: Call): Wire -> u32 {
    if Stores(c) then Updated(regs, c.k.Wire(), c.v) else regs
  }

  /** The registers on the wire run through a sequence of calls, and what they return. */
  function DeviceRun(regs: Wire -> u32, calls: seq<Call>): seq<Ret>
    decreases |calls|
  {
    if calls == [] then []
    else [Returns(calls[0], regs(calls[0].k.Wire()))] + DeviceRun(RegsAfter(regs, calls[0]), calls[1..])
  }

  method PerformOne(bus: Bus, c: Call) returns (ret: Ret)
    modifies bus, bus.dev
    ensures ret == Returns(c, old(bus.dev.regs)(c.k.Wire())) && bus.dev.regs == RegsAfter(old(bus.dev.regs), c)
  {
    hide OnWire;
    match c {
      case Get(k, io0, io1) =>
        var ok, v := bus.ReadReg(k.slice, k.mmd, k.reg, io0, io1);
        ret := if ok then Value(v) else Failed;
      case Put(k, v, io) =>
        var ok := bus.WriteReg(k.slice, k.mmd, k.reg, v, io);
        ret := if ok then Stored else Failed;
    }
  }

  /** Any calls, from any stale pending reply and with any transfer failures, return what the
      registers say. */
  method Perform(bus: Bus, calls: seq<Call>) returns (out: seq<Ret>)
    modifies bus, bus.dev
    ensures out == DeviceRun(old(bus.dev.regs), calls)
  {
    hide Returns;
    hide RegsAfter;
    out := [];
    for i := 0 to |calls|
      invariant out + DeviceRun(bus.dev.regs, calls[i..]) == DeviceRun(old(bus.dev.regs), calls)
    {
      assert calls[i..][1..] == calls[i + 1..];
      var ret := PerformOne(bus, calls[i]);
      ghost var rest := DeviceRun(bus.dev.regs, calls[i + 1..]);
      assert out + ([ret] + rest) == (out + [ret]) + rest;
      out := out + [ret];
    }
  }

  // --- Refinement of a plain register map ----------------------------------------------------

  ghost predicate Holds(regs: Wire -> u32, m: Key -> u32) {
    forall k: Key :: k.Valid() ==> regs(k.Wire()) == m(k)
  }

  /** Writing one register is writing one map entry. */
  lemma PutHolds(regs: Wire -> u32, m: Key -> u32, k: Key, v: u32)
    requires Holds(regs, m) && k.Valid()
    ensures Holds(Updated(regs, k.Wire(), v), x => if x == k then v else m(x))
  {
    forall x: Key | x.Valid() ensures Updated(regs, k.Wire(), v)(x.Wire()) == if x == k then v else m(x) {
      AddrInjective(x.slice, x.mmd, x.reg, k.slice, k.mmd, k.reg);
    }
  }

  function MapAfter(m: Key -> u32, c: Call): Key -> u32 {
    if Stores(c) then x => if x == c.k then c.v else m(x) else m
  }

  /** A plain register map run through the calls. */
  function MapRun(m: Key -> u32, calls: seq<Call>): seq<Ret>
    decreases |calls|
  {
    if calls == [] then [] else [Returns(calls[0], m(calls[0].k))] + MapRun(MapAfter(m, calls[0]), calls[1..])
  }

  /** With addresses that do not alias, the device is such a map. */
  lemma {:induction false} KeysSuffice(regs: Wire -> u32, m: Key -> u32, calls: seq<Call>)
    requires Holds(regs, m) && forall i :: 0 <= i < |calls| ==> calls[i].k.Valid()
    ensures DeviceRun(regs, calls) == MapRun(m, calls)
    decreases |calls|
  {
    hide OnWire;
    if calls != [] {
      var c := calls[0];
      if Stores(c) { PutHolds(regs, m, c.k, c.v); }
      KeysSuffice(RegsAfter(regs, c), MapAfter(m, c), calls[1..]);
    }
  }
}
