// Reading a TRACE answer back: the text is split at newlines and blanks, and its numbers are taken
// in decimal and hexadecimal. What comes out is the list of ops that went in.

module TraceText {
  import opened Bytes
  import opened Wire
  import opened OpLog

  // --- Reading -------------------------------------------------------------------------------

  predicate Digit(c: byte) { 48 <= c <= 57 }

  predicate HexLetter(c: byte) { 97 <= c <= 102 }

  function DecValue(s: seq<byte>): int {
    if s == [] then 0 else 10 * DecValue(s[..|s| - 1]) + s[|s| - 1] - 48
  }

  function HexValue(s: seq<byte>): int {
    if s == [] then 0
    else 16 * HexValue(s[..|s| - 1]) + s[|s| - 1] - if Digit(s[|s| - 1]) then 48 else 87
  }

  /** The pieces of s between the separators. */
  function Split(s: seq<byte>, sep: byte): seq<seq<byte>> {
    if s == [] then [[]]
    else
      var rest := Split(s[1..], sep);
      if s[0] == sep || rest == [] then [[]] + rest else [[s[0]] + rest[0]] + rest[1..]
  }

  predicate Decimal(s: seq<byte>) { s != [] && forall i :: 0 <= i < |s| ==> Digit(s[i]) }

  predicate Hexadecimal(s: seq<byte>) { forall i :: 0 <= i < |s| ==> Digit(s[i]) || HexLetter(s[i]) }

  /** The line without its newline says that entry: time, client, direction, slice, mmd, register
      and value. */
  predicate Says(line: seq<byte>, e: Entry) {
    var f := Split(line, 32);
    && |f| == 7 && |f[1]| > 1 && f[1][0] == 99
    && Decimal(f[0]) && DecValue(f[0]) == e.ts
    && Decimal(f[1][1..]) && DecValue(f[1][1..]) == e.cid
    && f[2] == [if e.op.write then 87 else 82]
    && Decimal(f[3]) && DecValue(f[3]) == e.op.slice
    && |f[4]| == 2 && Hexadecimal(f[4]) && HexValue(f[4]) == e.op.mmd
    && |f[5]| == 4 && Hexadecimal(f[5]) && HexValue(f[5]) == e.op.reg
    && |f[6]| == 8 && Hexadecimal(f[6]) && HexValue(f[6]) == e.op.val
  }

  /** The text is one such line for each entry, in order, and nothing else. */
  predicate Tells(text: seq<byte>, es: seq<Entry>) {
    var lines := Split(text, 10);
    |lines| == |es| + 1 && lines[|es|] == [] && forall i :: 0 <= i < |es| ==> Says(lines[i], es[i])
  }

  /** A line says one entry only. */
  lemma SaysOne(line: seq<byte>, e: Entry, e': Entry)
    requires Says(line, e) && Says(line, e')
    ensures e == e'
  {
  }

  // --- Numbers -------------------------------------------------------------------------------

  lemma {:induction false} DecReads(n: nat)
    ensures Decimal(Dec(n)) && DecValue(Dec(n)) == n
  {
    if n >= 10 {
      DecReads(n / 10);
      var s := Dec(n);
      assert s[..|s| - 1] == Dec(n / 10);
    } else {
      assert [48 + n][..0] == [];
    }
  }

  function Pow16(k: nat): nat { if k == 0 then 1 else 16 * Pow16(k - 1) }

  lemma {:induction false} HexReads(n: nat, k: nat)
    requires n < Pow16(k)
    ensures Hexadecimal(Hex(n, k)) && HexValue(Hex(n, k)) == n
    decreases k
  {
    if k > 0 {
      HexReads(n / 16, k - 1);
      var s := Hex(n, k);
      assert s[..|s| - 1] == Hex(n / 16, k - 1);
    }
  }

  lemma PowersOfSixteen()
    ensures Pow16(2) == 0x100 && Pow16(4) == 0x1_0000 && Pow16(8) == 0x1_0000_0000
  {
    assert Pow16(4) == 256 * Pow16(2);
    assert Pow16(6) == 256 * Pow16(4);
    assert Pow16(8) == 256 * Pow16(6);
  }

  // --- Splitting -----------------------------------------------------------------------------

  predicate Free(s: seq<byte>, sep: byte) { forall i :: 0 <= i < |s| ==> s[i] != sep }

  lemma {:induction false} SplitFree(s: seq<byte>, sep: byte)
    requires Free(s, sep)
    ensures Split(s, sep) == [s]
  {
    if s != [] {
      SplitFree(s[1..], sep);
      assert [s[0]] + s[1..] == s;
    }
  }

  lemma {:induction false} SplitNotEmpty(s: seq<byte>, sep: byte)
    ensures Split(s, sep) != []
  {
  }

  lemma {:induction false} SplitAt(a: seq<byte>, sep: byte, rest: seq<byte>)
    requires Free(a, sep)
    ensures Split(a + [sep] + rest, sep) == [a] + Split(rest, sep)
  {
    var s := a + [sep] + rest;
    if a == [] {
      assert s[1..] == rest;
    } else {
      assert s[1..] == a[1..] + [sep] + rest;
      SplitAt(a[1..], sep, rest);
      assert [s[0]] + a[1..] == a;
    }
  }

  /** Digits and letters are neither blanks nor newlines. */
  lemma NumberFree(s: seq<byte>, sep: byte)
    requires sep < 48 && (Decimal(s) || Hexadecimal(s))
    ensures Free(s, sep)
  {
  }

  // --- Lines ---------------------------------------------------------------------------------

  /** The seven fields of a line. */
  datatype Fields = Fields(ts: seq<byte>, cid: seq<byte>, dir: seq<byte>, slice: seq<byte>,
                           mmd: seq<byte>, reg: seq<byte>, val: seq<byte>)

  function FieldsOf(e: Entry): Fields {
    Fields(Dec(e.ts), [99] + Dec(e.cid), [if e.op.write then 87 else 82], Dec(e.op.slice),
           Hex(e.op.mmd, 2), Hex(e.op.reg, 4), Hex(e.op.val, 8))
  }

  function Joined(f: Fields): seq<byte> {
    f.ts + [32] + (f.cid + [32] + (f.dir + [32] + (f.slice + [32] + (f.mmd + [32] + (f.reg + [32] + f.val)))))
  }

  predicate AllFree(f: Fields, sep: byte) {
    Free(f.ts, sep) && Free(f.cid, sep) && Free(f.dir, sep) && Free(f.slice, sep)
    && Free(f.mmd, sep) && Free(f.reg, sep) && Free(f.val, sep)
  }

  lemma LineIs(e: Entry)
    ensures Line(e) == Joined(FieldsOf(e)) + [10]
  {
    hide Dec;
    hide Hex;
  }

  lemma FieldsFree(e: Entry, sep: byte)
    requires sep == 10 || sep == 32
    ensures AllFree(FieldsOf(e), sep)
  {
    hide Dec;
    hide Hex;
    PowersOfSixteen();
    DecReads(e.ts);
    DecReads(e.cid);
    DecReads(e.op.slice);
    HexReads(e.op.mmd, 2);
    HexReads(e.op.reg, 4);
    HexReads(e.op.val, 8);
  }

  lemma SplitJoined(f: Fields)
    requires AllFree(f, 32)
    ensures Split(Joined(f), 32) == [f.ts, f.cid, f.dir, f.slice, f.mmd, f.reg, f.val]
  {
    hide Split;
    hide Free;
    var g := f.reg + [32] + f.val;
    var h := f.mmd + [32] + g;
    var i := f.slice + [32] + h;
    var j := f.dir + [32] + i;
    var l := f.cid + [32] + j;
    SplitAt(f.ts, 32, l);
    SplitAt(f.cid, 32, j);
    SplitAt(f.dir, 32, i);
    SplitAt(f.slice, 32, h);
    SplitAt(f.mmd, 32, g);
    SplitAt(f.reg, 32, f.val);
    SplitFree(f.val, 32);
  }

  lemma JoinedFree(f: Fields)
    requires AllFree(f, 10)
    ensures Free(Joined(f), 10)
  {
  }

  /** The line written for an entry says it. */
  lemma LineSays(e: Entry)
    ensures Line(e) == Joined(FieldsOf(e)) + [10] && Free(Joined(FieldsOf(e)), 10) && Says(Joined(FieldsOf(e)), e)
  {
    hide Dec;
    hide Hex;
    hide Split;
    hide Joined;
    LineIs(e);
    FieldsFree(e, 10);
    FieldsFree(e, 32);
    JoinedFree(FieldsOf(e));
    SplitJoined(FieldsOf(e));
    PowersOfSixteen();
    DecReads(e.ts);
    DecReads(e.cid);
    DecReads(e.op.slice);
    HexReads(e.op.mmd, 2);
    HexReads(e.op.reg, 4);
    HexReads(e.op.val, 8);
    assert ([99] + Dec(e.cid))[1..] == Dec(e.cid);
  }

  lemma {:induction false} LinesFront(es: seq<Entry>)
    requires es != []
    ensures Lines(es) == Line(es[0]) + Lines(es[1..])
  {
    hide Line;
    var n := |es| - 1;
    if n == 0 {
      assert es[..0] == [] && es[1..] == [];
    } else {
      LinesFront(es[..n]);
      assert es[..n][1..] == es[1..][..n - 1] && es[1..][n - 1] == es[n];
    }
  }

  /** The text of a TRACE answer tells exactly the entries it was made from. */
  lemma {:induction false} LinesTell(es: seq<Entry>)
    ensures Tells(Lines(es), es)
  {
    hide Line;
    hide Joined;
    hide Says;
    if es != [] {
      LinesFront(es);
      LineSays(es[0]);
      LinesTell(es[1..]);
      var a, rest := Joined(FieldsOf(es[0])), Lines(es[1..]);
      SplitAt(a, 10, rest);
      assert Lines(es) == a + [10] + rest;
    }
  }
}
