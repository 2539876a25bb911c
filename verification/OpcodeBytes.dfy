/**
 * enc_opc and opc_size: the bytes of an x86-64 instruction up to and including
 * its opcode. Sections 2.1.1, 2.2.1 and 2.3.5 of the Intel SDM, volume 2A.
 */
module OpcodeBytes {

  type Byte = bv8

  /** The bits of an opcode word. `seg` is 0 for none, else one more than the segment register. */
  datatype Opc = Opc(
    op: Byte, ext: Byte, escape: nat, vsib: bool,
    p66: bool, f2: bool, f3: bool, lock: bool, p67: bool, seg: nat,
    rex: bool, rexw: bool, rexr: bool, rexx: bool, rexb: bool,
    vex: bool, vexl: bool, vexop: Byte)

  /** The widths of the fields. */
  predicate ValidOpc(o: Opc) {
    o.escape < 4 && o.seg < 8 && o.vexop < 16
  }

  function Opt(c: bool, b: Byte): (s: seq<Byte>)
    ensures |s| == if c then 1 else 0
  {
    if c then [b] else []
  }

  function SegByte(seg: nat): Byte {
    if seg == 1 then 0x26 else if seg == 2 then 0x2e else if seg == 3 then 0x36 else if seg == 4 then 0x3e
    else if seg == 5 then 0x64 else if seg == 6 then 0x65 else 0x00
  }

  predicate NeedsRex(o: Opc) {
    o.rex || o.rexw || o.rexr || o.rexx || o.rexb
  }

  predicate NeedsVex3(o: Opc) {
    o.rexw || o.rexx || o.rexb || o.escape != 1
  }

  predicate HasExt(o: Opc) {
    o.ext & 0xc0 == 0xc0
  }

  function If(c: bool, b: Byte): Byte {
    if c then b else 0
  }

  function RexByte(o: Opc): Byte {
    0x40 | If(o.rexw, 8) | If(o.rexr, 4) | If(o.rexx, 2) | If(o.rexb, 1)
  }

  function EscapeBits(o: Opc): Byte {
    if o.escape == 1 then 1 else if o.escape == 2 then 2 else if o.escape == 3 then 3 else 0
  }

  function VexPP(o: Opc): Byte {
    if o.f2 then 3 else if o.f3 then 2 else if o.p66 then 1 else 0
  }

  /** The second byte of a three-byte VEX prefix. */
  function Vex1(o: Opc): Byte {
    EscapeBits(o) | If(!o.rexr, 0x80) | If(!o.rexx, 0x40) | If(!o.rexb, 0x20)
  }

  /** The last byte of a VEX prefix. */
  function Vex2(o: Opc): Byte {
    VexPP(o) | If(o.vexl, 4) | (((!o.vexop) & 0xf) << 3) | if NeedsVex3(o) then If(o.rexw, 0x80) else If(!o.rexr, 0x80)
  }

  /** Prefixes in front of the VEX prefix, or of the escape bytes. */
  function PrefixBytes(o: Opc): seq<Byte> {
    Opt(o.seg != 0, SegByte(o.seg)) + Opt(o.p67, 0x67)
    + if o.vex then [] else LegacyBytes(o)
  }

  function LegacyBytes(o: Opc): seq<Byte> {
    Opt(o.lock, 0xf0) + Opt(o.p66, 0x66) + Opt(o.f2, 0xf2) + Opt(o.f3, 0xf3) + Opt(NeedsRex(o), RexByte(o))
  }

  function VexBytes(o: Opc): seq<Byte> {
    if NeedsVex3(o) then [0xc4, Vex1(o), Vex2(o)] else [0xc5, Vex2(o)]
  }

  function EscapeBytes(o: Opc): seq<Byte> {
    if o.escape == 0 then [] else if o.escape == 1 then [0x0f] else if o.escape == 2 then [0x0f, 0x38] else [0x0f, 0x3a]
  }

  /** What the decoder's table walk starts with. */
  function OpcodePart(o: Opc): seq<Byte> {
    [o.op] + Opt(HasExt(o), o.ext)
  }

  function Middle(o: Opc): seq<Byte> {
    if o.vex then VexBytes(o) else EscapeBytes(o)
  }

  function OpcBytes(o: Opc): seq<Byte> {
    PrefixBytes(o) + Middle(o) + OpcodePart(o)
  }

  function B(c: bool): nat {
    if c then 1 else 0
  }

  /** opc_size. */
  function OpcSize(o: Opc): nat {
    1
    + (if o.vex then (if NeedsVex3(o) then 3 else 2)
       else B(o.lock) + B(o.p66) + B(o.f2) + B(o.f3) + B(NeedsRex(o)) + B(o.escape != 0) + B(o.escape == 2 || o.escape == 3))
    + B(o.seg != 0) + B(o.p67) + B(HasExt(o))
  }

  /** The size that is computed beforehand is the number of bytes that are written. */
  lemma SizeIsCount(o: Opc)
    requires ValidOpc(o)
    ensures |OpcBytes(o)| == |PrefixBytes(o)| + |Middle(o)| + |OpcodePart(o)| == OpcSize(o) <= 11
  {
  }

  /** The output buffer with its advancing pointer. */
  class Buffer {
    const data: array<Byte>
    var pos: nat

    constructor (capacity: nat)
      ensures Valid() && Written() == [] && data.Length == capacity && fresh(data)
    {
      data := new Byte[capacity];
      pos := 0;
    }

    ghost predicate Valid()
      reads this
    {
      pos <= data.Length
    }

    ghost function Written(): (s: seq<Byte>)
      requires Valid()
      reads this, data
      ensures |s| == pos
    {
      data[..pos]
    }

    method Put(b: Byte)
      requires Valid() && pos < data.Length
      modifies this`pos, data
      ensures Valid() && Written() == old(Written()) + [b]
    {
      data[pos] := b;
      pos := pos + 1;
    }

    /** Behind `done`, which stands behind `before`. */
    method PutIf(c: bool, b: Byte, ghost before: seq<Byte>, ghost done: seq<Byte>)
      requires Valid() && (c ==> pos < data.Length) && Written() == before + done
      modifies this`pos, data
      ensures Valid() && Written() == before + (done + Opt(c, b))
    {
      if c {
        Put(b);
        assert before + done + [b] == before + (done + [b]);
      } else {
        assert done + [] == done;
      }
    }

    method PutVex(o: Opc)
      requires Valid() && ValidOpc(o) && pos + |VexBytes(o)| <= data.Length
      modifies this`pos, data
      ensures Valid() && Written() == old(Written()) + VexBytes(o)
    {
      hide Vex1, Vex2, NeedsVex3, If, Written;
      var pp: Byte := 0;
      if o.p66 { pp := 1; }
      if o.f3 { pp := 2; }
      if o.f2 { pp := 3; }
      ghost var before := Written();
      LastVex(o, pp);
      if NeedsVex3(o) {
        var b2 := pp | If(o.vexl, 4) | If(o.rexw, 0x80) | (((!o.vexop) & 0xf) << 3);
        PutAll3(0xc4, Vex1(o), b2);
      } else {
        var b2 := pp | If(o.vexl, 4) | If(!o.rexr, 0x80) | (((!o.vexop) & 0xf) << 3);
        PutAll2(0xc5, b2);
      }
    }

    method PutAll2(a: Byte, b: Byte)
      requires Valid() && pos + 2 <= data.Length
      modifies this`pos, data
      ensures Valid() && Written() == old(Written()) + [a, b]
    {
      Put(a);
      Put(b);
    }

    method PutAll3(a: Byte, b: Byte, c: Byte)
      requires Valid() && pos + 3 <= data.Length
      modifies this`pos, data
      ensures Valid() && Written() == old(Written()) + [a, b, c]
    {
      Put(a);
      Put(b);
      Put(c);
    }

    method PutLegacy(o: Opc, ghost before: seq<Byte>)
      requires Valid() && pos + |LegacyBytes(o)| <= data.Length && Written() == before
      modifies this`pos, data
      ensures Valid() && Written() == before + LegacyBytes(o)
    {
      hide RexByte, NeedsRex, Written, Opt;
      var d0 := [];
      assert before == before + d0;
      PutIf(o.lock, 0xf0, before, d0);
      ghost var d1 := d0 + Opt(o.lock, 0xf0);
      PutIf(o.p66, 0x66, before, d1);
      ghost var d2 := d1 + Opt(o.p66, 0x66);
      PutIf(o.f2, 0xf2, before, d2);
      ghost var d3 := d2 + Opt(o.f2, 0xf2);
      PutIf(o.f3, 0xf3, before, d3);
      ghost var d4 := d3 + Opt(o.f3, 0xf3);
      PutIf(NeedsRex(o), RexByte(o), before, d4);
      assert d1 == Opt(o.lock, 0xf0);
    }

    method PutEscape(o: Opc, ghost before: seq<Byte>)
      requires Valid() && pos + |EscapeBytes(o)| <= data.Length && ValidOpc(o) && Written() == before
      modifies this`pos, data
      ensures Valid() && Written() == before + EscapeBytes(o)
    {
      if o.escape != 0 { Put(0x0f); }
      if o.escape == 2 { Put(0x38); }
      if o.escape == 3 { Put(0x3a); }
    }

    method PutPrefixes(o: Opc, ghost before: seq<Byte>)
      requires Valid() && pos + |PrefixBytes(o)| <= data.Length && Written() == before
      modifies this`pos, data
      ensures Valid() && Written() == before + PrefixBytes(o)
    {
      hide Written, Opt, SegByte, LegacyBytes;
      ghost var d1, d2 := Opt(o.seg != 0, SegByte(o.seg)), Opt(o.p67, 0x67);
      assert before == before + [] && [] + d1 == d1;
      PutIf(o.seg != 0, SegByte(o.seg), before, []);
      PutIf(o.p67, 0x67, before, d1);
      if !o.vex {
        PutLegacy(o, before + (d1 + d2));
        assert before + (d1 + d2) + LegacyBytes(o) == before + (d1 + d2 + LegacyBytes(o));
      } else {
        assert d1 + d2 + [] == d1 + d2;
      }
    }

    /** enc_opc: write the bytes behind what is there. */
    method EncOpc(o: Opc)
      requires Valid() && ValidOpc(o) && pos + OpcSize(o) <= data.Length
      modifies this`pos, data
      ensures Valid() && Written() == old(Written()) + OpcBytes(o)
    {
      SizeIsCount(o);
      hide Written, PrefixBytes, Middle, OpcodePart;
      ghost var before, p, m, c := Written(), PrefixBytes(o), Middle(o), OpcodePart(o);
      PutPrefixes(o, before);
      PutMiddle(o, before + p);
      PutOpcode(o, before + p + m);
      Associate(before, p, m, c);
    }

    method PutMiddle(o: Opc, ghost before: seq<Byte>)
      requires Valid() && pos + |Middle(o)| <= data.Length && ValidOpc(o) && Written() == before
      modifies this`pos, data
      ensures Valid() && Written() == before + Middle(o)
    {
      hide Written, VexBytes, EscapeBytes;
      if o.vex {
        PutVex(o);
      } else {
        PutEscape(o, before);
      }
    }

    method PutOpcode(o: Opc, ghost before: seq<Byte>)
      requires Valid() && pos + |OpcodePart(o)| <= data.Length && Written() == before
      modifies this`pos, data
      ensures Valid() && Written() == before + OpcodePart(o)
    {
      hide Written;
      Put(o.op);
      PutIf(HasExt(o), o.ext, before, [o.op]);
    }
  }

  lemma Associate(a: seq<Byte>, b: seq<Byte>, c: seq<Byte>, d: seq<Byte>)
    ensures a + b + c + d == a + (b + c + d)
  {
  }

  lemma LastVex(o: Opc, pp: Byte)
    requires ValidOpc(o) && pp == VexPP(o)
    ensures NeedsVex3(o) ==> pp | If(o.vexl, 4) | If(o.rexw, 0x80) | (((!o.vexop) & 0xf) << 3) == Vex2(o)
    ensures !NeedsVex3(o) ==> pp | If(o.vexl, 4) | If(!o.rexr, 0x80) | (((!o.vexop) & 0xf) << 3) == Vex2(o)
  {
  }
}
