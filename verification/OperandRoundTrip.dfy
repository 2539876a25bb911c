/**
 * Every operand that enc_mr accepts is read back by the decoder, with all the
 * special cases of base and index registers; and a RIP-relative displacement
 * reaches the requested location.
 */
module OperandRoundTrip {
  import opened Options
  import opened OpcodeBytes
  import opened PrefixDecode
  import opened OpcodeRoundTrip
  import opened MemOperand

  // ------------------------------------------------------- what is expected

  function Nibble(op: FeOp): Byte {
    (op & 0xf) as Byte
  }

  /** The register field: a register, or a constant. */
  function RegFor(op: FeOp): Byte {
    if OpMem(op) then Low3(op) else Nibble(op)
  }

  function DispFor(op: FeOp, opcsz: nat, immsz: nat): bv32
    requires immsz <= 8 && opcsz <= 11
  {
    if OpBase(op) == FE_IP then Back(OpOffset(op), opcsz + 5 + immsz) else OpOffset(op)
  }

  /** The operand as the decoder describes it. */
  function RmFor(op: FeOp, opcsz: nat, immsz: nat): Rm
    requires immsz <= 8 && opcsz <= 11
  {
    if !OpMem(op) then RmReg(Nibble(op))
    else RmMem(
      if OpBase(op) == 0 then REG_NONE else if OpBase(op) == FE_IP then REG_IP else Nibble(OpBase(op)),
      if OpIdx(op) == 0 then REG_NONE else Nibble(OpIdx(op)),
      if OpIdx(op) == 0 then 0 else ScaleCode(OpScale(op)),
      DispFor(op, opcsz, immsz))
  }

  /** The scale that is encoded is the logarithm of the one that was asked for. */
  lemma ScaleIsLog(scale: Byte)
    requires 0 < scale < 16 && scale & (scale - 1) == 0
    ensures ScaleCode(scale) < 4 && (1 as Byte) << (ScaleCode(scale) as bv4) == scale
  {
  }

  // ----------------------------------------------------------------- fields

  lemma ByteFields(a: Byte, b: Byte, c: Byte)
    requires a < 4 && b < 8 && c < 8
    ensures var x := (a << 6) | (b << 3) | c; (x & 0xc0) >> 6 == a && (x & 0x38) >> 3 == b && x & 7 == c
  {
  }

  /** Three bits and a REX bit make the register number. */
  lemma NibbleParts(op: FeOp)
    ensures Low3(op) < 8 && Low3(op) + If(op & 8 != 0, 8) == Nibble(op) < 16
    ensures RegIdx(op) & 8 != 0 <==> op & 8 != 0
  {
  }

  /** The REX bits, as the decoder has them. */
  ghost predicate RexAgrees(o: Opc, rex: Byte) {
    && (rex & REXB != 0 <==> o.rexb) && (rex & REXX != 0 <==> o.rexx) && (rex & REXR != 0 <==> o.rexr)
  }

  lemma HeadRex(o: Opc)
    requires ValidOpc(o)
    ensures RexAgrees(o, HeadFor(o).rex)
  {
  }

  /** The opcode words of the instruction tables have no REX bits for operands. */
  predicate FromTable(o: Opc) {
    ValidOpc(o) && !o.rexr && !o.rexx && !o.rexb && !HasExt(o)
  }

  lemma RexAdded(o: Opc, op0: FeOp, op1: FeOp)
    requires FromTable(o)
    ensures var o' := WithRex(o, op0, op1);
      && (o'.rexb <==> if OpMem(op0) then OpBase(op0) & 8 != 0 else op0 & 8 != 0)
      && (o'.rexx <==> OpMem(op0) && OpIdx(op0) & 8 != 0)
      && (o'.rexr <==> !OpMem(op1) && op1 & 8 != 0)
  {
    NibbleParts(op0);
    NibbleParts(op1);
  }

  // ---------------------------------------------------------- memory forms

  lemma IndexNotNone(op: FeOp, vsib: bool)
    requires IndexOk(vsib, op) && OpIdx(op) != 0 && !vsib
    ensures Nibble(OpIdx(op)) != 4
  {
  }

  lemma ScaleSmall(op: FeOp, vsib: bool)
    requires IndexOk(vsib, op)
    ensures ScaleCode(OpScale(op)) < 4
  {
  }

  ghost predicate MemFormOf(o: Opc, op: FeOp, reg: Byte, opcsz: nat, immsz: nat, f: Form) {
    && immsz <= 8 && opcsz <= 11 && IndexOk(o.vsib, op) && BaseOk(op) && reg < 8
    && f == MemForm(o, op, reg, opcsz, immsz)
  }

  lemma MemFormRanges(o: Opc, op: FeOp, reg: Byte, opcsz: nat, immsz: nat, f: Form)
    requires MemFormOf(o, op, reg, opcsz, immsz, f)
    ensures f.mod < 3 && f.rm < 8 && f.scale < 4 && f.idx < 8 && f.base < 8 && f.reg == reg
    ensures f.off == DispFor(op, opcsz, immsz)
    ensures f.rm == 4 <==> OpIdx(op) != 0 || OpBase(op) == 0 || (OpBase(op) != FE_IP && Low3(OpBase(op)) == 4)
    ensures OpBase(op) != 0 && OpBase(op) != FE_IP ==> (if f.rm == 4 then f.base else f.rm) == Low3(OpBase(op))
    ensures OpBase(op) == 0 ==> f.rm == 4 && f.base == 5 && f.mod == 0
    ensures OpBase(op) == FE_IP ==> f.rm == 5 && f.mod == 0
    ensures f.idx == if OpIdx(op) != 0 then Low3(OpIdx(op)) else 4
    ensures f.scale == if OpIdx(op) != 0 then ScaleCode(OpScale(op)) else 0
  {
    NibbleParts(OpBase(op));
    NibbleParts(OpIdx(op));
    ScaleSmall(op, o.vsib);
    hide OpIdx, OpBase, OpScale, OpOffset, Low3, ScaleCode, Fits8, Back;
  }

  /** Which displacement goes with which form. */
  lemma MemFormDisp(o: Opc, op: FeOp, reg: Byte, opcsz: nat, immsz: nat, f: Form)
    requires MemFormOf(o, op, reg, opcsz, immsz, f)
    ensures f.mod == 1 ==> f.dispsz == 1 && Fits8(f.off)
    ensures f.mod == 2 || (f.mod == 0 && (if f.rm == 4 then f.base else f.rm) == 5) ==> f.dispsz == 4
    ensures f.mod == 0 && (if f.rm == 4 then f.base else f.rm) != 5 ==> f.dispsz == 0 && f.off == 0
  {
    NibbleParts(OpBase(op));
    ZeroFits();
    hide OpIdx, OpBase, OpScale, OpOffset, Low3, ScaleCode, Fits8, Back;
  }

  lemma ZeroFits()
    ensures Fits8(0)
  {
  }

  lemma DispReadBack(f: Form, buf: seq<Byte>, len: nat, off: nat, base: Byte)
    requires f.mod < 3 && off + f.dispsz <= len <= |buf| && buf[off..off + f.dispsz] == DispBytes(f.off, f.dispsz)
    requires f.mod == 1 ==> f.dispsz == 1 && Fits8(f.off)
    requires f.mod == 2 || (f.mod == 0 && base == 5) ==> f.dispsz == 4
    requires f.mod == 0 && base != 5 ==> f.dispsz == 0 && f.off == 0
    ensures Displacement(buf, len, off, f.mod, base) == Ok((f.off, off + f.dispsz))
  {
    var d := buf[off..off + f.dispsz];
    hide SignExt8, Load4;
    if f.dispsz == 1 {
      assert d[0] == buf[off];
      assert SignExt8(LowByte(f.off)) == f.off;
    } else if f.dispsz == 4 {
      assert d[0] == buf[off] && d[1] == buf[off + 1] && d[2] == buf[off + 2] && d[3] == buf[off + 3];
      Load4Back(f.off);
    }
  }

  // ------------------------------------------------------------ reading back

  /** The bytes of the operand stand at `off`, and the rest of the decoder agrees on the REX bits. */
  ghost predicate Placed(f: Form, buf: seq<Byte>, len: nat, off: nat, rex: Byte) {
    && off + |OperandBytes(f)| <= len <= |buf| && buf[off..off + |OperandBytes(f)|] == OperandBytes(f)
    && RexAgrees(f.o, rex)
  }

  lemma PlacedParts(f: Form, buf: seq<Byte>, len: nat, off: nat, rex: Byte)
    requires Placed(f, buf, len, off, rex) && (f.dispsz == 0 || f.dispsz == 1 || f.dispsz == 4)
    ensures off < len && buf[off] == ModRmByte(f)
    ensures var sib := f.mod != 3 && f.rm == 4;
      var d := off + if sib then 2 else 1;
      && (sib ==> off + 1 < len && buf[off + 1] == SibByte(f))
      && d + f.dispsz == off + |OperandBytes(f)| && d + f.dispsz <= len && buf[d..d + f.dispsz] == DispBytes(f.off, f.dispsz)
  {
    hide ModRmByte, SibByte;
    var all := OperandBytes(f);
    var m := if f.mod != 3 && f.rm == 4 then [SibByte(f)] else [];
    var d := DispBytes(f.off, f.dispsz);
    assert |d| == f.dispsz;
    Parts(buf, off, [ModRmByte(f)], m, d);
  }

  lemma Parts(buf: seq<Byte>, off: nat, a: seq<Byte>, b: seq<Byte>, c: seq<Byte>)
    requires off + |a + b + c| <= |buf| && buf[off..off + |a + b + c|] == a + b + c
    ensures buf[off..off + |a|] == a && buf[off + |a|..off + |a| + |b|] == b && buf[off + |a| + |b|..off + |a| + |b| + |c|] == c
    ensures |a| == 1 ==> buf[off] == a[0]
    ensures |a| == 1 && |b| == 1 ==> buf[off + 1] == b[0]
  {
    var s := a + b + c;
    assert s[..|a|] == a && s[|a|..|a| + |b|] == b && s[|a| + |b|..] == c;
    SubSlice(buf, off, |s|, 0, |a|);
    SubSlice(buf, off, |s|, |a|, |a| + |b|);
    SubSlice(buf, off, |s|, |a| + |b|, |s|);
    assert |a| == 1 ==> buf[off..off + 1][0] == buf[off];
    assert |a| == 1 && |b| == 1 ==> buf[off + 1..off + 2][0] == buf[off + 1];
  }

  lemma SubSlice(buf: seq<Byte>, off: nat, n: nat, x: nat, y: nat)
    requires off + n <= |buf| && x <= y <= n
    ensures buf[off..off + n][x..y] == buf[off + x..off + y]
  {
    var l, r := buf[off..off + n][x..y], buf[off + x..off + y];
    forall k | 0 <= k < |l| ensures l[k] == r[k] {
      assert l[k] == buf[off..off + n][x + k] == buf[off + (x + k)];
    }
  }

  lemma RegisterReadBack(o: Opc, op0: FeOp, op1: FeOp, f: Form, buf: seq<Byte>, len: nat, off: nat, rex: Byte)
    requires FromTable(o) && !OpMem(op0) && f == Form(WithRex(o, op0, op1), 3, Low3(op1), Low3(op0), 0, 4, 0, 0, 0)
    requires Placed(f, buf, len, off, rex)
    ensures ParseRm(buf, len, off, rex, o.vsib) == Ok(Parsed(RegFor(op1), RmReg(Nibble(op0)), off + |OperandBytes(f)|))
  {
    PlacedParts(f, buf, len, off, rex);
    RexAdded(o, op0, op1);
    NibbleParts(op0);
    NibbleParts(op1);
    ByteFields(3, f.reg, f.rm);
    hide OpMem, Low3, Nibble, FromTable, WithRex;
  }

  /** The fields of the two bytes, as the decoder takes them apart. */
  lemma SibParse(f: Form, buf: seq<Byte>, len: nat, off: nat, rex: Byte)
    requires Placed(f, buf, len, off, rex) && f.mod < 3 && f.reg < 8 && f.rm == 4 && f.scale < 4 && f.idx < 8 && f.base < 8
    requires f.dispsz == 0 || f.dispsz == 1 || f.dispsz == 4
    requires Displacement(buf, len, off + 2, f.mod, f.base) == Ok((f.off, off + |OperandBytes(f)|))
    ensures ParseRm(buf, len, off, rex, f.o.vsib) ==
      Ok(Parsed(f.reg + If(f.o.rexr, 8),
                RmMem(BaseReg(f.mod, 4, f.base, rex),
                      if !f.o.vsib && f.idx + If(f.o.rexx, 8) == 4 then REG_NONE else f.idx + If(f.o.rexx, 8),
                      f.scale, f.off),
                off + |OperandBytes(f)|))
  {
    PlacedParts(f, buf, len, off, rex);
    ByteFields(f.mod, f.reg, f.rm);
    ByteFields(f.scale, f.idx, f.base);
    hide Displacement, OperandBytes, BaseReg;
  }

  lemma PlainParse(f: Form, buf: seq<Byte>, len: nat, off: nat, rex: Byte)
    requires Placed(f, buf, len, off, rex) && f.mod < 3 && f.reg < 8 && f.rm < 8 && f.rm != 4 && !f.o.vsib
    requires f.dispsz == 0 || f.dispsz == 1 || f.dispsz == 4
    requires Displacement(buf, len, off + 1, f.mod, f.rm) == Ok((f.off, off + |OperandBytes(f)|))
    ensures ParseRm(buf, len, off, rex, f.o.vsib) ==
      Ok(Parsed(f.reg + If(f.o.rexr, 8), RmMem(BaseReg(f.mod, f.rm, f.rm, rex), REG_NONE, 0, f.off), off + |OperandBytes(f)|))
  {
    PlacedParts(f, buf, len, off, rex);
    ByteFields(f.mod, f.reg, f.rm);
    hide Displacement, OperandBytes, BaseReg;
  }

  /** The base field with its REX bit is the base register; 5 without displacement byte is none or RIP. */
  lemma BaseReadBack(op: FeOp, f: Form, opcsz: nat, immsz: nat, rex: Byte)
    requires MemFormOf(f.o, op, f.reg, opcsz, immsz, f) && RexAgrees(f.o, rex) && (f.o.rexb <==> OpBase(op) & 8 != 0)
    ensures BaseReg(f.mod, f.rm, if f.rm == 4 then f.base else f.rm, rex)
      == if OpBase(op) == 0 then REG_NONE else if OpBase(op) == FE_IP then REG_IP else Nibble(OpBase(op))
  {
    MemFormRanges(f.o, op, f.reg, opcsz, immsz, f);
    NibbleParts(OpBase(op));
    if OpBase(op) != 0 && OpBase(op) != FE_IP { BaseNotFive(op, f, opcsz, immsz); }
    hide MemForm, OpIdx, OpBase, OpScale, OpOffset, Low3, Nibble, ScaleCode, Fits8, Back, BaseOk, IndexOk;
  }

  lemma BaseNotFive(op: FeOp, f: Form, opcsz: nat, immsz: nat)
    requires MemFormOf(f.o, op, f.reg, opcsz, immsz, f) && OpBase(op) != 0 && OpBase(op) != FE_IP
    ensures (if f.rm == 4 then f.base else f.rm) == 5 ==> f.mod != 0
  {
    hide OpIdx, OpBase, OpScale, OpOffset, Low3, ScaleCode, Fits8, BaseOk, IndexOk, Back;
  }

  /** The index field with its REX bit is the index register, and 4 alone is none. */
  lemma IndexReadBack(op: FeOp, f: Form, opcsz: nat, immsz: nat)
    requires MemFormOf(f.o, op, f.reg, opcsz, immsz, f) && (f.o.rexx <==> OpIdx(op) & 8 != 0)
    ensures (if !f.o.vsib && f.idx + If(f.o.rexx, 8) == 4 then REG_NONE else f.idx + If(f.o.rexx, 8))
      == if OpIdx(op) == 0 then REG_NONE else Nibble(OpIdx(op))
    ensures f.rm != 4 ==> OpIdx(op) == 0
    ensures OpIdx(op) == 0 ==> !f.o.vsib
  {
    MemFormRanges(f.o, op, f.reg, opcsz, immsz, f);
    NibbleParts(OpIdx(op));
    if OpIdx(op) != 0 && !f.o.vsib { IndexNotNone(op, f.o.vsib); }
    assert OpIdx(op) == 0 ==> OpIdx(op) & 8 == 0;
    hide MemForm, OpIdx, OpBase, OpScale, OpOffset, Low3, Nibble, ScaleCode, Fits8, BaseOk;
  }

  lemma RmIs(op: FeOp, opcsz: nat, immsz: nat, f: Form, rex: Byte)
    requires MemFormOf(f.o, op, f.reg, opcsz, immsz, f) && OpMem(op) && RexAgrees(f.o, rex)
    requires (f.o.rexb <==> OpBase(op) & 8 != 0) && (f.o.rexx <==> OpIdx(op) & 8 != 0)
    ensures f.rm == 4 ==>
      RmMem(BaseReg(f.mod, 4, f.base, rex),
            if !f.o.vsib && f.idx + If(f.o.rexx, 8) == 4 then REG_NONE else f.idx + If(f.o.rexx, 8),
            f.scale, f.off)
      == RmFor(op, opcsz, immsz)
    ensures f.rm != 4 ==> RmMem(BaseReg(f.mod, f.rm, f.rm, rex), REG_NONE, 0, f.off) == RmFor(op, opcsz, immsz) && !f.o.vsib
  {
    MemFormRanges(f.o, op, f.reg, opcsz, immsz, f);
    BaseReadBack(op, f, opcsz, immsz, rex);
    IndexReadBack(op, f, opcsz, immsz);
    hide MemForm, OpMem, OpIdx, OpBase, OpScale, OpOffset, Low3, Nibble, ScaleCode, Fits8, BaseOk, IndexOk, BaseReg, DispFor, If;
  }

  lemma MemoryReadBack(op: FeOp, opcsz: nat, immsz: nat, f: Form, buf: seq<Byte>, len: nat, off: nat, rex: Byte)
    requires MemFormOf(f.o, op, f.reg, opcsz, immsz, f) && OpMem(op) && Placed(f, buf, len, off, rex)
    requires (f.o.rexb <==> OpBase(op) & 8 != 0) && (f.o.rexx <==> OpIdx(op) & 8 != 0)
    ensures ParseRm(buf, len, off, rex, f.o.vsib) ==
      Ok(Parsed(f.reg + If(f.o.rexr, 8), RmFor(op, opcsz, immsz), off + |OperandBytes(f)|))
  {
    MemFormRanges(f.o, op, f.reg, opcsz, immsz, f);
    MemFormDisp(f.o, op, f.reg, opcsz, immsz, f);
    assert (f.dispsz == 0 || f.dispsz == 1 || f.dispsz == 4) && f.reg < 8 && RexAgrees(f.o, rex);
    hide *;
    PlacedParts(f, buf, len, off, rex);
    RmIs(op, opcsz, immsz, f, rex);
    if f.rm == 4 {
      DispReadBack(f, buf, len, off + 2, f.base);
      SibParse(f, buf, len, off, rex);
    } else {
      DispReadBack(f, buf, len, off + 1, f.rm);
      PlainParse(f, buf, len, off, rex);
    }
  }

  // ------------------------------------------------------- whole instructions

  lemma SameRest(o: Opc, op0: FeOp, op1: FeOp)
    requires FromTable(o)
    ensures var o' := WithRex(o, op0, op1);
      ValidOpc(o') && (Plain(o') <==> Plain(o)) && o'.vsib == o.vsib && OpcodePart(o') == [o.op]
  {
    hide OpMem, RegIdx, OpBase, OpIdx, IsPrefix;
  }

  lemma OperandReadBack(o: Opc, op0: FeOp, op1: FeOp, immsz: nat, f: Form, buf: seq<Byte>, len: nat, off: nat, rex: Byte)
    requires FromTable(o) && immsz <= 8 && FormOf(o, op0, op1, immsz) == Some(f) && OpcSize(f.o) <= 11 && Placed(f, buf, len, off, rex)
    ensures ParseRm(buf, len, off, rex, o.vsib) == Ok(Parsed(RegFor(op1), RmFor(op0, OpcSize(f.o), immsz), off + |OperandBytes(f)|))
  {
    hide *;
    RexAdded(o, op0, op1);
    SameRest(o, op0, op1);
    RegIs(o, op0, op1);
    if OpMem(op0) {
      FormIsMem(o, op0, op1, immsz, f);
      MemoryReadBack(op0, OpcSize(f.o), immsz, f, buf, len, off, rex);
    } else {
      FormIsReg(o, op0, op1, immsz, f);
      RegisterReadBack(o, op0, op1, f, buf, len, off, rex);
      RmIsReg(op0, OpcSize(f.o), immsz);
    }
  }

  lemma RegIs(o: Opc, op0: FeOp, op1: FeOp)
    requires FromTable(o)
    ensures Low3(op1) < 8 && Low3(op1) + If(WithRex(o, op0, op1).rexr, 8) == RegFor(op1)
  {
    RexAdded(o, op0, op1);
    NibbleParts(op1);
    hide OpMem, Low3, Nibble, WithRex;
  }

  lemma RmIsReg(op: FeOp, opcsz: nat, immsz: nat)
    requires !OpMem(op) && immsz <= 8 && opcsz <= 11
    ensures RmFor(op, opcsz, immsz) == RmReg(Nibble(op))
  {
  }

  lemma FormIsReg(o: Opc, op0: FeOp, op1: FeOp, immsz: nat, f: Form)
    requires FromTable(o) && immsz <= 8 && FormOf(o, op0, op1, immsz) == Some(f) && !OpMem(op0)
    ensures f == Form(WithRex(o, op0, op1), 3, Low3(op1), Low3(op0), 0, 4, 0, 0, 0)
  {
    hide OpMem, WithRex, NeedsRex, OpGph, Low3, OpcSize;
  }

  lemma FormIsMem(o: Opc, op0: FeOp, op1: FeOp, immsz: nat, f: Form)
    requires FromTable(o) && immsz <= 8 && FormOf(o, op0, op1, immsz) == Some(f) && OpMem(op0)
    ensures f.o == WithRex(o, op0, op1) && f.reg == Low3(op1) && OpcSize(f.o) <= 11
    ensures MemFormOf(f.o, op0, f.reg, OpcSize(f.o), immsz, f)
  {
    NibbleParts(op1);
    SameRest(o, op0, op1);
    SizeIsCount(WithRex(o, op0, op1));
    hide OpMem, WithRex, NeedsRex, OpGph, Low3, OpcSize, OpcBytes, IndexOk, BaseOk, OpIdx, OpBase, OpScale, OpOffset,
      Fits8, ScaleCode, Back;
  }

  lemma FormIsSmall(o: Opc, op0: FeOp, op1: FeOp, immsz: nat, f: Form)
    requires FromTable(o) && immsz <= 8 && FormOf(o, op0, op1, immsz) == Some(f)
    ensures ValidOpc(f.o) && f.o == WithRex(o, op0, op1) && OpcSize(f.o) <= 11
    ensures |OpcBytes(f.o)| == OpcSize(f.o) && |FormBytes(f)| + immsz == FormSize(f, OpcSize(f.o), immsz) <= 15
  {
    SameRest(o, op0, op1);
    SizeIsCount(f.o);
    hide OpcBytes, OpcSize, Back, OpOffset, OpIdx, OpBase, OpScale, Low3, Fits8;
    assert f.dispsz == 0 || f.dispsz == 1 || f.dispsz == 4;
  }

  /**
   * Every instruction that enc_mr accepts, for any opcode word of the tables:
   * the decoder finds the same head, and behind the opcode byte the same
   * register and memory operand.
   */
  lemma InstructionRoundTrip(o: Opc, op0: FeOp, op1: FeOp, immsz: nat, f: Form, rest: seq<Byte>)
    requires FromTable(o) && Plain(o) && immsz <= 8 && FormOf(o, op0, op1, immsz) == Some(f) && |rest| >= immsz
    ensures OpcSize(f.o) <= 11 && ValidOpc(f.o)
    ensures var buf := FormBytes(f) + rest;
      var len := if |buf| > 15 then 15 else |buf|;
      && DecodeHead(buf) == Ok(HeadFor(f.o))
      && ParseRm(buf, len, HeadFor(f.o).off + 1, HeadFor(f.o).rex, o.vsib)
         == Ok(Parsed(RegFor(op1), RmFor(op0, OpcSize(f.o), immsz), |FormBytes(f)|))
  {
    hide *;
    var buf := FormBytes(f) + rest;
    var len := if |buf| > 15 then 15 else |buf|;
    FormIsSmall(o, op0, op1, immsz, f);
    SameRest(o, op0, op1);
    OneOpcodeByte(f.o);
    FormParts(f);
    assert buf == OpcBytes(f.o) + (OperandBytes(f) + rest);
    HeadRoundTrip(f.o, OperandBytes(f) + rest);
    InPlace(f, rest, buf, len);
    OperandReadBack(o, op0, op1, immsz, f, buf, len, |OpcBytes(f.o)|, HeadFor(f.o).rex);
  }

  lemma OneOpcodeByte(o: Opc)
    requires ValidOpc(o) && |OpcodePart(o)| == 1
    ensures HeadFor(o).off + 1 == |OpcBytes(o)|
  {
    SizeIsCount(o);
    hide PrefixBytes, Middle, OpcodePart, OpcSize;
  }

  lemma FormParts(f: Form)
    ensures FormBytes(f) == OpcBytes(f.o) + OperandBytes(f)
  {
  }

  lemma InPlace(f: Form, rest: seq<Byte>, buf: seq<Byte>, len: nat)
    requires buf == FormBytes(f) + rest && |FormBytes(f)| <= len <= |buf| && ValidOpc(f.o)
    ensures Placed(f, buf, len, |OpcBytes(f.o)|, HeadFor(f.o).rex)
  {
    HeadRex(f.o);
    hide OpcBytes, OperandBytes, HeadFor, RexAgrees;
    MiddleSlice(OpcBytes(f.o), OperandBytes(f), rest);
  }

  lemma MiddleSlice(a: seq<Byte>, b: seq<Byte>, c: seq<Byte>)
    ensures (a + b + c)[|a|..|a| + |b|] == b
  {
  }

  // ---------------------------------------------------------- RIP-relative

  /** A signed sum of `a` and something small and positive leaves the range. */
  predicate Overflows(a: bv32, sum: bv32) {
    a < 0x8000_0000 && sum >= 0x8000_0000
  }

  /** The displacement leads from the end of an instruction of length `len` to `target`. */
  predicate Reaches(disp: bv32, len: bv32, target: bv32) {
    disp + len == target && (Overflows(disp, target) <==> 0x8000_0000 <= target < 0x8000_0000 + len)
  }

  lemma WordSmall(n: nat)
    requires n <= 15
    ensures Word(n) <= 15
  {
  }

  lemma SignedSum(off: bv32, n: bv32)
    requires n <= 15
    ensures Reaches(off - n, n, off)
  {
  }

  lemma BackReaches(off: bv32, len: nat)
    requires len <= 15
    ensures Reaches(Back(off, len), Word(len), off)
  {
    WordSmall(len);
    SignedSum(off, Word(len));
    hide Word, Reaches;
  }

  /**
   * With RIP as base, the end of the instruction plus the displacement is the
   * requested location in 32 bits; and as a signed sum too, if and only if the
   * subtraction of the instruction length does not leave the range.
   */
  lemma RipReaches(o: Opc, op0: FeOp, op1: FeOp, immsz: nat, f: Form)
    requires FromTable(o) && immsz <= 8 && FormOf(o, op0, op1, immsz) == Some(f) && OpMem(op0) && OpBase(op0) == FE_IP
    ensures |FormBytes(f)| + immsz <= 15
    ensures OpcSize(f.o) <= 11
    ensures Reaches(DispFor(op0, OpcSize(f.o), immsz), Word(|FormBytes(f)| + immsz), OpOffset(op0))
  {
    hide *;
    FormIsSmall(o, op0, op1, immsz, f);
    RipForm(o, op0, op1, immsz, f);
    var len := |FormBytes(f)| + immsz;
    BackReaches(OpOffset(op0), len);
    RipDisp(op0, OpcSize(f.o), immsz, len);
  }

  lemma RipDisp(op: FeOp, opcsz: nat, immsz: nat, len: nat)
    requires immsz <= 8 && opcsz <= 11 && OpBase(op) == FE_IP && len == opcsz + 5 + immsz
    ensures DispFor(op, opcsz, immsz) == Back(OpOffset(op), len)
  {
    hide OpBase, OpOffset, Back;
  }

  lemma RipForm(o: Opc, op0: FeOp, op1: FeOp, immsz: nat, f: Form)
    requires FromTable(o) && immsz <= 8 && FormOf(o, op0, op1, immsz) == Some(f) && OpMem(op0) && OpBase(op0) == FE_IP
    ensures FormSize(f, OpcSize(f.o), immsz) == OpcSize(f.o) + 5 + immsz
  {
    SameRest(o, op0, op1);
    SizeIsCount(f.o);
    hide OpcBytes, OpcSize, OpIdx, OpScale, OpOffset, Back;
  }
}
