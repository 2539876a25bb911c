/**
 * enc_mr and the decoder's ModRM, SIB and displacement parsing, for 64-bit
 * mode. Sections 2.1.5, 2.2.1.3 and 2.2.1.6 of the Intel SDM, volume 2A.
 */
module MemOperand {
  import opened Options
  import opened OpcodeBytes
  import opened PrefixDecode

  // --------------------------------------------------------------- operands

  /** An operand word: a register number, or with the top bit a memory operand. */
  type FeOp = bv64

  const FE_IP: bv64 := 0x110

  predicate OpMem(op: FeOp) { op & 0x8000_0000_0000_0000 != 0 }
  predicate OpGpl(op: FeOp) { op & 0xffff_ffff_ffff_fff0 == 0x100 }
  predicate OpGph(op: FeOp) { op & 0xffff_ffff_ffff_fffc == 0x204 }
  predicate OpXmm(op: FeOp) { op & 0xffff_ffff_ffff_fff0 == 0x600 }
  function OpOffset(op: FeOp): bv32 { (op & 0xffff_ffff) as bv32 }
  function OpBase(op: FeOp): FeOp { (op >> 32) & 0xfff }
  function OpIdx(op: FeOp): FeOp { (op >> 44) & 0xfff }
  function OpScale(op: FeOp): Byte { ((op >> 56) & 0xf) as Byte }
  function RegIdx(op: FeOp): Byte { (op & 0xff) as Byte }
  function Low3(op: FeOp): Byte { (op & 7) as Byte }

  /** FE_MEM. */
  function FeMem(base: FeOp, scale: FeOp, idx: FeOp, off: bv32): FeOp {
    0x8000_0000_0000_0000 | ((base & 0xfff) << 32) | ((idx & 0xfff) << 44) | ((scale & 0xf) << 56) | (off as bv64)
  }

  /** The accessors give back the parts of a memory operand. */
  lemma FeMemParts(base: FeOp, scale: FeOp, idx: FeOp, off: bv32)
    requires base <= 0xfff && idx <= 0xfff && scale <= 0xf
    ensures var op := FeMem(base, scale, idx, off);
      OpMem(op) && OpBase(op) == base && OpIdx(op) == idx && OpScale(op) as FeOp == scale && OpOffset(op) == off
  {
  }

  // ---------------------------------------------------------------- numbers

  function SignExt8(b: Byte): bv32 {
    if b & 0x80 != 0 then 0xffff_ff00 | (b as bv32) else b as bv32
  }

  function LowByte(v: bv32): Byte {
    (v & 0xff) as Byte
  }

  /** Does a displacement fit in a signed byte? */
  predicate Fits8(v: bv32) {
    SignExt8(LowByte(v)) == v
  }

  /** The size of an instruction as a 32-bit word. */
  function Word(n: nat): bv32 {
    if n == 0 then 0 else if n == 1 then 1 else if n == 2 then 2 else if n == 3 then 3 else if n == 4 then 4 else if n == 5 then 5 else
    if n == 6 then 6 else if n == 7 then 7 else if n == 8 then 8 else if n == 9 then 9 else if n == 10 then 10 else if n == 11 then 11 else
    if n == 12 then 12 else if n == 13 then 13 else if n == 14 then 14 else if n == 15 then 15 else
    if n == 16 then 16 else if n == 17 then 17 else if n == 18 then 18 else if n == 19 then 19 else
    if n == 20 then 20 else if n == 21 then 21 else if n == 22 then 22 else if n == 23 then 23 else
    if n == 24 then 24 else 0
  }

  /** `n` bytes back, with wrap-around. */
  function Back(off: bv32, n: nat): bv32 {
    off - Word(n)
  }

  function Le4(v: bv32): seq<Byte> {
    [LowByte(v), LowByte(v >> 8), LowByte(v >> 16), LowByte(v >> 24)]
  }

  function Load4(a: Byte, b: Byte, c: Byte, d: Byte): bv32 {
    (a as bv32) | ((b as bv32) << 8) | ((c as bv32) << 16) | ((d as bv32) << 24)
  }

  lemma Load4Back(v: bv32)
    ensures Load4(LowByte(v), LowByte(v >> 8), LowByte(v >> 16), LowByte(v >> 24)) == v
  {
  }

  // --------------------------------------------------------------- encoding

  /** ModRM and SIB fields, displacement and its size, and the opcode word with its REX bits. */
  datatype Form = Form(o: Opc, mod: Byte, reg: Byte, rm: Byte, scale: Byte, idx: Byte, base: Byte, off: bv32, dispsz: nat)

  /** The opcode word once the operands have added their REX bits. */
  function WithRex(o: Opc, op0: FeOp, op1: FeOp): Opc {
    o.(rexb := o.rexb || (!OpMem(op0) && RegIdx(op0) & 8 != 0) || (OpMem(op0) && OpBase(op0) & 8 != 0),
       rexx := o.rexx || (OpMem(op0) && OpIdx(op0) & 8 != 0),
       rexr := o.rexr || (!OpMem(op1) && RegIdx(op1) & 8 != 0))
  }

  predicate IndexOk(vsib: bool, op: FeOp) {
    && (OpIdx(op) != 0 <==> OpScale(op) != 0)
    && (OpIdx(op) == 0 ==> !vsib)
    && (OpIdx(op) != 0 ==> if vsib then OpXmm(OpIdx(op)) else OpGpl(OpIdx(op)) && RegIdx(OpIdx(op)) != 4)
    && (OpIdx(op) != 0 ==> OpScale(op) & (OpScale(op) - 1) == 0)
  }

  function ScaleCode(scale: Byte): Byte {
    If(scale & 0xA != 0, 1) | If(scale & 0xC != 0, 2)
  }

  predicate BaseOk(op: FeOp) {
    OpBase(op) == 0 || (OpBase(op) == FE_IP && OpIdx(op) == 0) || OpGpl(OpBase(op))
  }

  /** The fields for a memory operand that passed the checks. */
  function MemForm(o: Opc, op: FeOp, reg: Byte, opcsz: nat, immsz: nat): Form
    requires immsz <= 8 && opcsz <= 11
  {
    var hasIdx := OpIdx(op) != 0;
    var noBase := OpBase(op) == 0;
    var ip := OpBase(op) == FE_IP;
    var off := if ip then Back(OpOffset(op), opcsz + 5 + immsz) else OpOffset(op);
    var rm0: Byte := if noBase || ip then 5 else Low3(OpBase(op));
    var mod0off := noBase || ip;
    var mod: Byte :=
      if mod0off then 0
      else if off == 0 then (if rm0 == 5 then 1 else 0)
      else if Fits8(off) then 1 else 2;
    var sib := hasIdx || noBase || rm0 == 4;
    var scale := if hasIdx then ScaleCode(OpScale(op)) else 0;
    var idx := if hasIdx then Low3(OpIdx(op)) else 4;
    Form(o, mod, reg, if sib then 4 else rm0, scale, idx, if sib then rm0 else 0, off,
         if mod == 1 then 1 else if mod == 2 || mod0off then 4 else 0)
  }

  function FormSize(f: Form, opcsz: nat, immsz: nat): nat {
    opcsz + 1 + (if f.mod != 3 && f.rm == 4 then 1 else 0) + f.dispsz + immsz
  }

  /** enc_mr up to the point where it writes. */
  function FormOf(o0: Opc, op0: FeOp, op1: FeOp, immsz: nat): Option<Form>
    requires ValidOpc(o0) && immsz <= 8
  {
    var o := WithRex(o0, op0, op1);
    if NeedsRex(o) && (OpGph(op0) || OpGph(op1)) then None
    else if !OpMem(op0) then
      var f := Form(o, 3, Low3(op1), Low3(op0), 0, 4, 0, 0, 0);
      if FormSize(f, OpcSize(o), immsz) > 15 then None else Some(f)
    else if !IndexOk(o.vsib, op0) || !BaseOk(op0) then None
    else
      SizeIsCount(o);
      var f := MemForm(o, op0, Low3(op1), OpcSize(o), immsz);
      if FormSize(f, OpcSize(o), immsz) > 15 then None else Some(f)
  }

  function ModRmByte(f: Form): Byte {
    (f.mod << 6) | (f.reg << 3) | f.rm
  }

  function SibByte(f: Form): Byte {
    (f.scale << 6) | (f.idx << 3) | f.base
  }

  function DispBytes(off: bv32, dispsz: nat): seq<Byte> {
    if dispsz == 1 then [LowByte(off)] else if dispsz == 4 then Le4(off) else []
  }

  function OperandBytes(f: Form): seq<Byte> {
    [ModRmByte(f)] + (if f.mod != 3 && f.rm == 4 then [SibByte(f)] else []) + DispBytes(f.off, f.dispsz)
  }

  function FormBytes(f: Form): seq<Byte> {
    OpcBytes(f.o) + OperandBytes(f)
  }

  // --------------------------------------------------------------- decoding

  const REG_IP: Byte := 0x10
  const REG_NONE: Byte := 0x3f

  datatype Rm = RmReg(reg: Byte) | RmMem(base: Byte, idx: Byte, scale: Byte, disp: bv32)

  /** ModRM at `off`: register field, operand, and the offset behind it. */
  datatype Parsed = Parsed(reg: Byte, rm: Rm, off: nat)

  function Displacement(buf: seq<Byte>, len: nat, off: nat, mod: Byte, base: Byte): Result<(bv32, nat)>
    requires len <= |buf|
  {
    if mod == 1 then
      if off + 1 > len then Err(PARTIAL) else Ok((SignExt8(buf[off]), off + 1))
    else if mod == 2 || (mod == 0 && base == 5) then
      if off + 4 > len then Err(PARTIAL)
      else Ok((Load4(buf[off], buf[off + 1], buf[off + 2], buf[off + 3]), off + 4))
    else Ok((0, off))
  }

  function BaseReg(mod: Byte, rm: Byte, base: Byte, rex: Byte): Byte {
    if mod == 0 && rm == 5 then REG_IP else if mod == 0 && base == 5 then REG_NONE else base + If(rex & REXB != 0, 8)
  }

  function ParseRm(buf: seq<Byte>, len: nat, off: nat, rex: Byte, vsib: bool): Result<Parsed>
    requires len <= |buf|
  {
    if off >= len then Err(PARTIAL)
    else
      var b := buf[off];
      var mod, rm := (b & 0xc0) >> 6, b & 7;
      var reg := ((b & 0x38) >> 3) + If(rex & REXR != 0, 8);
      if mod == 3 then Ok(Parsed(reg, RmReg(rm + If(rex & REXB != 0, 8)), off + 1))
      else if rm == 4 then
        if off + 1 >= len then Err(PARTIAL)
        else
          var sib := buf[off + 1];
          var idx := ((sib & 0x38) >> 3) + If(rex & REXX != 0, 8);
          var base := sib & 7;
          var d := Displacement(buf, len, off + 2, mod, base);
          if d.Err? then Err(d.error)
          else Ok(Parsed(reg, RmMem(BaseReg(mod, rm, base, rex), if !vsib && idx == 4 then REG_NONE else idx,
            (sib & 0xc0) >> 6, d.value.0), d.value.1))
      else if vsib then Err(UD)
      else
        var d := Displacement(buf, len, off + 1, mod, rm);
        if d.Err? then Err(d.error)
        else Ok(Parsed(reg, RmMem(BaseReg(mod, rm, rm, rex), REG_NONE, 0, d.value.0), d.value.1))
  }
}
