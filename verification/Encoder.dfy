/**
 * enc_mr and enc_imm as they write: byte by byte into the output buffer.
 */
module Encoder {
  import opened Options
  import opened OpcodeBytes
  import opened PrefixDecode
  import opened MemOperand

  // -------------------------------------------------------------- immediates

  function Low(v: bv64): Byte {
    (v & 0xff) as Byte
  }

  function ImmBytes(v: bv64, n: nat): (s: seq<Byte>)
    ensures |s| == n
  {
    if n == 0 then [] else [Low(v)] + ImmBytes(v >> 8, n - 1)
  }

  /** LOAD_LE_n. */
  function LoadLe(s: seq<Byte>): bv64 {
    if s == [] then 0 else (s[0] as bv64) | (LoadLe(s[1..]) << 8)
  }

  /** A value of `n` bytes, extended as the decoder does it: signed, but three bytes unsigned. */
  function Extend(v: bv64, n: nat): bv64 {
    if n == 1 then (if v & 0x80 != 0 then v | 0xffff_ffff_ffff_ff00 else v)
    else if n == 2 then (if v & 0x8000 != 0 then v | 0xffff_ffff_ffff_0000 else v)
    else if n == 4 then (if v & 0x8000_0000 != 0 then v | 0xffff_ffff_0000_0000 else v)
    else v
  }

  function Mask(n: nat): bv64 {
    if n == 0 then 0 else if n == 1 then 0xff else if n == 2 then 0xffff else if n == 3 then 0xff_ffff
    else if n == 4 then 0xffff_ffff else 0xffff_ffff_ffff_ffff
  }

  /** op_imm_n: does the immediate fit? */
  predicate ImmFits(imm: bv64, n: nat) {
    (n == 0 || n == 1 || n == 2 || n == 3 || n == 4 || n == 8) && Extend(imm & Mask(n), n) == imm
  }

  lemma LoadBytes1(v: bv64, n: nat)
    ensures LoadLe(ImmBytes(v, n + 1)) == (Low(v) as bv64) | (LoadLe(ImmBytes(v >> 8, n)) << 8)
  {
    var s := ImmBytes(v, n + 1);
    assert s[0] == Low(v) && s[1..] == ImmBytes(v >> 8, n);
  }

  /** The low bytes come back. */
  lemma LoadBytes(v: bv64, n: nat)
    requires n == 0 || n == 1 || n == 2 || n == 3 || n == 4 || n == 8
    ensures LoadLe(ImmBytes(v, n)) == v & Mask(n)
  {
    if n > 0 { LoadBytes1(v, n - 1); }
    if n > 1 { LoadBytes1(v >> 8, n - 2); }
    if n > 2 { LoadBytes1(v >> 8 >> 8, n - 3); }
    if n > 3 { LoadBytes1(v >> 8 >> 8 >> 8, n - 4); }
    if n > 4 {
      var w := v >> 8 >> 8 >> 8 >> 8;
      LoadBytes1(w, n - 5);
      LoadBytes1(w >> 8, n - 6);
      LoadBytes1(w >> 8 >> 8, n - 7);
      LoadBytes1(w >> 8 >> 8 >> 8, n - 8);
    }
  }

  /** An immediate is accepted for a size exactly if the decoder gets it back from that many bytes. */
  lemma ImmRoundTrip(imm: bv64, n: nat)
    requires n == 0 || n == 1 || n == 2 || n == 3 || n == 4 || n == 8
    ensures ImmFits(imm, n) <==> Extend(LoadLe(ImmBytes(imm, n)), n) == imm
  {
    hide Extend, Mask, LoadLe, ImmBytes;
    LoadBytes(imm, n);
  }

  lemma ImmStep(done: seq<Byte>, v: bv64, n: nat)
    requires n > 0
    ensures done + ImmBytes(v, n) == done + [Low(v)] + ImmBytes(v >> 8, n - 1)
  {
    hide Low;
  }

  lemma ImmEnd(done: seq<Byte>, v: bv64)
    ensures done + ImmBytes(v, 0) == done
  {
  }

  lemma Snoc(a: seq<Byte>, b: seq<Byte>, c: Byte)
    ensures a + b + [c] == a + (b + [c])
  {
  }

  /** enc_imm. */
  method EncImm(buf: Buffer, imm: bv64, immsz: nat) returns (ok: bool)
    requires buf.Valid() && buf.pos + immsz <= buf.data.Length
    modifies buf`pos, buf.data
    ensures buf.Valid() && (ok <==> ImmFits(imm, immsz))
    ensures buf.Written() == old(buf.Written()) + if ok then ImmBytes(imm, immsz) else []
  {
    hide *;
    if !ImmFits(imm, immsz) {
      return false;
    }
    var v := imm;
    ghost var done: seq<Byte> := [];
    for i := 0 to immsz
      invariant buf.Valid() && buf.pos == old(buf.pos) + i
      invariant buf.Written() == old(buf.Written()) + done && done + ImmBytes(v, immsz - i) == ImmBytes(imm, immsz)
    {
      buf.Put(Low(v));
      ImmStep(done, v, immsz - i);
      Snoc(old(buf.Written()), done, Low(v));
      done := done + [Low(v)];
      v := v >> 8;
    }
    ImmEnd(done, v);
    return true;
  }

  // ------------------------------------------------------------------ enc_mr

  method EncDisp(buf: Buffer, off: bv32, dispsz: nat)
    requires buf.Valid() && buf.pos + dispsz <= buf.data.Length && (dispsz == 0 || dispsz == 1 || dispsz == 4)
    modifies buf`pos, buf.data
    ensures buf.Valid() && buf.Written() == old(buf.Written()) + DispBytes(off, dispsz)
  {
    hide LowByte;
    if dispsz == 1 {
      buf.Put(LowByte(off));
    } else if dispsz == 4 {
      buf.Put(LowByte(off));
      buf.Put(LowByte(off >> 8));
      buf.Put(LowByte(off >> 16));
      buf.Put(LowByte(off >> 24));
    }
  }

  /** The checks on index register and scale. */
  method CheckIndex(vsib: bool, op: FeOp) returns (ok: bool)
    ensures ok <==> IndexOk(vsib, op)
  {
    hide OpIdx, OpScale, OpGpl, OpXmm, RegIdx;
    if (OpIdx(op) != 0) != (OpScale(op) != 0) { return false; }
    if OpIdx(op) == 0 && vsib { return false; }
    if OpIdx(op) != 0 {
      if vsib {
        if !OpXmm(OpIdx(op)) { return false; }
      } else {
        if !OpGpl(OpIdx(op)) { return false; }
        if RegIdx(OpIdx(op)) == 4 { return false; }
      }
      if OpScale(op) & (OpScale(op) - 1) != 0 { return false; }
    }
    ok := true;
  }

  /** With a base register: mod, rm, the SIB base and the size of the displacement. */
  method BaseFields(off: bv32, rm0: Byte, hasIdx: bool) returns (mod: Byte, rm: Byte, base: Byte, dispsz: nat)
    ensures mod == if off == 0 then (if rm0 == 5 then 1 else 0) else if Fits8(off) then 1 else 2
    ensures (rm, base) == if hasIdx || rm0 == 4 then (4, rm0) else (rm0, 0)
    ensures dispsz == if mod == 1 then 1 else if mod == 2 then 4 else 0
  {
    hide Fits8;
    mod, rm, base := 0, rm0, 0;
    if rm == 5 { mod := 1; }
    if off != 0 && Fits8(off) {
      mod := 1;
    } else if off != 0 {
      mod := 2;
    }
    if hasIdx || rm == 4 {
      base, rm := rm, 4;
    }
    dispsz := if mod == 1 then 1 else if mod == 2 then 4 else 0;
  }

  /** The fields that enc_mr works out step by step. */
  method Fields(o: Opc, op: FeOp, reg: Byte, opcsz: nat, immsz: nat) returns (ok: bool, f: Form)
    requires OpMem(op) && opcsz <= 11 && immsz <= 8
    ensures ok <==> IndexOk(o.vsib, op) && BaseOk(op)
    ensures ok ==> f == MemForm(o, op, reg, opcsz, immsz)
  {
    hide OpMem, OpIdx, OpBase, OpScale, OpOffset, OpGpl, OpXmm, RegIdx, Low3, Fits8, Back, ScaleCode, IndexOk, MemForm;
    var scale: Byte, idx: Byte, hasIdx := 0, 4, OpIdx(op) != 0;
    f := Form(o, 0, reg, 0, scale, idx, 0, OpOffset(op), 0);
    ok := CheckIndex(o.vsib, op);
    if !ok { return; }
    if hasIdx {
      idx, scale := Low3(OpIdx(op)), ScaleCode(OpScale(op));
    }
    if OpBase(op) == 0 {
      f := Form(o, 0, reg, 4, scale, idx, 5, OpOffset(op), 4);
      NoBaseForm(o, op, reg, opcsz, immsz);
    } else if OpBase(op) == FE_IP {
      if hasIdx { NotGpl(op); return false, f; }
      // Adjust the offset, the caller does not know the length of the instruction.
      f := Form(o, 0, reg, 5, scale, idx, 0, Back(OpOffset(op), opcsz + 5 + immsz), 4);
      IpForm(o, op, reg, opcsz, immsz);
    } else {
      if !OpGpl(OpBase(op)) { return false, f; }
      var mod, rm, base, dispsz := BaseFields(OpOffset(op), Low3(OpBase(op)), hasIdx);
      f := Form(o, mod, reg, rm, scale, idx, base, OpOffset(op), dispsz);
      BaseForm(o, op, reg, opcsz, immsz);
    }
  }

  lemma NoBaseForm(o: Opc, op: FeOp, reg: Byte, opcsz: nat, immsz: nat)
    requires immsz <= 8 && opcsz <= 11 && OpBase(op) == 0
    ensures MemForm(o, op, reg, opcsz, immsz)
      == Form(o, 0, reg, 4, if OpIdx(op) != 0 then ScaleCode(OpScale(op)) else 0,
        if OpIdx(op) != 0 then Low3(OpIdx(op)) else 4, 5, OpOffset(op), 4)
  {
    hide OpIdx, OpBase, OpScale, OpOffset, Low3, Fits8, Back, ScaleCode;
  }

  lemma IpForm(o: Opc, op: FeOp, reg: Byte, opcsz: nat, immsz: nat)
    requires immsz <= 8 && opcsz <= 11 && OpBase(op) == FE_IP && OpIdx(op) == 0
    ensures MemForm(o, op, reg, opcsz, immsz) == Form(o, 0, reg, 5, 0, 4, 0, Back(OpOffset(op), opcsz + 5 + immsz), 4)
  {
    hide OpIdx, OpBase, OpScale, OpOffset, Low3, Fits8, Back, ScaleCode;
  }

  lemma BaseForm(o: Opc, op: FeOp, reg: Byte, opcsz: nat, immsz: nat)
    requires immsz <= 8 && opcsz <= 11 && OpBase(op) != FE_IP && OpBase(op) != 0
    ensures var f := MemForm(o, op, reg, opcsz, immsz);
      var rm0 := Low3(OpBase(op));
      && f.mod == (if OpOffset(op) == 0 then (if rm0 == 5 then 1 else 0) else if Fits8(OpOffset(op)) then 1 else 2)
      && (f.rm, f.base) == (if OpIdx(op) != 0 || rm0 == 4 then (4, rm0) else (rm0, 0))
      && f.dispsz == (if f.mod == 1 then 1 else if f.mod == 2 then 4 else 0)
      && f.scale == (if OpIdx(op) != 0 then ScaleCode(OpScale(op)) else 0) && f.idx == (if OpIdx(op) != 0 then Low3(OpIdx(op)) else 4)
      && f.o == o && f.reg == reg && f.off == OpOffset(op)
  {
    hide OpIdx, OpBase, OpScale, OpOffset, Low3, Fits8, Back, ScaleCode;
  }

  lemma NotGpl(op: FeOp)
    requires OpBase(op) == FE_IP
    ensures !OpGpl(OpBase(op)) && OpBase(op) != 0
  {
  }

  /** enc_mr: accepts what FormOf accepts, and writes its bytes; otherwise nothing is written. */
  method EncMr(buf: Buffer, o0: Opc, op0: FeOp, op1: FeOp, immsz: nat) returns (ok: bool)
    requires buf.Valid() && ValidOpc(o0) && immsz <= 8 && buf.pos + 15 <= buf.data.Length
    modifies buf`pos, buf.data
    ensures buf.Valid() && (ok <==> FormOf(o0, op0, op1, immsz).Some?)
    ensures buf.Written() == old(buf.Written()) + if ok then FormBytes(FormOf(o0, op0, op1, immsz).value) else []
  {
    hide OpMem, OpGph, NeedsRex, Low3, MemForm, IndexOk, BaseOk, OpcSize, OpcBytes, WithRex, ModRmByte, SibByte, DispBytes, Fits8;
    var o := WithRex(o0, op0, op1);
    ValidWithRex(o0, op0, op1);
    if NeedsRex(o) && (OpGph(op0) || OpGph(op1)) { return false; }
    var opcsz := OpcSize(o);
    SizeIsCount(o);
    var f := Form(o, 3, Low3(op1), Low3(op0), 0, 4, 0, 0, 0);
    if OpMem(op0) {
      ok, f := Fields(o, op0, Low3(op1), opcsz, immsz);
      if !ok { return false; }
      DispSizes(o, op0, Low3(op1), opcsz, immsz);
    }
    if FormSize(f, opcsz, immsz) > 15 { return false; }
    PutForm(buf, f);
    ok := true;
  }

  lemma ValidWithRex(o: Opc, op0: FeOp, op1: FeOp)
    requires ValidOpc(o)
    ensures ValidOpc(WithRex(o, op0, op1))
  {
    hide OpMem, RegIdx, OpBase, OpIdx;
  }

  lemma DispSizes(o: Opc, op: FeOp, reg: Byte, opcsz: nat, immsz: nat)
    requires immsz <= 8 && opcsz <= 11
    ensures var f := MemForm(o, op, reg, opcsz, immsz); f.o == o && (f.dispsz == 0 || f.dispsz == 1 || f.dispsz == 4)
  {
    hide OpIdx, OpBase, OpScale, OpOffset, Low3, Fits8, Back, ScaleCode;
  }

  method PutForm(buf: Buffer, f: Form)
    requires buf.Valid() && ValidOpc(f.o) && (f.dispsz == 0 || f.dispsz == 1 || f.dispsz == 4)
    requires buf.pos + OpcSize(f.o) + 1 + (if f.mod != 3 && f.rm == 4 then 1 else 0) + f.dispsz <= buf.data.Length
    modifies buf`pos, buf.data
    ensures buf.Valid() && buf.Written() == old(buf.Written()) + FormBytes(f)
  {
    hide OpcBytes, ModRmByte, SibByte, DispBytes, OpcSize, Buffer.Written;
    SizeIsCount(f.o);
    ghost var before := buf.Written();
    buf.EncOpc(f.o);
    buf.Put(ModRmByte(f));
    ghost var sib: seq<Byte> := [];
    if f.mod != 3 && f.rm == 4 {
      buf.Put(SibByte(f));
      sib := [SibByte(f)];
    }
    assert buf.Written() == before + OpcBytes(f.o) + [ModRmByte(f)] + sib;
    EncDisp(buf, f.off, f.dispsz);
    Associate(before, OpcBytes(f.o), [ModRmByte(f)] + sib, DispBytes(f.off, f.dispsz));
    assert before + OpcBytes(f.o) + [ModRmByte(f)] + sib == before + OpcBytes(f.o) + ([ModRmByte(f)] + sib);
    assert OpcBytes(f.o) + ([ModRmByte(f)] + sib) + DispBytes(f.off, f.dispsz) == FormBytes(f);
  }
}
