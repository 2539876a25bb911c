/**
 * One instruction with its immediate: the step of fe_enc64_impl for a
 * descriptor with a ModRM operand, and what the decoder makes of the bytes.
 */
module FullInstruction {
  import opened Options
  import opened OpcodeBytes
  import opened PrefixDecode
  import opened OpcodeRoundTrip
  import opened MemOperand
  import opened OperandRoundTrip
  import opened Encoder

  predicate ImmSize(n: nat) {
    n == 0 || n == 1 || n == 2 || n == 3 || n == 4 || n == 8
  }

  function InstructionBytes(f: Form, imm: bv64, immsz: nat): seq<Byte> {
    FormBytes(f) + ImmBytes(imm, immsz)
  }

  /** The immediate, refused if it does not fit, then operands, then the immediate. */
  method EncodeInstruction(buf: Buffer, o: Opc, op0: FeOp, op1: FeOp, imm: bv64, immsz: nat) returns (ok: bool)
    requires buf.Valid() && ValidOpc(o) && ImmSize(immsz) && buf.pos + 15 <= buf.data.Length
    modifies buf`pos, buf.data
    ensures buf.Valid() && (ok <==> ImmFits(imm, immsz) && FormOf(o, op0, op1, immsz).Some?)
    ensures buf.Written() == old(buf.Written()) +
      if ok then InstructionBytes(FormOf(o, op0, op1, immsz).value, imm, immsz) else []
  {
    hide ImmFits, FormOf, FormBytes, ImmBytes;
    if !ImmFits(imm, immsz) { return false; }
    ok := EncMr(buf, o, op0, op1, immsz);
    if !ok { return; }
    ghost var f := FormOf(o, op0, op1, immsz).value;
    RoomForImm(o, op0, op1, immsz, f);
    ok := EncImm(buf, imm, immsz);
    Joined(old(buf.Written()), FormBytes(f), ImmBytes(imm, immsz));
  }

  lemma Joined(a: seq<Byte>, b: seq<Byte>, c: seq<Byte>)
    ensures a + b + c == a + (b + c)
  {
  }

  lemma RoomForImm(o: Opc, op0: FeOp, op1: FeOp, immsz: nat, f: Form)
    requires ValidOpc(o) && immsz <= 8 && FormOf(o, op0, op1, immsz) == Some(f)
    ensures |FormBytes(f)| + immsz <= 15
  {
    ValidWithRex(o, op0, op1);
    SizeIsCount(WithRex(o, op0, op1));
    DispSizes(WithRex(o, op0, op1), op0, Low3(op1), OpcSize(WithRex(o, op0, op1)), immsz);
    hide OpcBytes, OpcSize, WithRex, ValidOpc, MemForm, IndexOk, BaseOk, NeedsRex, OpGph, OpMem, Low3, LowByte, ModRmByte, SibByte;
  }

  /** The immediate behind the operands, sign-extended by its size. */
  function ReadImm(buf: seq<Byte>, len: nat, off: nat, n: nat): Result<(bv64, nat)>
    requires len <= |buf|
  {
    if off + n > len then Err(PARTIAL) else Ok((Extend(LoadLe(buf[off..off + n]), n), off + n))
  }

  lemma ImmInPlace(f: Form, imm: bv64, immsz: nat, rest: seq<Byte>, len: nat)
    requires ImmSize(immsz) && |FormBytes(f)| + immsz <= len <= |FormBytes(f) + (ImmBytes(imm, immsz) + rest)|
    ensures var r := ReadImm(FormBytes(f) + (ImmBytes(imm, immsz) + rest), len, |FormBytes(f)|, immsz);
      r == Ok((imm, |FormBytes(f)| + immsz)) <==> ImmFits(imm, immsz)
  {
    hide ImmFits, FormBytes, ImmBytes, LoadLe, Extend;
    ImmRoundTrip(imm, immsz);
    var buf := FormBytes(f) + (ImmBytes(imm, immsz) + rest);
    assert buf[|FormBytes(f)|..|FormBytes(f)| + immsz] == ImmBytes(imm, immsz);
  }

  /**
   * Whatever follows, the decoder finds head, register, operand and length of
   * the instruction, and the immediate exactly if the encoder accepts it.
   */
  lemma FullRoundTrip(o: Opc, op0: FeOp, op1: FeOp, imm: bv64, immsz: nat, f: Form, rest: seq<Byte>)
    requires FromTable(o) && Plain(o) && ImmSize(immsz) && FormOf(o, op0, op1, immsz) == Some(f)
    ensures OpcSize(f.o) <= 11 && ValidOpc(f.o) && |InstructionBytes(f, imm, immsz)| <= 15
    ensures var buf := InstructionBytes(f, imm, immsz) + rest;
      var len := if |buf| > 15 then 15 else |buf|;
      && DecodeHead(buf) == Ok(HeadFor(f.o))
      && ParseRm(buf, len, HeadFor(f.o).off + 1, HeadFor(f.o).rex, o.vsib)
         == Ok(Parsed(RegFor(op1), RmFor(op0, OpcSize(f.o), immsz), |FormBytes(f)|))
      && (ReadImm(buf, len, |FormBytes(f)|, immsz) == Ok((imm, |InstructionBytes(f, imm, immsz)|)) <==> ImmFits(imm, immsz))
  {
    hide *;
    TableOpcode(o);
    BytesAre(f, imm, immsz, rest);
    SizesFit(immsz);
    RoomForImm(o, op0, op1, immsz, f);
    InstructionRoundTrip(o, op0, op1, immsz, f, ImmBytes(imm, immsz) + rest);
    var buf := FormBytes(f) + (ImmBytes(imm, immsz) + rest);
    ImmInPlace(f, imm, immsz, rest, if |buf| > 15 then 15 else |buf|);
  }

  lemma TableOpcode(o: Opc)
    requires FromTable(o)
    ensures ValidOpc(o)
  {
  }

  lemma SizesFit(n: nat)
    requires ImmSize(n)
    ensures n <= 8
  {
  }

  lemma BytesAre(f: Form, imm: bv64, immsz: nat, rest: seq<Byte>)
    ensures InstructionBytes(f, imm, immsz) + rest == FormBytes(f) + (ImmBytes(imm, immsz) + rest)
    ensures |InstructionBytes(f, imm, immsz)| == |FormBytes(f)| + immsz && |ImmBytes(imm, immsz) + rest| >= immsz
  {
    hide FormBytes, ImmBytes;
    Joined(FormBytes(f), ImmBytes(imm, immsz), rest);
  }
}
