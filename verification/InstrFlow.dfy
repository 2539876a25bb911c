/**
 * Control flow of decoded instructions, as the lifter and as the server
 * classify them.
 */
module InstrFlow {
  import opened Options

  /** Addresses are 64-bit and wrap around. */
  const SPACE: nat := 0x1_0000_0000_0000_0000

  type Addr = a: nat | a < SPACE

  /** The instructions that the classifications tell apart, by architecture; offsets are signed. */
  datatype Op =
    // x86-64
    | Jcc(off: int)               // conditional jumps, jcxz, loop
    | JmpRel(off: int)
    | JmpIndirect
    | CallX86
    | StopX86                     // ret, syscall, int, into, ud, hlt
    // RISC-V
    | BranchRV(imm: int)
    | Jal(rd: nat, imm: int)
    | Jalr(rd: nat)
    | Ecall
    // AArch64
    | Bcond(offset: int)          // b.cond, cbz, cbnz
    | Tbz(offset: int)            // tbz, tbnz
    | B(offset: int)
    | Bl(offset: int)
    | Br
    | Blr
    | StopA64                     // ret, svc, hvc, smc, brk, hlt, dcps
    | Other

  datatype Insn = Insn(len: nat, op: Op)

  /** Memory and instruction decoder together; None where either fails. */
  type Code = Addr -> Option<Insn>

  function Plus(a: Addr, off: int): Addr {
    (a + off) % SPACE
  }

  // ----------------------------------------------------------- the lifter

  datatype Kind = BRANCH | COND_BRANCH | CALL | UNKNOWN | OTHER

  function KindOf(op: Op): Kind {
    match op
    case Jcc(_) => COND_BRANCH
    case JmpRel(_) => BRANCH
    case JmpIndirect => BRANCH
    case CallX86 => CALL
    case StopX86 => UNKNOWN
    case BranchRV(_) => COND_BRANCH
    case Jal(rd, _) => if rd != 0 then CALL else BRANCH
    case Jalr(rd) => if rd != 0 then CALL else BRANCH
    case Ecall => UNKNOWN
    case Bcond(_) => COND_BRANCH
    case Tbz(_) => COND_BRANCH
    case B(_) => BRANCH
    case Bl(_) => CALL
    case Br => BRANCH
    case Blr => CALL
    case StopA64 => UNKNOWN
    case Other => OTHER
  }

  function JumpTarget(a: Addr, i: Insn): Option<Addr> {
    match i.op
    case Jcc(off) => Some(Plus(Plus(a, i.len), off))
    case JmpRel(off) => Some(Plus(Plus(a, i.len), off))
    case BranchRV(imm) => Some(Plus(a, imm))
    case Jal(_, imm) => Some(Plus(a, imm))
    case Bcond(offset) => Some(Plus(a, offset))
    case Tbz(offset) => Some(Plus(a, offset))
    case B(offset) => Some(Plus(a, offset))
    case Bl(offset) => Some(Plus(a, offset))
    case _ => None
  }

  // ----------------------------------------------------------- the server

  datatype Result = NORMAL | BRANCH_TO | COND_BRANCH_TO | CALL_TO | UNKNOWN_TGT

  datatype DecodeResult = DecodeResult(result: Result, size: nat, target: Addr)

  function Classify(a: Addr, i: Insn): DecodeResult {
    match i.op
    case Jcc(off) => DecodeResult(COND_BRANCH_TO, i.len, Plus(a, i.len + off))
    case JmpRel(off) => DecodeResult(BRANCH_TO, i.len, Plus(a, i.len + off))
    case JmpIndirect => DecodeResult(UNKNOWN_TGT, i.len, 0)
    case CallX86 => DecodeResult(CALL_TO, i.len, 0)
    case StopX86 => DecodeResult(UNKNOWN_TGT, i.len, 0)
    case BranchRV(imm) => DecodeResult(COND_BRANCH_TO, i.len, Plus(a, imm))
    case Jal(rd, imm) => DecodeResult(if rd != 0 then CALL_TO else BRANCH_TO, i.len, Plus(a, imm))
    case Jalr(rd) => DecodeResult(if rd != 0 then CALL_TO else UNKNOWN_TGT, i.len, 0)
    case Ecall => DecodeResult(UNKNOWN_TGT, i.len, 0)
    case Bcond(offset) => DecodeResult(COND_BRANCH_TO, i.len, Plus(a, offset))
    case Tbz(offset) => DecodeResult(COND_BRANCH_TO, i.len, Plus(a, offset))
    case B(offset) => DecodeResult(BRANCH_TO, i.len, Plus(a, offset))
    case Bl(_) => DecodeResult(CALL_TO, i.len, 0)
    case Br => DecodeResult(UNKNOWN_TGT, i.len, 0)
    case Blr => DecodeResult(CALL_TO, i.len, 0)
    case StopA64 => DecodeResult(UNKNOWN_TGT, i.len, 0)
    case Other => DecodeResult(NORMAL, i.len, 0)
  }

  // ------------------------------------------------------ common meaning

  /** The addresses that an instruction sends control to, other than by running into them. */
  ghost function Targets(a: Addr, i: Insn, followCalls: bool): set<Addr> {
    match KindOf(i.op)
    case COND_BRANCH => {Plus(a, i.len)} + TargetSet(a, i)
    case BRANCH => TargetSet(a, i)
    case CALL => if followCalls then {Plus(a, i.len)} else {}
    case UNKNOWN => {}
    case OTHER => {}
  }

  ghost function TargetSet(a: Addr, i: Insn): set<Addr> {
    if JumpTarget(a, i).Some? then {JumpTarget(a, i).value} else {}
  }

  /** The server's classification sends control to the same addresses. */
  lemma ServerTargets(a: Addr, i: Insn, followCalls: bool)
    ensures var r := Classify(a, i);
      && r.size == i.len
      && (r.result == NORMAL <==> KindOf(i.op) == OTHER)
      && Targets(a, i, followCalls) ==
         (match r.result
          case NORMAL => {}
          case BRANCH_TO => {r.target}
          case COND_BRANCH_TO => {r.target, Plus(a, i.len)}
          case CALL_TO => if followCalls then {Plus(a, i.len)} else {}
          case UNKNOWN_TGT => {})
  {
    if i.op.Jcc? || i.op.JmpRel? {
      PlusPlus(a, i.len, i.op.off);
    }
  }

  lemma PlusPlus(a: Addr, x: nat, y: int)
    ensures Plus(Plus(a, x), y) == Plus(a, x + y)
  {
    var q := (a + x) / SPACE;
    assert a + x == q * SPACE + Plus(a, x);
    var u := Plus(a, x) + y;
    assert (u + q * SPACE) % SPACE == u % SPACE by { ModShift(u, q); }
  }

  lemma {:induction false} ModShift(u: int, q: nat)
    ensures (u + q * SPACE) % SPACE == u % SPACE
  {
    if q > 0 {
      ModShift(u, q - 1);
      assert u + q * SPACE == (u + (q - 1) * SPACE) + SPACE;
    }
  }
}
