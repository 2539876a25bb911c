/**
 * Relocations as the client's linker applies them, and what the processor (for
 * AArch64: the decoder of guest code) makes of the patched words. Section 4.4
 * of the System V AMD64 ABI and section 5.7 of AAELF64.
 */
module Relocation {
  import opened Options

  type Word = bv64

  /** The logarithm of the size of an access. */
  type LogSize = s: bv64 | s <= 4

  /** Where a move puts its half-word. */
  type HalfShift = g: bv64 | g == 0 || g == 16 || g == 32 || g == 48

  datatype Reloc =
    | X64_PC64 | X64_64 | X64_PC32 | X64_PLT32 | X64_32S | X64_32
    | A64_PREL64 | A64_PREL32 | A64_JUMP26 | A64_CALL26 | A64_PG_HI21 | A64_ADD_LO12
    | A64_LDST(s: LogSize) | A64_MOVW(g: HalfShift)
    | Unhandled

  // --------------------------------------------------------- 64-bit numbers

  function Plus(a: Word, b: Word): Word { a + b }
  function Minus(a: Word, b: Word): Word { a - b }

  lemma MinusIs(a: Word, b: Word)
    ensures Minus(b, a) == b - a
  {
  }

  lemma PlusRest(a: Word, b: Word)
    ensures Plus(a, b - a) == b
  {
  }

  lemma PlusMinus(a: Word, b: Word)
    ensures Plus(a, Minus(b, a)) == b
  {
    MinusIs(a, b);
    PlusRest(a, b);
    hide Plus, Minus;
  }

  /** CHECK_SIGNED_BITS for the sizes in use: from -2^(b-1) up to, but without, 2^(b-1)-1. */
  predicate Signed32(v: Word) { v + 0x8000_0000 < 0xffff_ffff }
  predicate Signed28(v: Word) { v + 0x800_0000 < 0xfff_ffff }
  predicate Signed21(v: Word) { v + 0x10_0000 < 0x1f_ffff }
  predicate Unsigned32(v: Word) { v < 0xffff_ffff }

  /** rtld_blend; a mask of 32 bits leaves the upper half of the word alone. */
  function Blend(old_: Word, mask: Word, data: Word): Word {
    (data & mask) | (old_ & !mask)
  }

  function AlignDown(v: Word): Word {
    v & 0xffff_ffff_ffff_f000
  }

  /** Sign extension, with `m` the sign bit. */
  function Sext(x: Word, m: Word): Word {
    (x ^ m) - m
  }

  /** An arithmetic shift to the right by a page. */
  function PagesOf(v: Word): Word {
    Sext(v >> 12, 0x8_0000_0000_0000)
  }

  // ---------------------------------------------------------- relocations

  function Mask(k: Reloc): Word {
    match k
    case X64_PC64 => 0xffff_ffff_ffff_ffff
    case X64_64 => 0xffff_ffff_ffff_ffff
    case A64_PREL64 => 0xffff_ffff_ffff_ffff
    case A64_JUMP26 => 0x03ff_ffff
    case A64_CALL26 => 0x03ff_ffff
    case A64_PG_HI21 => 0x60ff_ffe0
    case A64_ADD_LO12 => 0xfff << 10
    case A64_LDST(s) => LdstMask(s)
    case A64_MOVW(_) => 0xffff << 5
    case _ => 0xffff_ffff
  }

  function LdstMask(s: LogSize): Word {
    (0xfff >> s) << 10
  }

  function Scaled(v: Word, s: LogSize): Word { v >> s }
  function Half(v: Word, g: HalfShift): Word { v >> g }

  function PageDistance(syma: Word, pc: Word): Word {
    Minus(AlignDown(syma), AlignDown(pc))
  }

  /** What is encoded: relative to the place, in pages, or to a stub where the branch does not reach. */
  function Distance(k: Reloc, syma: Word, pc: Word, stub: Option<Word>): Word {
    match k
    case A64_JUMP26 => BranchDistance(syma, pc, stub)
    case A64_CALL26 => BranchDistance(syma, pc, stub)
    case A64_PG_HI21 => PagesOf(PageDistance(syma, pc))
    case _ => Minus(syma, pc)
  }

  /** Where a branch is to go: to the symbol, or to a stub if there is one and the symbol is out of reach. */
  function BranchTarget(syma: Word, pc: Word, stub: Option<Word>): Word {
    if !Signed28(Minus(syma, pc)) && stub.Some? then stub.value else syma
  }

  function BranchDistance(syma: Word, pc: Word, stub: Option<Word>): Word {
    Minus(BranchTarget(syma, pc, stub), pc)
  }

  /** The range checks. */
  predicate Fits(k: Reloc, syma: Word, dist: Word) {
    match k
    case X64_PC32 => Signed32(dist)
    case X64_PLT32 => Signed32(dist)
    case X64_32S => Signed32(syma)
    case X64_32 => Unsigned32(syma)
    case A64_PREL32 => Signed32(dist)
    case A64_JUMP26 => Signed28(dist)
    case A64_CALL26 => Signed28(dist)
    case A64_PG_HI21 => Signed21(dist)
    case Unhandled => false
    case _ => true
  }

  function PageBits(pages: Word): Word {
    ((pages & 3) << 29) | (((pages >> 2) & 0x7_ffff) << 5)
  }

  /** The bits to blend in. */
  function Data(k: Reloc, syma: Word, dist: Word): Word {
    match k
    case X64_64 => syma
    case X64_32S => syma
    case X64_32 => syma
    case A64_JUMP26 => dist >> 2
    case A64_CALL26 => dist >> 2
    case A64_PG_HI21 => PageBits(dist)
    case A64_ADD_LO12 => syma << 10
    case A64_LDST(s) => Scaled(syma, s) << 10
    case A64_MOVW(g) => Half(syma, g) << 5
    case _ => dist
  }

  /**
   * rtld_reloc_at, with `syma` the symbol plus the addend: the patched word, or
   * None if the value does not fit. `stub` is the place of a stub, if one can be made.
   */
  function RelocAt(k: Reloc, old_: Word, syma: Word, pc: Word, stub: Option<Word>): Option<Word> {
    var dist := Distance(k, syma, pc, stub);
    if Fits(k, syma, dist) then Some(Blend(old_, Mask(k), Data(k, syma, dist))) else None
  }

  // ----------------------------------------------------- the words decoded

  function Low32Signed(w: Word): Word {
    Sext(w & 0xffff_ffff, 0x8000_0000)
  }

  /** B and BL. */
  function BranchOffset(w: Word): Word {
    Sext((w & 0x03ff_ffff) << 2, 0x800_0000)
  }

  function AdrpImm(w: Word): Word {
    ((w & (0x7_ffff << 5)) >> 3) | ((w >> 29) & 3)
  }

  /** ADRP: whole pages. */
  function AdrpOffset(w: Word): Word {
    Sext(AdrpImm(w), 0x10_0000) << 12
  }

  /** ADD with an immediate, which bit 22 shifts by a page. */
  function AddImm(w: Word): Word {
    ((w >> 10) & 0xfff) << AddShift(w)
  }

  function AddShift(w: Word): (s: Word)
    ensures s == 0 || s == 12
  {
    if w & 0x40_0000 != 0 then 12 else 0
  }

  /** LDR and STR with an unsigned offset, scaled by the size of the access. */
  function LdstOffset(w: Word, s: LogSize): Word {
    ((w >> 10) & 0xfff) << s
  }

  function LowBits(s: LogSize): Word {
    (1 << s) - 1
  }

  /** The registers of an instruction. */
  function Rd(w: Word): Word { w & 0x1f }
  function Rn(w: Word): Word { (w >> 5) & 0x1f }

  /** MOVZ and MOVK on 64 bits, and BR. */
  predicate IsMovz(w: Word) { (w >> 23) & 0x1ff == 0x1a5 }
  predicate IsMovk(w: Word) { (w >> 23) & 0x1ff == 0x1e5 }
  predicate IsBr(w: Word) { (w >> 25) & 0x7f == 0x6b && (w >> 21) & 3 == 0 }

  /** MOVZ and MOVK: the half-word, and the number of the place it goes to. */
  function Imm16(w: Word): Word { (w >> 5) & 0xffff }
  function Hw(w: Word): Word { (w >> 21) & 3 }
  function Shift(w: Word): (s: Word)
    ensures s <= 48
  {
    Hw(w) << 4
  }

  function Movz(w: Word): Word { Imm16(w) << Shift(w) }
  function Movk(v: Word, w: Word): Word { (v & !(0xffff << Shift(w))) | (Imm16(w) << Shift(w)) }

  /** Register `d`, which holds `v`, after the instruction `w`, if that is a move. */
  function AfterMove(d: Word, v: Word, w: Word): Word
    requires IsMovz(w) || IsMovk(w)
  {
    if Rd(w) != d then v else if IsMovz(w) then Movz(w) else Movk(v, w)
  }

  /** One MOVZ and three MOVKs, for the four places from the lowest on. */
  predicate BuildsUp(d: Word, w0: Word, w1: Word, w2: Word, w3: Word) {
    && IsMovz(w0) && IsMovk(w1) && IsMovk(w2) && IsMovk(w3)
    && Rd(w0) == d && Rd(w1) == d && Rd(w2) == d && Rd(w3) == d
    && Hw(w0) == 0 && Hw(w1) == 1 && Hw(w2) == 2 && Hw(w3) == 3
  }

  function AfterMoves(d: Word, v: Word, w0: Word, w1: Word, w2: Word, w3: Word): Word
    requires BuildsUp(d, w0, w1, w2, w3)
  {
    AfterMove(d, AfterMove(d, AfterMove(d, AfterMove(d, v, w0), w1), w2), w3)
  }

  function MovedUp(i0: Word, i1: Word, i2: Word, i3: Word): Word {
    (((((i0 & !(0xffff << 16)) | (i1 << 16)) & !(0xffff << 32)) | (i2 << 32)) & !(0xffff << 48)) | (i3 << 48)
  }

  /** rtld_elf_add_stub. */
  function StubCode(sym: Word): seq<Word> {
    [0xd280_0010 | ((sym & 0xffff) << 5), 0xf2a0_0010 | (((sym >> 16) & 0xffff) << 5),
     0xf2c0_0010 | (((sym >> 32) & 0xffff) << 5), 0xf2e0_0010 | (((sym >> 48) & 0xffff) << 5), 0xd61f_0200]
  }

  // --------------------------------------------------------------- results

  lemma BlendKeeps(old_: Word, mask: Word, data: Word)
    ensures Blend(old_, mask, data) & !mask == old_ & !mask
  {
  }

  /** Bits outside the field are unchanged. */
  lemma OutsideKept(k: Reloc, old_: Word, syma: Word, pc: Word, stub: Option<Word>)
    ensures var r := RelocAt(k, old_, syma, pc, stub); r.Some? ==> r.value & !Mask(k) == old_ & !Mask(k)
  {
    hide Fits, Distance, Blend, Mask, Data;
    BlendKeeps(old_, Mask(k), Data(k, syma, Distance(k, syma, pc, stub)));
  }

  lemma BlendAll(old_: Word, v: Word)
    ensures Blend(old_, 0xffff_ffff_ffff_ffff, v) == v
  {
  }

  /** Whole words. */
  lemma Reloc64(old_: Word, syma: Word, pc: Word)
    ensures RelocAt(X64_64, old_, syma, pc, None) == Some(syma)
    ensures RelocAt(X64_PC64, old_, syma, pc, None) == RelocAt(A64_PREL64, old_, syma, pc, None) == Some(Minus(syma, pc))
  {
    hide Blend, Minus;
    BlendAll(old_, syma);
    BlendAll(old_, Minus(syma, pc));
  }

  predicate IsRelative32(k: Reloc) {
    k == X64_PC32 || k == X64_PLT32 || k == A64_PREL32
  }

  lemma Blended32(old_: Word, v: Word)
    ensures Blend(old_, 0xffff_ffff, v) & 0xffff_ffff == v & 0xffff_ffff
  {
  }

  /** The values that fields of 32, 28 and 21 bits can hold. */
  predicate In32(v: Word) { Sext(v & 0xffff_ffff, 0x8000_0000) == v }
  predicate In28(v: Word) { Sext(v & 0xfff_ffff, 0x800_0000) == v }
  predicate In21(v: Word) { Sext(v & 0x1f_ffff, 0x10_0000) == v }
  predicate InU32(v: Word) { v & 0xffff_ffff == v }

  /** The checks are one short: of the values that the field could hold they refuse exactly the largest. */
  lemma OneShort32(v: Word)
    ensures Signed32(v) <==> In32(v) && v != 0x7fff_ffff
  {
    Fits32(v);
    Short32(v);
    hide Signed32, In32;
  }

  lemma Fits32(v: Word)
    ensures Signed32(v) ==> In32(v) && v != 0x7fff_ffff
  {
  }

  lemma Short32(v: Word)
    ensures In32(v) && v != 0x7fff_ffff ==> Signed32(v)
  {
  }

  lemma OneShort28(v: Word)
    ensures Signed28(v) <==> In28(v) && v != 0x7ff_ffff
  {
    Fits28(v);
    Short28(v);
    hide Signed28, In28;
  }

  lemma Fits28(v: Word)
    ensures Signed28(v) ==> In28(v) && v != 0x7ff_ffff
  {
  }

  lemma Short28(v: Word)
    ensures In28(v) && v != 0x7ff_ffff ==> Signed28(v)
  {
  }

  lemma OneShort21(v: Word)
    ensures Signed21(v) <==> In21(v) && v != 0xf_ffff
  {
    Fits21(v);
    Short21(v);
    hide Signed21, In21;
  }

  lemma Fits21(v: Word)
    ensures Signed21(v) ==> In21(v) && v != 0xf_ffff
  {
  }

  lemma Short21(v: Word)
    ensures In21(v) && v != 0xf_ffff ==> Signed21(v)
  {
  }

  lemma OneShortU32(v: Word)
    ensures Unsigned32(v) <==> InU32(v) && v != 0xffff_ffff
  {
  }

  lemma Field32(old_: Word, v: Word)
    ensures In32(v) ==> Low32Signed(Blend(old_, 0xffff_ffff, v)) == v
    ensures InU32(v) ==> Blend(old_, 0xffff_ffff, v) & 0xffff_ffff == v
  {
    hide Blend, Sext;
    Blended32(old_, v);
  }

  lemma Relative32Is(k: Reloc, old_: Word, syma: Word, pc: Word)
    requires IsRelative32(k)
    ensures RelocAt(k, old_, syma, pc, None) ==
      if Signed32(Minus(syma, pc)) then Some(Blend(old_, 0xffff_ffff, Minus(syma, pc))) else None
  {
    hide Blend, Minus, Signed32;
  }

  /** 32 bits relative to the place: applied if the distance fits and is not the largest, and then place plus field is the target. */
  lemma Reloc32Relative(k: Reloc, old_: Word, syma: Word, pc: Word)
    requires IsRelative32(k)
    ensures var r, dist := RelocAt(k, old_, syma, pc, None), Minus(syma, pc);
      && (r.Some? <==> In32(dist) && dist != 0x7fff_ffff)
      && (r.Some? ==> Plus(pc, Low32Signed(r.value)) == syma)
  {
    Relative32Is(k, old_, syma, pc);
    OneShort32(Minus(syma, pc));
    Field32(old_, Minus(syma, pc));
    PlusMinus(pc, syma);
    hide *;
  }

  lemma Absolute32Is(old_: Word, syma: Word, pc: Word)
    ensures RelocAt(X64_32S, old_, syma, pc, None) == if Signed32(syma) then Some(Blend(old_, 0xffff_ffff, syma)) else None
    ensures RelocAt(X64_32, old_, syma, pc, None) == if Unsigned32(syma) then Some(Blend(old_, 0xffff_ffff, syma)) else None
  {
    hide Blend, Signed32, Unsigned32, Minus;
  }

  /** 32 bits, absolute. */
  lemma Reloc32Absolute(old_: Word, syma: Word, pc: Word)
    ensures var r := RelocAt(X64_32S, old_, syma, pc, None);
      (r.Some? <==> In32(syma) && syma != 0x7fff_ffff) && (r.Some? ==> Low32Signed(r.value) == syma)
    ensures var r := RelocAt(X64_32, old_, syma, pc, None);
      (r.Some? <==> InU32(syma) && syma != 0xffff_ffff) && (r.Some? ==> r.value & 0xffff_ffff == syma)
  {
    Absolute32Is(old_, syma, pc);
    OneShort32(syma);
    OneShortU32(syma);
    Field32(old_, syma);
    hide *;
  }

  // -------------------------------------------------------------- branches

  predicate IsBranch(k: Reloc) {
    k == A64_JUMP26 || k == A64_CALL26
  }

  lemma Field26(old_: Word, v: Word)
    requires Signed28(v)
    ensures BranchOffset(Blend(old_, 0x03ff_ffff, v >> 2)) == v <==> v & 3 == 0
  {
  }

  lemma PlusOnce(a: Word, b: Word, c: Word)
    ensures Plus(a, c) == b <==> c == Minus(b, a)
  {
    PlusMinus(a, b);
    MinusPlus(a, c);
    hide Plus, Minus;
  }

  lemma MinusPlus(a: Word, c: Word)
    ensures Minus(Plus(a, c), a) == c
  {
    PlusIs(a, c);
    MinusRest(a, c);
    hide Plus, Minus;
  }

  lemma PlusIs(a: Word, b: Word)
    ensures Plus(a, b) == a + b
  {
  }

  lemma MinusRest(a: Word, c: Word)
    ensures Minus(a + c, a) == c
  {
  }

  lemma BranchIs(k: Reloc, old_: Word, syma: Word, pc: Word, stub: Option<Word>)
    requires IsBranch(k)
    ensures var dist := BranchDistance(syma, pc, stub);
      RelocAt(k, old_, syma, pc, stub) == if Signed28(dist) then Some(Blend(old_, 0x03ff_ffff, dist >> 2)) else None
  {
    hide *;
    var dist := BranchDistance(syma, pc, stub);
    BranchMask(k);
    BranchData(k, syma, dist);
    BranchFits(k, syma, dist);
    BranchFrom(k, syma, pc, stub);
    AtIs(k, old_, syma, pc, stub);
  }

  lemma AtIs(k: Reloc, old_: Word, syma: Word, pc: Word, stub: Option<Word>)
    ensures var dist := Distance(k, syma, pc, stub);
      RelocAt(k, old_, syma, pc, stub) == if Fits(k, syma, dist) then Some(Blend(old_, Mask(k), Data(k, syma, dist))) else None
  {
    hide Blend, Fits, Distance, Mask, Data;
  }

  lemma BranchMask(k: Reloc)
    requires IsBranch(k)
    ensures Mask(k) == 0x03ff_ffff
  {
    hide LdstMask;
  }

  lemma BranchData(k: Reloc, syma: Word, dist: Word)
    requires IsBranch(k)
    ensures Data(k, syma, dist) == dist >> 2
  {
    hide PageBits, Scaled, Half;
  }

  lemma BranchFits(k: Reloc, syma: Word, dist: Word)
    requires IsBranch(k)
    ensures Fits(k, syma, dist) <==> Signed28(dist)
  {
    hide Signed32, Unsigned32, Signed28, Signed21;
  }

  lemma BranchFrom(k: Reloc, syma: Word, pc: Word, stub: Option<Word>)
    requires IsBranch(k)
    ensures Distance(k, syma, pc, stub) == BranchDistance(syma, pc, stub)
  {
    hide BranchDistance, PagesOf, PageDistance, Minus;
  }

  lemma BranchDistanceIs(syma: Word, pc: Word, stub: Option<Word>)
    ensures BranchDistance(syma, pc, stub) == Minus(BranchTarget(syma, pc, stub), pc)
  {
    hide BranchTarget, Minus;
  }

  /**
   * A branch is applied exactly if its target is in reach, be it the symbol or
   * the stub, and then it leads there exactly if the distance is a multiple of four.
   */
  lemma RelocBranch(k: Reloc, old_: Word, syma: Word, pc: Word, stub: Option<Word>)
    requires IsBranch(k)
    ensures var r, target := RelocAt(k, old_, syma, pc, stub), BranchTarget(syma, pc, stub);
      && (r.Some? <==> In28(Minus(target, pc)) && Minus(target, pc) != 0x7ff_ffff)
      && (r.Some? ==> (Plus(pc, BranchOffset(r.value)) == target <==> Minus(target, pc) & 3 == 0))
  {
    hide *;
    var target := BranchTarget(syma, pc, stub);
    var dist := BranchDistance(syma, pc, stub);
    BranchIs(k, old_, syma, pc, stub);
    BranchDistanceIs(syma, pc, stub);
    OneShort28(dist);
    if Signed28(dist) {
      Field26(old_, dist);
      PlusOnce(pc, target, BranchOffset(Blend(old_, 0x03ff_ffff, dist >> 2)));
    }
  }

  lemma Halves(v: Word)
    ensures MovedUp(v & 0xffff, (v >> 16) & 0xffff, (v >> 32) & 0xffff, (v >> 48) & 0xffff) == v
  {
  }

  lemma MovzAt(d: Word, v: Word, w: Word)
    requires IsMovz(w) && Rd(w) == d && Hw(w) == 0
    ensures AfterMove(d, v, w) == Imm16(w)
  {
    hide Rd, Imm16;
  }

  lemma MovkAt1(d: Word, v: Word, w: Word)
    requires IsMovk(w) && Rd(w) == d && Hw(w) == 1
    ensures AfterMove(d, v, w) == (v & !(0xffff << 16)) | (Imm16(w) << 16)
  {
    hide Rd, Imm16;
  }

  lemma MovkAt2(d: Word, v: Word, w: Word)
    requires IsMovk(w) && Rd(w) == d && Hw(w) == 2
    ensures AfterMove(d, v, w) == (v & !(0xffff << 32)) | (Imm16(w) << 32)
  {
    hide Rd, Imm16;
  }

  lemma MovkAt3(d: Word, v: Word, w: Word)
    requires IsMovk(w) && Rd(w) == d && Hw(w) == 3
    ensures AfterMove(d, v, w) == (v & !(0xffff << 48)) | (Imm16(w) << 48)
  {
    hide Rd, Imm16;
  }

  /** The moves, one after the other, put the half-words in their places, whatever the register held. */
  lemma BuiltUp(d: Word, v: Word, w0: Word, w1: Word, w2: Word, w3: Word)
    requires BuildsUp(d, w0, w1, w2, w3)
    ensures AfterMoves(d, v, w0, w1, w2, w3) == MovedUp(Imm16(w0), Imm16(w1), Imm16(w2), Imm16(w3))
  {
    hide AfterMove, IsMovz, IsMovk, Rd, Hw, Imm16;
    var v0 := AfterMove(d, v, w0);
    var v1 := AfterMove(d, v0, w1);
    var v2 := AfterMove(d, v1, w2);
    MovzAt(d, v, w0);
    MovkAt1(d, v0, w1);
    MovkAt2(d, v1, w2);
    MovkAt3(d, v2, w3);
  }

  /** The stub loads the symbol into register 16, half-word by half-word, and jumps to what that holds. */
  lemma StubReaches(sym: Word, v: Word)
    ensures var c := StubCode(sym);
      && BuildsUp(16, c[0], c[1], c[2], c[3]) && AfterMoves(16, v, c[0], c[1], c[2], c[3]) == sym
      && IsBr(c[4]) && Rn(c[4]) == 16
  {
    var c := StubCode(sym);
    StubMoves(sym);
    StubHalves(sym);
    Halves(sym);
    hide Hw, Imm16, Rd, IsMovz, IsMovk, MovedUp, AfterMoves;
    BuiltUp(16, v, c[0], c[1], c[2], c[3]);
  }

  lemma StubMoves(sym: Word)
    ensures var c := StubCode(sym); BuildsUp(16, c[0], c[1], c[2], c[3])
  {
  }

  lemma StubHalves(sym: Word)
    ensures var c := StubCode(sym);
      && Imm16(c[0]) == sym & 0xffff && Imm16(c[1]) == (sym >> 16) & 0xffff
      && Imm16(c[2]) == (sym >> 32) & 0xffff && Imm16(c[3]) == (sym >> 48) & 0xffff
  {
  }

  // -------------------------------------------------------------- page pairs

  lemma AdrpBits(old_: Word, p: Word)
    ensures AdrpImm(Blend(old_, 0x60ff_ffe0, PageBits(p))) == p & 0x1f_ffff
  {
  }

  lemma PagesBack(d: Word)
    ensures d & 0xfff == 0 ==> PagesOf(d) << 12 == d
  {
  }

  lemma PageApart(a: Word, b: Word)
    ensures ((a & 0xffff_ffff_ffff_f000) - (b & 0xffff_ffff_ffff_f000)) & 0xfff == 0
  {
  }

  lemma PageDistanceIs(syma: Word, pc: Word)
    ensures PageDistance(syma, pc) & 0xfff == 0
  {
    PageApart(syma, pc);
    MinusIs(AlignDown(pc), AlignDown(syma));
    hide Minus;
  }

  lemma AdrpIs(old_: Word, syma: Word, pc: Word)
    ensures var p := PagesOf(PageDistance(syma, pc));
      RelocAt(A64_PG_HI21, old_, syma, pc, None) == if Signed21(p) then Some(Blend(old_, 0x60ff_ffe0, PageBits(p))) else None
  {
    hide Blend, Signed21, PagesOf, PageDistance, PageBits;
  }

  /** ADRP: applied if the pages are in reach, and then the offset is the distance of the pages. */
  lemma RelocAdrp(old_: Word, syma: Word, pc: Word)
    ensures var r, pages := RelocAt(A64_PG_HI21, old_, syma, pc, None), PagesOf(PageDistance(syma, pc));
      && (r.Some? <==> In21(pages) && pages != 0xf_ffff)
      && (r.Some? ==> AdrpOffset(r.value) == PageDistance(syma, pc))
  {
    hide *;
    var d := PageDistance(syma, pc);
    var p := PagesOf(d);
    AdrpIs(old_, syma, pc);
    OneShort21(p);
    PageDistanceIs(syma, pc);
    PagesBack(d);
    AdrpBits(old_, p);
    if Signed21(p) { AdrpDecodes(Blend(old_, 0x60ff_ffe0, PageBits(p)), p, d); }
  }

  lemma AdrpDecodes(w: Word, p: Word, d: Word)
    requires AdrpImm(w) == p & 0x1f_ffff && In21(p) && p << 12 == d
    ensures AdrpOffset(w) == d
  {
    hide AdrpImm, Sext;
  }

  /** The address that an ADRP and an offset lead to. */
  function PageAddress(pc: Word, pages: Word, low: Word): Word {
    Plus(Plus(AlignDown(pc), pages), low)
  }

  lemma SplitPage(v: Word)
    ensures Plus(AlignDown(v), v & 0xfff) == v
  {
  }

  lemma PageSum(syma: Word, pc: Word)
    ensures Plus(AlignDown(pc), PageDistance(syma, pc)) == AlignDown(syma)
    ensures PageAddress(pc, PageDistance(syma, pc), syma & 0xfff) == syma
  {
    hide Plus, Minus, AlignDown;
    PlusMinus(AlignDown(pc), AlignDown(syma));
    SplitPage(syma);
  }

  lemma FieldAdd(old_: Word, v: Word)
    ensures var w := Blend(old_, 0xfff << 10, v << 10); w & 0x40_0000 == old_ & 0x40_0000 && (w >> 10) & 0xfff == v & 0xfff
  {
  }

  lemma AddIs(old_: Word, syma: Word, pc: Word)
    ensures RelocAt(A64_ADD_LO12, old_, syma, pc, None) == Some(Blend(old_, 0xfff << 10, syma << 10))
  {
    hide Blend, Minus;
  }

  lemma ShiftedLow(v: Word)
    ensures (v & 0xfff) << 12 == v & 0xfff <==> v & 0xfff == 0
    ensures (v & 0xfff) << 0 == v & 0xfff
  {
  }

  lemma LowReaches(syma: Word, low: Word)
    ensures Plus(AlignDown(syma), low) == syma <==> low == syma & 0xfff
  {
    hide Plus, AlignDown;
    SplitPage(syma);
    PlusOnce(AlignDown(syma), syma, low);
    PlusOnce(AlignDown(syma), syma, syma & 0xfff);
  }

  /** What ADD with the patched word adds: the offset in the page, unless the immediate is shifted. */
  lemma PatchedAdd(add: Word, syma: Word)
    ensures var w := Blend(add, 0xfff << 10, syma << 10);
      AddImm(w) == syma & 0xfff <==> add & 0x40_0000 == 0 || syma & 0xfff == 0
  {
    FieldAdd(add, syma);
    ShiftedLow(syma);
    hide Blend;
  }

  /**
   * ADRP with ADD: the page of the place, the pages between, and the offset in
   * the page give the symbol exactly if the immediate is not shifted, or zero.
   */
  lemma RelocAdrpAdd(adrp: Word, add: Word, syma: Word, pc: Word, pcAdd: Word)
    ensures var r1, r2 := RelocAt(A64_PG_HI21, adrp, syma, pc, None), RelocAt(A64_ADD_LO12, add, syma, pcAdd, None);
      && r2.Some?
      && (r1.Some? ==>
            (PageAddress(pc, AdrpOffset(r1.value), AddImm(r2.value)) == syma <==> add & 0x40_0000 == 0 || syma & 0xfff == 0))
  {
    var w := Blend(add, 0xfff << 10, syma << 10);
    hide *;
    RelocAdrp(adrp, syma, pc);
    AddIs(add, syma, pcAdd);
    PatchedAdd(add, syma);
    PageSum(syma, pc);
    LowReaches(syma, AddImm(w));
    PageAddressIs(pc, PageDistance(syma, pc), AddImm(w));
  }

  /** The upper bits of the offset field, which the relocation does not touch, are clear. */
  predicate LdstClean(w: Word, s: LogSize) {
    w & (0xfff << 10) & !LdstMask(s) == 0
  }

  /** The offset of a patched load or store: the offset in the page, cut to the size of the access, if the rest is clear. */
  lemma FieldLdst(old_: Word, v: Word, s: LogSize)
    ensures LdstOffset(Blend(old_, LdstMask(s), Scaled(v, s) << 10), s) == v & 0xfff <==> LdstClean(old_, s) && v & LowBits(s) == 0
  {
  }

  lemma LdstIs(w: Word, syma: Word, pc: Word, s: LogSize)
    ensures RelocAt(A64_LDST(s), w, syma, pc, None) == Some(Blend(w, LdstMask(s), Scaled(syma, s) << 10))
  {
    hide Blend, LdstMask, Scaled, Minus;
  }

  /**
   * ADRP with a load or store: the symbol is reached exactly if it is aligned to
   * the access and the instruction had no offset bits beyond the field.
   */
  lemma RelocAdrpLdst(adrp: Word, ldst: Word, syma: Word, pc: Word, pcLdst: Word, s: LogSize)
    ensures var r1, r2 := RelocAt(A64_PG_HI21, adrp, syma, pc, None), RelocAt(A64_LDST(s), ldst, syma, pcLdst, None);
      && r2.Some?
      && (r1.Some? ==>
            (PageAddress(pc, AdrpOffset(r1.value), LdstOffset(r2.value, s)) == syma
             <==> LdstClean(ldst, s) && syma & LowBits(s) == 0))
  {
    var w := Blend(ldst, LdstMask(s), Scaled(syma, s) << 10);
    hide *;
    RelocAdrp(adrp, syma, pc);
    LdstIs(ldst, syma, pcLdst, s);
    FieldLdst(ldst, syma, s);
    PageSum(syma, pc);
    LowReaches(syma, LdstOffset(w, s));
    PageAddressIs(pc, PageDistance(syma, pc), LdstOffset(w, s));
  }

  lemma PageAddressIs(pc: Word, pages: Word, low: Word)
    ensures PageAddress(pc, pages, low) == Plus(Plus(AlignDown(pc), pages), low)
  {
  }

  // ----------------------------------------------------------------- moves

  lemma FieldMov(old_: Word, v: Word)
    ensures var r := Blend(old_, 0xffff << 5, v << 5);
      && Imm16(r) == v & 0xffff && Hw(r) == Hw(old_) && Rd(r) == Rd(old_)
      && (IsMovz(r) <==> IsMovz(old_)) && (IsMovk(r) <==> IsMovk(old_))
  {
  }

  lemma MovIs(w: Word, syma: Word, pc: Word, g: HalfShift)
    ensures RelocAt(A64_MOVW(g), w, syma, pc, None) == Some(Blend(w, 0xffff << 5, Half(syma, g) << 5))
  {
    hide Blend, Half, Distance;
    MovData(syma, Distance(A64_MOVW(g), syma, pc, None), g);
    hide Data;
  }

  lemma MovData(syma: Word, dist: Word, g: HalfShift)
    ensures Data(A64_MOVW(g), syma, dist) == Half(syma, g) << 5
  {
    hide Half;
  }

  /** One move: the half-word in question, and still the same instruction, register and place. */
  lemma RelocMovOne(old_: Word, syma: Word, pc: Word, g: HalfShift)
    ensures var r := RelocAt(A64_MOVW(g), old_, syma, pc, None);
      && r.Some? && Imm16(r.value) == Half(syma, g) & 0xffff && Hw(r.value) == Hw(old_) && Rd(r.value) == Rd(old_)
      && (IsMovz(r.value) <==> IsMovz(old_)) && (IsMovk(r.value) <==> IsMovk(old_))
  {
    MovIs(old_, syma, pc, g);
    FieldMov(old_, Half(syma, g));
    hide *;
  }

  lemma HalvesAre(v: Word)
    ensures Half(v, 0) == v && Half(v, 16) == v >> 16 && Half(v, 32) == v >> 32 && Half(v, 48) == v >> 48
  {
  }

  /** Four moves to one register, patched and executed, leave the symbol there. */
  lemma RelocMov(d: Word, v: Word, w0: Word, w1: Word, w2: Word, w3: Word, syma: Word, pc: Word)
    requires BuildsUp(d, w0, w1, w2, w3)
    ensures var r0, r1, r2, r3 := RelocAt(A64_MOVW(0), w0, syma, pc, None), RelocAt(A64_MOVW(16), w1, syma, pc, None),
                                  RelocAt(A64_MOVW(32), w2, syma, pc, None), RelocAt(A64_MOVW(48), w3, syma, pc, None);
      && r0.Some? && r1.Some? && r2.Some? && r3.Some? && BuildsUp(d, r0.value, r1.value, r2.value, r3.value)
      && AfterMoves(d, v, r0.value, r1.value, r2.value, r3.value) == syma
  {
    RelocMovOne(w0, syma, pc, 0);
    RelocMovOne(w1, syma, pc, 16);
    RelocMovOne(w2, syma, pc, 32);
    RelocMovOne(w3, syma, pc, 48);
    Halves(syma);
    HalvesAre(syma);
    hide RelocAt, IsMovz, IsMovk, Rd, Hw, Imm16, Half, MovedUp, AfterMoves;
    BuiltUp(d, v, RelocAt(A64_MOVW(0), w0, syma, pc, None).value, RelocAt(A64_MOVW(16), w1, syma, pc, None).value,
            RelocAt(A64_MOVW(32), w2, syma, pc, None).value, RelocAt(A64_MOVW(48), w3, syma, pc, None).value);
  }

  /** rtld_patch: only the field changes, and a relocation that fails leaves the code as it is. */
  function Patch(k: Reloc, code: Word, syma: Word, pc: Word, stub: Option<Word>): (code': Word)
    ensures code' & !Mask(k) == code & !Mask(k)
    ensures RelocAt(k, code, syma, pc, stub).None? ==> code' == code
  {
    OutsideKept(k, code, syma, pc, stub);
    var r := RelocAt(k, code, syma, pc, stub);
    if r.Some? then r.value else code
  }
}
