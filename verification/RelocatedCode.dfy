/**
 * What relocated code does when it runs: branches that go through a stub, and
 * chains of moves of any length and order.
 */
module RelocatedCode {
  import opened Options
  import opened Relocation

  // ------------------------------------------------------------- branches

  /** Running a stub with `v` in register 16: the moves, and a branch to what the register then holds. */
  ghost function ThroughStub(sym: Word, v: Word): Word {
    var c := StubCode(sym);
    StubReaches(sym, v);
    AfterMoves(Rn(c[4]), v, c[0], c[1], c[2], c[3])
  }

  /** Where the branch `w` leads in the end. There is a stub only if the symbol is out of reach. */
  ghost function Landing(w: Word, syma: Word, pc: Word, stub: Option<Word>, v: Word): Word {
    var at := Plus(pc, BranchOffset(w));
    if !Signed28(Minus(syma, pc)) && stub == Some(at) then ThroughStub(syma, v) else at
  }

  /** A decoded offset is in reach, which a symbol that needs a stub is not. */
  lemma OffsetInReach(w: Word)
    ensures Signed28(BranchOffset(w))
  {
  }

  lemma NotThere(w: Word, syma: Word, pc: Word)
    requires !Signed28(Minus(syma, pc))
    ensures Plus(pc, BranchOffset(w)) != syma
  {
    hide *;
    OffsetInReach(w);
    PlusOnce(pc, syma, BranchOffset(w));
  }

  /**
   * B or BL, relocated and run, with the stub if there is one: it ends at the
   * symbol exactly if the distance that was encoded is a multiple of four.
   */
  lemma BranchEnds(k: Reloc, old_: Word, syma: Word, pc: Word, stub: Option<Word>, v: Word)
    requires IsBranch(k)
    ensures var r := RelocAt(k, old_, syma, pc, stub);
      r.Some? ==> (Landing(r.value, syma, pc, stub, v) == syma <==> Minus(BranchTarget(syma, pc, stub), pc) & 3 == 0)
  {
    RelocBranch(k, old_, syma, pc, stub);
    StubReaches(syma, v);
    OneShort28(Minus(syma, pc));
    hide RelocAt, BranchOffset, Plus, Minus, Signed28, In28, StubCode, AfterMoves, BuildsUp, IsBr, Rn;
    var r := RelocAt(k, old_, syma, pc, stub);
    if r.Some? && !Signed28(Minus(syma, pc)) {
      NotThere(r.value, syma, pc);
    }
  }

  // ---------------------------------------------------------------- moves

  /** A MOVZ and then MOVKs, all to register `d`, to any places. */
  predicate IsChain(d: Word, ws: seq<Word>) {
    && |ws| > 0 && IsMovz(ws[0]) && (forall i :: 0 <= i < |ws| ==> Rd(ws[i]) == d)
    && (forall i :: 0 < i < |ws| ==> IsMovk(ws[i]))
  }

  /** Register `d`, which holds `v`, after a chain. */
  ghost function Executed(d: Word, v: Word, ws: seq<Word>): Word
    requires IsChain(d, ws)
    decreases |ws|
  {
    if |ws| == 1 then AfterMove(d, v, ws[0]) else AfterMove(d, Executed(d, v, ws[..|ws| - 1]), ws[|ws| - 1])
  }

  /** The place of a move. */
  function PlaceOf(w: Word): (g: HalfShift) {
    PlaceIs(w);
    Shift(w)
  }

  lemma PlaceIs(w: Word)
    ensures Shift(w) == 0 || Shift(w) == 16 || Shift(w) == 32 || Shift(w) == 48
    ensures Hw(w) == 0 || Hw(w) == 1 || Hw(w) == 2 || Hw(w) == 3
  {
  }

  /** Each move patched by the relocation for its place. */
  ghost function Patched(ws: seq<Word>, pcs: seq<Word>, syma: Word): (rs: seq<Option<Word>>)
    requires |pcs| == |ws|
    ensures |rs| == |ws|
  {
    seq(|ws|, i requires 0 <= i < |ws| => RelocAt(A64_MOVW(PlaceOf(ws[i])), ws[i], syma, pcs[i], None))
  }

  function HalfAt(v: Word, g: HalfShift): Word {
    Half(v, g) & 0xffff
  }

  ghost predicate Written(ws: seq<Word>, g: HalfShift) {
    exists i :: 0 <= i < |ws| && PlaceOf(ws[i]) == g
  }

  // The four places by themselves.
  function Get0(v: Word): Word { v & 0xffff }
  function Get16(v: Word): Word { (v >> 16) & 0xffff }
  function Get32(v: Word): Word { (v >> 32) & 0xffff }
  function Get48(v: Word): Word { (v >> 48) & 0xffff }
  function Put0(v: Word, i: Word): Word { (v & !0xffff) | i }
  function Put16(v: Word, i: Word): Word { (v & !(0xffff << 16)) | (i << 16) }
  function Put32(v: Word, i: Word): Word { (v & !(0xffff << 32)) | (i << 32) }
  function Put48(v: Word, i: Word): Word { (v & !(0xffff << 48)) | (i << 48) }

  /** A half-word put in its place. */
  function Put(v: Word, i: Word, s: HalfShift): Word {
    if s == 0 then Put0(v, i) else if s == 16 then Put16(v, i) else if s == 32 then Put32(v, i) else Put48(v, i)
  }

  lemma HalfAtIs(v: Word)
    ensures HalfAt(v, 0) == Get0(v) && HalfAt(v, 16) == Get16(v) && HalfAt(v, 32) == Get32(v) && HalfAt(v, 48) == Get48(v)
  {
  }

  lemma Halves0(v: Word, i: Word)
    requires i <= 0xffff
    ensures Get0(Put0(v, i)) == i && Get16(Put0(v, i)) == Get16(v) && Get32(Put0(v, i)) == Get32(v) && Get48(Put0(v, i)) == Get48(v)
  {
  }

  lemma Halves16(v: Word, i: Word)
    requires i <= 0xffff
    ensures Get0(Put16(v, i)) == Get0(v) && Get16(Put16(v, i)) == i && Get32(Put16(v, i)) == Get32(v) && Get48(Put16(v, i)) == Get48(v)
  {
  }

  lemma Halves32(v: Word, i: Word)
    requires i <= 0xffff
    ensures Get0(Put32(v, i)) == Get0(v) && Get16(Put32(v, i)) == Get16(v) && Get32(Put32(v, i)) == i && Get48(Put32(v, i)) == Get48(v)
  {
  }

  lemma Halves48(v: Word, i: Word)
    requires i <= 0xffff
    ensures Get0(Put48(v, i)) == Get0(v) && Get16(Put48(v, i)) == Get16(v) && Get32(Put48(v, i)) == Get32(v) && Get48(Put48(v, i)) == i
  {
  }

  lemma PutHalf(v: Word, i: Word, s: HalfShift, g: HalfShift)
    requires i <= 0xffff
    ensures HalfAt(Put(v, i, s), g) == if s == g then i else HalfAt(v, g)
  {
    hide HalfAt, Get0, Get16, Get32, Get48, Put0, Put16, Put32, Put48;
    HalfAtIs(v);
    HalfAtIs(Put(v, i, s));
    if s == 0 { Halves0(v, i); } else if s == 16 { Halves16(v, i); } else if s == 32 { Halves32(v, i); } else { Halves48(v, i); }
  }

  lemma MovkAt0(d: Word, v: Word, w: Word)
    requires IsMovk(w) && Rd(w) == d && Hw(w) == 0
    ensures AfterMove(d, v, w) == Put0(v, Imm16(w))
  {
    hide Rd, Imm16, Hw, Movk, Movz, Put0, IsMovz, IsMovk;
    NotBoth(w);
    LowestMovk(v, w);
  }

  lemma NotBoth(w: Word)
    requires IsMovk(w)
    ensures !IsMovz(w)
  {
  }

  lemma LowestMovk(v: Word, w: Word)
    requires Hw(w) == 0
    ensures Movk(v, w) == Put0(v, Imm16(w))
  {
    hide Imm16, Hw;
    assert Shift(w) == 0;
    hide Shift;
  }

  lemma PlaceAt(w: Word)
    ensures Hw(w) == 0 ==> PlaceOf(w) == 0
    ensures Hw(w) == 1 ==> PlaceOf(w) == 16
    ensures Hw(w) == 2 ==> PlaceOf(w) == 32
    ensures Hw(w) == 3 ==> PlaceOf(w) == 48
  {
    hide Hw;
  }

  lemma MovkPuts(d: Word, v: Word, w: Word)
    requires IsMovk(w) && Rd(w) == d
    ensures AfterMove(d, v, w) == Put(v, Imm16(w), PlaceOf(w))
  {
    hide AfterMove, IsMovk, Rd, Imm16, Hw, PlaceOf;
    PlaceIs(w);
    PlaceAt(w);
    if Hw(w) == 0 { MovkAt0(d, v, w); } else if Hw(w) == 1 { MovkAt1(d, v, w); }
    else if Hw(w) == 2 { MovkAt2(d, v, w); } else { MovkAt3(d, v, w); }
  }

  lemma ImmSmall(w: Word)
    ensures Imm16(w) <= 0xffff
  {
  }

  lemma MovzAt16(d: Word, v: Word, w: Word)
    requires IsMovz(w) && Rd(w) == d && Hw(w) == 1
    ensures AfterMove(d, v, w) == Imm16(w) << 16
  {
    hide Rd, Imm16;
  }

  lemma MovzAt32(d: Word, v: Word, w: Word)
    requires IsMovz(w) && Rd(w) == d && Hw(w) == 2
    ensures AfterMove(d, v, w) == Imm16(w) << 32
  {
    hide Rd, Imm16;
  }

  lemma MovzAt48(d: Word, v: Word, w: Word)
    requires IsMovz(w) && Rd(w) == d && Hw(w) == 3
    ensures AfterMove(d, v, w) == Imm16(w) << 48
  {
    hide Rd, Imm16;
  }

  lemma PutsZero(i: Word)
    ensures Put0(0, i) == i && Put16(0, i) == i << 16 && Put32(0, i) == i << 32 && Put48(0, i) == i << 48
  {
  }

  lemma MovzPuts(d: Word, v: Word, w: Word)
    requires IsMovz(w) && Rd(w) == d
    ensures AfterMove(d, v, w) == Put(0, Imm16(w), PlaceOf(w))
  {
    hide AfterMove, IsMovz, Rd, Imm16, Hw, PlaceOf, Put0, Put16, Put32, Put48;
    PlaceIs(w);
    PlaceAt(w);
    PutsZero(Imm16(w));
    if Hw(w) == 0 { MovzAt(d, v, w); } else if Hw(w) == 1 { MovzAt16(d, v, w); }
    else if Hw(w) == 2 { MovzAt32(d, v, w); } else { MovzAt48(d, v, w); }
  }

  lemma ZeroHalf(g: HalfShift)
    ensures HalfAt(0, g) == 0
  {
  }

  /** MOVZ clears the other places. */
  lemma MovzHalf(d: Word, v: Word, w: Word, g: HalfShift)
    requires IsMovz(w) && Rd(w) == d
    ensures HalfAt(AfterMove(d, v, w), g) == if PlaceOf(w) == g then Imm16(w) else 0
  {
    hide *;
    ImmSmall(w);
    MovzPuts(d, v, w);
    PutHalf(0, Imm16(w), PlaceOf(w), g);
    ZeroHalf(g);
  }

  /** MOVK keeps them. */
  lemma MovkHalf(d: Word, v: Word, w: Word, g: HalfShift)
    requires IsMovk(w) && Rd(w) == d
    ensures HalfAt(AfterMove(d, v, w), g) == if PlaceOf(w) == g then Imm16(w) else HalfAt(v, g)
  {
    hide *;
    ImmSmall(w);
    MovkPuts(d, v, w);
    PutHalf(v, Imm16(w), PlaceOf(w), g);
  }

  /** The moves of a chain hold, at their places, the halves of the symbol. */
  ghost predicate Holding(ws: seq<Word>, syma: Word) {
    forall i :: 0 <= i < |ws| ==> Imm16(ws[i]) == HalfAt(syma, PlaceOf(ws[i]))
  }

  lemma {:induction false} ChainHalf(d: Word, v: Word, ws: seq<Word>, syma: Word, g: HalfShift)
    requires IsChain(d, ws) && Holding(ws, syma)
    ensures HalfAt(Executed(d, v, ws), g) == if Written(ws, g) then HalfAt(syma, g) else 0
    decreases |ws|
  {
    hide HalfAt, AfterMove, PlaceOf, Imm16, Rd, IsMovz, IsMovk;
    if |ws| == 1 {
      MovzHalf(d, v, ws[0], g);
    } else {
      var before, w := ws[..|ws| - 1], ws[|ws| - 1];
      ChainHalf(d, v, before, syma, g);
      MovkHalf(d, Executed(d, v, before), w, g);
      WrittenMore(ws, g);
    }
  }

  lemma WrittenMore(ws: seq<Word>, g: HalfShift)
    requires |ws| > 1
    ensures Written(ws, g) <==> Written(ws[..|ws| - 1], g) || PlaceOf(ws[|ws| - 1]) == g
  {
    hide PlaceOf;
    var before := ws[..|ws| - 1];
    if i :| 0 <= i < |before| && PlaceOf(before[i]) == g {
      assert PlaceOf(ws[i]) == g;
    }
    if i :| 0 <= i < |ws| && PlaceOf(ws[i]) == g {
      if i < |before| { assert PlaceOf(before[i]) == g; }
    }
  }

  lemma SameHalves(a: Word, b: Word)
    ensures a == b <==>
      && HalfAt(a, 0) == HalfAt(b, 0) && HalfAt(a, 16) == HalfAt(b, 16)
      && HalfAt(a, 32) == HalfAt(b, 32) && HalfAt(a, 48) == HalfAt(b, 48)
  {
  }

  lemma PatchedChain(d: Word, ws: seq<Word>, pcs: seq<Word>, syma: Word, ps: seq<Word>)
    requires IsChain(d, ws) && |pcs| == |ws| == |ps|
    requires forall i :: 0 <= i < |ws| ==> Patched(ws, pcs, syma)[i] == Some(ps[i])
    ensures IsChain(d, ps) && Holding(ps, syma) && forall i :: 0 <= i < |ws| ==> PlaceOf(ps[i]) == PlaceOf(ws[i])
  {
    hide IsMovz, IsMovk, Rd, Imm16, Hw, Half, RelocAt;
    forall i | 0 <= i < |ws|
      ensures Rd(ps[i]) == Rd(ws[i]) && (IsMovz(ps[i]) <==> IsMovz(ws[i])) && (IsMovk(ps[i]) <==> IsMovk(ws[i]))
      ensures PlaceOf(ps[i]) == PlaceOf(ws[i]) && Imm16(ps[i]) == HalfAt(syma, PlaceOf(ws[i]))
    {
      assert Patched(ws, pcs, syma)[i] == Some(ps[i]);
      RelocMovOne(ws[i], syma, pcs[i], PlaceOf(ws[i]));
    }
  }

  /**
   * A chain of moves of any length, to any places in any order, patched and run:
   * every relocation applies, and the register holds the symbol exactly if each
   * half-word that no move writes is zero.
   */
  lemma MovesReach(d: Word, v: Word, ws: seq<Word>, pcs: seq<Word>, syma: Word) returns (ps: seq<Word>)
    requires IsChain(d, ws) && |pcs| == |ws|
    ensures |ps| == |ws| && (forall i :: 0 <= i < |ws| ==> Patched(ws, pcs, syma)[i] == Some(ps[i])) && IsChain(d, ps)
    ensures Executed(d, v, ps) == syma <==> forall g: HalfShift :: HalfAt(syma, g) == 0 || Written(ws, g)
  {
    hide IsMovz, IsMovk, Rd, Imm16, Hw, Half, HalfAt, RelocAt, PlaceOf;
    forall i | 0 <= i < |ws| ensures Patched(ws, pcs, syma)[i].Some? {
      RelocMovOne(ws[i], syma, pcs[i], PlaceOf(ws[i]));
    }
    ps := seq(|ws|, i requires 0 <= i < |ws| => Patched(ws, pcs, syma)[i].value);
    PatchedChain(d, ws, pcs, syma, ps);
    forall g: HalfShift
      ensures HalfAt(Executed(d, v, ps), g) == if Written(ws, g) then HalfAt(syma, g) else 0
    {
      ChainHalf(d, v, ps, syma, g);
      SameWritten(ws, ps, g);
    }
    SameHalves(Executed(d, v, ps), syma);
  }

  lemma SameWritten(ws: seq<Word>, ps: seq<Word>, g: HalfShift)
    requires |ws| == |ps| && forall i :: 0 <= i < |ws| ==> PlaceOf(ps[i]) == PlaceOf(ws[i])
    ensures Written(ps, g) <==> Written(ws, g)
  {
    hide PlaceOf;
    if i :| 0 <= i < |ws| && PlaceOf(ws[i]) == g { assert PlaceOf(ps[i]) == g; }
  }
}
