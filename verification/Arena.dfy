/**
 * The bump allocator with two watermarks: `brk` ends what is handed out,
 * `brkp` ends the pages that are accessible.
 */
module Arena {
  import opened Arith

  const PAGE: nat := 0x1000
  const SPACE: nat := 0x1_0000_0000_0000_0000

  function Wrap(x: int): nat {
    x % SPACE
  }

  predicate IsPow2(a: nat) {
    a == 1 || (a > 1 && a % 2 == 0 && IsPow2(a / 2))
  }

  /** ALIGN_UP: the next multiple, for alignments that are powers of two. */
  function AlignUp(x: nat, a: nat): (y: nat)
    requires a >= 1
  {
    Quot(x + (a - 1), a) * a
  }

  ghost predicate Aligned(x: nat, a: nat)
    requires a >= 1
  {
    Rem(x, a) == 0
  }

  lemma AlignUpIs(x: nat, a: nat)
    requires a >= 1
    ensures x <= AlignUp(x, a) < x + a && Aligned(AlignUp(x, a), a)
  {
    hide Quot, Rem;
    QuotRem(AlignUp(x, a), a, Quot(x + (a - 1), a), 0);
  }

  /** A block that was handed out. */
  datatype Block = Block(at: nat, size: nat, alignment: nat)

  ghost predicate Apart(a: Block, b: Block) {
    a.at + a.size <= b.at || b.at + b.size <= a.at
  }

  /** Blocks are aligned, lie between the limits, and do not overlap. */
  ghost predicate BlocksOk(blocks: seq<Block>, start: nat, brk: nat) {
    && (forall i :: 0 <= i < |blocks| ==> start <= blocks[i].at && blocks[i].at + blocks[i].size <= brk)
    && (forall i :: 0 <= i < |blocks| ==> blocks[i].alignment >= 0x40 && Aligned(blocks[i].at, blocks[i].alignment))
    && (forall i, j :: 0 <= i < j < |blocks| ==> Apart(blocks[i], blocks[j]))
  }

  lemma BlockAdded(blocks: seq<Block>, start: nat, brk: nat, b: Block)
    requires BlocksOk(blocks, start, brk) && start <= brk <= b.at && b.alignment >= 0x40 && Aligned(b.at, b.alignment)
    ensures BlocksOk(blocks + [b], start, b.at + b.size)
  {
    hide Aligned;
  }

  /** The two watermarks are less than a page apart. */
  ghost predicate Marks(start: nat, end: nat, brk: nat, brkp: nat) {
    && start <= brk <= brkp < brk + PAGE && brkp <= end <= SPACE - PAGE
    && brkp % PAGE == 0 && end % PAGE == 0
  }

  /** By how much the accessible part has to grow. */
  function Growth(brkp: nat, at: nat, size: nat): nat {
    Wrap(Pages(Wrap(size - (brkp - at))))
  }

  datatype Result = Ok(at: nat) | EINVAL | ENOMEM | EACCES

  class Arena {
    const start: nat
    const end: nat
    var brk: nat
    var brkp: nat
    ghost var blocks: seq<Block>

    ghost predicate Valid()
      reads this
    {
      Marks(start, end, brk, brkp) && BlocksOk(blocks, start, brk)
    }

    /** arena_init, once the address range is reserved. */
    constructor (base: nat, size: nat)
      requires base % PAGE == 0 && size % PAGE == 0 && base + size <= SPACE - PAGE
      ensures Valid() && start == base && end == base + size && brk == base && brkp == base && blocks == []
    {
      start, end, brk, brkp := base, base + size, base, base;
      blocks := [];
    }

    /** Where the next block of that alignment would begin. */
    function Next(alignment: nat): nat
      reads `brk
    {
      AlignUp(brk, if alignment < 0x40 then 0x40 else alignment)
    }

    ghost predicate Fits(size: nat, alignment: nat)
      reads this
    {
      Next(alignment) + size <= end
    }

    /** The block ends before the last page of the address space. */
    ghost predicate Sane(size: nat, alignment: nat)
      reads `brk
    {
      Next(alignment) + size + PAGE <= SPACE
    }

    /** The alignments that are taken: powers of two, or anything small. */
    predicate Alignable(alignment: nat) {
      alignment < 0x40 || IsPow2(alignment)
    }

    /**
     * arena_alloc; `granted` says whether the kernel makes the pages accessible.
     * The check against the end of the arena is written with brk, and still
     * refuses exactly the blocks that do not fit, unless the sums wrap around:
     * what counts is then where the block would end modulo the address space,
     * and a block that is handed out is never in the free part of the arena.
     */
    method Alloc(size: nat, alignment: nat, granted: bool) returns (r: Result)
      requires Valid() && size < SPACE && alignment < SPACE
      modifies this
      ensures r == EINVAL <==> !Alignable(alignment)
      ensures r == ENOMEM <==> Alignable(alignment) && !Accepted(old(brk), old(brkp), end, Wrap(old(Next(alignment)) + size))
      ensures r == EACCES <==>
        && Alignable(alignment) && Accepted(old(brk), old(brkp), end, Wrap(old(Next(alignment)) + size))
        && !granted && Wrap(old(Next(alignment)) + size) > old(brkp)
      ensures r.Ok? ==> r.at == Wrap(old(Next(alignment))) && brk == Wrap(r.at + size)
      ensures r.Ok? ==> (old(brk) <= r.at && r.at + size <= end <==> old(Sane(size, alignment)))
      ensures old(Sane(size, alignment)) && Alignable(alignment) ==> (r == ENOMEM <==> !old(Fits(size, alignment)))
      ensures !r.Ok? || old(Sane(size, alignment)) ==> Valid()
      ensures old(Sane(size, alignment)) && r.Ok? ==> r.at == old(Next(alignment)) && brk == r.at + size <= brkp && old(brkp) <= brkp
      ensures r.Ok? ==> blocks == old(blocks) + [Block(r.at, size, if alignment < 0x40 then 0x40 else alignment)]
      ensures !r.Ok? ==> blocks == old(blocks) && brk == old(brk) && brkp == old(brkp)
    {
      hide IsPow2, Wrap, Growth, AlignUp, Aligned, BlocksOk, Marks, Accepted;
      var al := if alignment < 0x40 then 0x40 else alignment;
      if alignment >= 0x40 && !IsPow2(alignment) {
        return EINVAL;
      }
      if Sane(size, alignment) {
        NoWraps(start, end, brk, brkp, al, size);
        AlignUpIs(brk, al);
        BlockAdded(blocks, start, brk, Block(AlignUp(brk, al), size, al));
      } else {
        Strays(start, end, brk, brkp, al, size);
      }
      var at := Wrap(AlignUp(brk, al));
      WrapAgain(AlignUp(brk, al), size);
      GuardIs(start, end, brk, brkp, at, size);
      if Wrap(at + size) <= brkp {
        blocks := blocks + [Block(at, size, al)];
        brk := Wrap(at + size);
        return Ok(at);
      }
      var newpgsz := Growth(brkp, at, size);
      if Wrap(brk + newpgsz) > end {
        return ENOMEM;
      }
      if !granted {
        return EACCES;
      }
      blocks := blocks + [Block(at, size, al)];
      brkp := Wrap(brkp + newpgsz);
      brk := Wrap(at + size);
      return Ok(at);
    }
  }

  lemma NoWrap(x: int)
    requires 0 <= x < SPACE
    ensures Wrap(x) == x
  {
  }

  /** ALIGN_UP to whole pages. */
  function Pages(x: nat): nat {
    (x + (PAGE - 1)) / PAGE * PAGE
  }

  /** The two watermarks are less than a page apart, so the check can use either. */
  lemma PagesFit(brk: nat, brkp: nat, end: nat, more: nat)
    requires brk <= brkp < brk + PAGE && brkp % PAGE == 0 && end % PAGE == 0 && brkp <= end
    ensures brk + Pages(more) > end <==> brkp + more > end
    ensures more <= Pages(more) < more + PAGE && (brkp + Pages(more)) % PAGE == 0
  {
    var p, e, k := brkp / PAGE, end / PAGE, (more + (PAGE - 1)) / PAGE;
    assert brkp == PAGE * p && end == PAGE * e && Pages(more) == PAGE * k;
    assert brkp + Pages(more) == PAGE * (p + k);
  }

  /**
   * Whether a block is accepted that would end at `t`, modulo the address space:
   * if `t` is in the arena; or if it is in the last page, and rounding up to
   * pages makes the sum zero.
   */
  predicate Accepted(brk: nat, brkp: nat, end: nat, t: nat) {
    t <= end || (t > SPACE - PAGE && brk == brkp)
  }

  lemma WrapAgain(x: nat, size: nat)
    ensures Wrap(x) < SPACE && Wrap(Wrap(x) + size) == Wrap(x + size)
  {
    assert x == SPACE * (x / SPACE) + Wrap(x);
  }

  lemma WrapMore(at: nat, size: nat, brkp: nat)
    requires at < SPACE && size < SPACE && brkp < Wrap(at + size)
    ensures Wrap(size - (brkp - at)) == Wrap(at + size) - brkp
  {
    if at + size < SPACE {
      NoWrap(at + size);
      NoWrap(at + size - brkp);
    } else {
      WrapIs(at + size);
      WrapIs(at + size - brkp);
    }
  }

  /** The two checks of the source, for any sums. */
  lemma GuardIs(start: nat, end: nat, brk: nat, brkp: nat, at: nat, size: nat)
    requires Marks(start, end, brk, brkp) && at < SPACE && size < SPACE
    ensures var t := Wrap(at + size);
      t <= brkp || Wrap(brk + Growth(brkp, at, size)) <= end <==> Accepted(brk, brkp, end, t)
  {
    var t := Wrap(at + size);
    if t > brkp {
      var m: nat := t - brkp;
      WrapMore(at, size, brkp);
      PagesFit(brk, brkp, end, m);
      hide Wrap, Pages;
      if t <= SPACE - PAGE {
        NoWrap(Pages(m));
        NoWrap(brk + Pages(m));
      } else {
        LastPage(brk, brkp, t);
      }
    }
  }

  /** Rounding up to the end of the address space. */
  lemma LastPage(brk: nat, brkp: nat, t: nat)
    requires brk <= brkp < brk + PAGE && brkp % PAGE == 0 && brkp < t && SPACE - PAGE < t < SPACE
    ensures Pages(t - brkp) == SPACE - brkp
    ensures Wrap(brk + Wrap(Pages(t - brkp))) == if brk == brkp then 0 else SPACE - (brkp - brk)
  {
    var p := brkp / PAGE;
    assert brkp == PAGE * p && SPACE == PAGE * (SPACE / PAGE);
    if brkp > 0 && brk < brkp { NoWrap(brk + (SPACE - brkp)); }
  }

  /** It does happen: in every fresh arena a request for all but one byte of the address space is accepted. */
  lemma PastTheEnd(start: nat, end: nat)
    requires Marks(start, end, start, start)
    ensures var at, size := AlignUp(start, 0x40), SPACE - 1;
      at == start && at + size + PAGE > SPACE && Accepted(start, start, end, Wrap(at + size))
  {
    QuotRem(start + 0x3f, 0x40, start / 0x40, 0x3f);
    if start > 0 { WrapIs(start + (SPACE - 1)); } else { NoWrap(SPACE - 1); }
  }

  /** The sums of the source as long as they do not wrap around. */
  lemma NoWraps(start: nat, end: nat, brk: nat, brkp: nat, al: nat, size: nat)
    requires al >= 1 && AlignUp(brk, al) + size + PAGE <= SPACE && Marks(start, end, brk, brkp)
    ensures var at := AlignUp(brk, al);
      && start <= brk <= at && brkp <= end && Wrap(at) == at && Wrap(at + size) == at + size
      && (at + size <= brkp ==> Marks(start, end, at + size, brkp))
      && (at + size > brkp ==> Grows(start, end, brk, brkp, at, size))
  {
    AlignUpIs(brk, al);
    var at := AlignUp(brk, al);
    hide Wrap, Growth, AlignUp, Aligned;
    NoWrap(at);
    NoWrap(at + size);
    if at + size > brkp { GrowsBy(start, end, brk, brkp, at, size); }
  }

  /** The accessible part ends behind the block, in the same page, unless the block does not fit. */
  ghost predicate Grows(start: nat, end: nat, brk: nat, brkp: nat, at: nat, size: nat) {
    && (Wrap(brk + Growth(brkp, at, size)) > end <==> at + size > end)
    && (at + size <= end ==> Marks(start, end, at + size, Wrap(brkp + Growth(brkp, at, size))))
    && (at + size <= end ==> Wrap(brkp + Growth(brkp, at, size)) > brkp)
    && (at + size <= end ==> at + size <= Wrap(brkp + Growth(brkp, at, size)))
  }

  lemma GrowsBy(start: nat, end: nat, brk: nat, brkp: nat, at: nat, size: nat)
    requires Marks(start, end, brk, brkp) && brk <= at && brkp < at + size && at + size + PAGE <= SPACE
    ensures Grows(start, end, brk, brkp, at, size)
  {
    hide Wrap, Pages;
    var more: nat := size - (brkp - at);
    PagesFit(brk, brkp, end, more);
    NoWrap(more);
    NoWrap(Pages(more));
    NoWrap(brk + Pages(more));
    NoWrap(brkp + Pages(more));
  }

  lemma WrapIs(x: int)
    requires SPACE <= x < 2 * SPACE
    ensures Wrap(x) == x - SPACE
  {
  }

  /** A block that does not end before the last page of the address space is not in the free part of any arena. */
  lemma Strays(start: nat, end: nat, brk: nat, brkp: nat, al: nat, size: nat)
    requires 1 <= al < SPACE && Marks(start, end, brk, brkp) && AlignUp(brk, al) + size + PAGE > SPACE
    ensures var at := Wrap(AlignUp(brk, al)); at < brk || at + size > end
  {
    AlignUpIs(brk, al);
    hide Wrap, AlignUp, Aligned;
    var up := AlignUp(brk, al);
    if up < SPACE { NoWrap(up); } else { WrapIs(up); }
  }
}
