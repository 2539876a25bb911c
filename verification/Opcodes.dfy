/**
 * Opcode specifications, their translation to index lists, and what they say
 * about the bytes and prefixes that the decoder has in front of it.
 */
module Opcodes {
  import opened Options
  import opened OpcodeTrie

  datatype Prefix = NP | P66 | PF2 | PF3 | NFx
  datatype Bit = Zero | One | Ignored
  datatype ModForm = RegOnly | MemOnly | RegOrMem

  datatype Opcode = Opcode(
    prefix: Option<Prefix>,
    escape: nat,                            // none, 0f, 0f38, 0f3a
    opc: nat,
    extended: bool,                         // register number in the opcode byte
    modreg: Option<(Option<nat>, ModForm)>, // /digit and the ModRM.mod form
    opcext: Option<nat>,                    // complete ModRM byte c0-ff
    vex: bool,
    vexl: Option<Bit>,
    rexw: Option<Bit>)

  predicate ValidOpcode(o: Opcode) {
    && o.escape < 4 && o.opc < 256
    && (o.extended ==> o.opc <= 0xf8)
    && (o.modreg.Some? && o.modreg.value.0.Some? ==> o.modreg.value.0.value < 8)
    && (o.opcext.Some? ==> 0xc0 <= o.opcext.value < 0x100)
  }

  function PrefixIndices(p: Option<Prefix>): Option<seq<nat>> {
    match p
    case None => None
    case Some(NFx) => Some([0, 1])
    case Some(NP) => Some([0])
    case Some(P66) => Some([1])
    case Some(PF3) => Some([2])
    case Some(PF2) => Some([3])
  }

  function ModHalves(form: ModForm): seq<nat> {
    match form
    case MemOnly => [0]
    case RegOnly => [8]
    case RegOrMem => [0, 8]
  }

  function RegDigits(reg: Option<nat>): seq<nat> {
    if reg.Some? then [reg.value] else seq(8, i requires i >= 0 => i)
  }

  function ModRegIndices(reg: Option<nat>, form: ModForm): seq<nat> {
    Sums(ModHalves(form), RegDigits(reg))
  }

  function BitIndices(b: Option<Bit>, weight: nat): seq<nat> {
    match b
    case Some(Zero) => [0]
    case Some(One) => [weight]
    case _ => [0, weight]
  }

  predicate Fixed(b: Option<Bit>) {
    b == Some(Zero) || b == Some(One)
  }

  function Shifted(x: nat, ys: seq<nat>): (r: seq<nat>)
    ensures |r| == |ys| && forall i :: 0 <= i < |r| ==> r[i] == x + ys[i]
  {
    seq(|ys|, i requires 0 <= i < |ys| => x + ys[i])
  }

  /** All sums of one element of each list. */
  function Sums(xs: seq<nat>, ys: seq<nat>): seq<nat> {
    if xs == [] then [] else Shifted(xs[0], ys) + Sums(xs[1..], ys)
  }

  lemma SumsShort(xs: seq<nat>, ys: seq<nat>)
    requires 1 <= |xs| <= 2
    ensures |xs| == 1 ==> Sums(xs, ys) == Shifted(xs[0], ys)
    ensures |xs| == 2 ==> Sums(xs, ys) == Shifted(xs[0], ys) + Shifted(xs[1], ys)
  {
    assert Sums(xs[1..], ys) == if |xs| == 1 then [] else Shifted(xs[1], ys) + Sums(xs[2..], ys);
  }

  /** The index lists of an opcode, in the order of the kinds; None where any index will do. */
  function TransformOpcode(o: Opcode): seq<Option<seq<nat>>>
    requires ValidOpcode(o)
  {
    [ Some([o.escape + if o.vex then 4 else 0]),
      Some(seq(if o.extended then 8 else 1, i requires i >= 0 => o.opc + i)),
      PrefixIndices(o.prefix),
      if o.opcext.Some? then Some([(o.opcext.value - 0xc0) / 8 + 8])
      else if o.modreg.Some? then Some(ModRegIndices(o.modreg.value.0, o.modreg.value.1)) else None,
      if o.opcext.Some? then Some([o.opcext.value % 8]) else None,
      if Fixed(o.vexl) || Fixed(o.rexw) then Some(Sums(BitIndices(o.rexw, 1), BitIndices(o.vexl, 2))) else None
    ]
  }

  /** What the decoder has collected when it starts to walk the table. */
  datatype Input = Input(escape: nat, vex: bool, opcode: nat, rep: nat, opsize: bool, modrm: nat, w: bool, l: bool)

  /** prefix_rep is 0, 2 (f3) or 3 (f2). */
  predicate ValidInput(x: Input) {
    x.escape < 4 && x.opcode < 256 && x.rep in {0, 2, 3} && x.modrm < 256
  }

  function PrefixIndex(x: Input): nat {
    if x.rep != 0 then x.rep else if x.opsize then 1 else 0
  }

  function ModIndex(modrm: nat): nat {
    (modrm / 8) % 8 + if modrm / 64 == 3 then 8 else 0
  }

  function VexIndex(x: Input): nat {
    (if x.w then 1 else 0) + (if x.l then 2 else 0)
  }

  /** The index vector that the decoder uses for an input. */
  function VectorOf(x: Input): seq<nat> {
    [x.escape + if x.vex then 4 else 0, x.opcode, PrefixIndex(x), ModIndex(x.modrm), x.modrm % 8, VexIndex(x)]
  }

  ghost predicate DescribesPrefix(p: Option<Prefix>, x: Input) {
    match p
    case None => true
    case Some(NP) => x.rep == 0 && !x.opsize
    case Some(P66) => x.rep == 0 && x.opsize
    case Some(PF3) => x.rep == 2
    case Some(PF2) => x.rep == 3
    case Some(NFx) => x.rep == 0
  }

  ghost predicate DescribesModRM(o: Opcode, modrm: nat) {
    if o.opcext.Some? then modrm == o.opcext.value
    else if o.modreg.Some? then
      && (o.modreg.value.0.Some? ==> (modrm / 8) % 8 == o.modreg.value.0.value)
      && (o.modreg.value.1 == RegOnly ==> modrm >= 0xc0)
      && (o.modreg.value.1 == MemOnly ==> modrm < 0xc0)
    else true
  }

  /** An opcode specification read as a condition on the input. */
  ghost predicate Describes(o: Opcode, x: Input) {
    && x.escape == o.escape && x.vex == o.vex
    && (if o.extended then o.opc <= x.opcode < o.opc + 8 else x.opcode == o.opc)
    && DescribesPrefix(o.prefix, x)
    && DescribesModRM(o, x.modrm)
    && (Fixed(o.rexw) ==> x.w == (o.rexw == Some(One)))
    && (Fixed(o.vexl) ==> x.l == (o.vexl == Some(One)))
  }

  lemma VectorOfValid(x: Input)
    requires ValidInput(x)
    ensures IsVector(VectorOf(x))
  {
    var v := VectorOf(x);
    assert v[ROOT] < 8 && v[TABLE256] < 256 && v[PREFIX] < 4 && v[TABLE16] < 16 && v[TABLE8E] < 8 && v[VEX] < 4;
    forall k: Kind ensures v[k] < TableLength(k) {
      assert k == 0 || k == 1 || k == 2 || k == 3 || k == 4 || k == 5;
    }
  }

  lemma ModRegMember(reg: Option<nat>, form: ModForm, x: nat)
    requires reg.Some? ==> reg.value < 8
    ensures x in ModRegIndices(reg, form) <==>
      (x < 16 && (reg.Some? ==> x % 8 == reg.value) && (form == RegOnly ==> x >= 8) && (form == MemOnly ==> x < 8))
  {
    var digits, r := RegDigits(reg), ModRegIndices(reg, form);
    SumsShort(ModHalves(form), digits);
    hide Sums;
    if x < 16 && (reg.Some? ==> x % 8 == reg.value) && (form == RegOnly ==> x >= 8) && (form == MemOnly ==> x < 8) {
      var i := if reg.Some? then 0 else x % 8;
      assert r[if form == RegOrMem && x >= 8 then |digits| + i else i] == x;
    }
  }

  lemma ModRegShape(reg: Option<nat>, form: ModForm)
    requires reg.Some? ==> reg.value < 8
    ensures ValidElem(Some(ModRegIndices(reg, form)), TABLE16)
  {
    SumsShort(ModHalves(form), RegDigits(reg));
  }

  /** The VEX index lists written out. */
  function VexList(w: Option<Bit>, l: Option<Bit>): seq<nat> {
    if w == Some(Zero) then (if l == Some(Zero) then [0] else if l == Some(One) then [2] else [0, 2])
    else if w == Some(One) then (if l == Some(Zero) then [1] else if l == Some(One) then [3] else [1, 3])
    else if l == Some(Zero) then [0, 1] else if l == Some(One) then [2, 3] else [0, 2, 1, 3]
  }

  lemma ShiftedShort(x: nat, ys: seq<nat>)
    requires 1 <= |ys| <= 2
    ensures Shifted(x, ys) == if |ys| == 1 then [x + ys[0]] else [x + ys[0], x + ys[1]]
  {
  }

  lemma VexRow(x: nat, l: Option<Bit>)
    ensures Shifted(x, BitIndices(l, 2)) == if l == Some(Zero) then [x] else if l == Some(One) then [x + 2] else [x, x + 2]
  {
    ShiftedShort(x, BitIndices(l, 2));
    hide Shifted;
  }

  lemma VexSums(w: Option<Bit>, l: Option<Bit>)
    ensures Sums(BitIndices(w, 1), BitIndices(l, 2)) == VexList(w, l)
  {
    var ls := BitIndices(l, 2);
    SumsShort(BitIndices(w, 1), ls);
    VexRow(0, l);
    VexRow(1, l);
    hide Sums, Shifted;
    assert Sums(BitIndices(w, 1), ls) ==
      if w == Some(Zero) then Shifted(0, ls) else if w == Some(One) then Shifted(1, ls) else Shifted(0, ls) + Shifted(1, ls);
    hide BitIndices;
  }

  lemma VexMember(w: Option<Bit>, l: Option<Bit>, x: nat)
    ensures x in Sums(BitIndices(w, 1), BitIndices(l, 2)) <==>
      (x < 4 && (Fixed(w) ==> (x % 2 == 1) == (w == Some(One))) && (Fixed(l) ==> (x / 2 == 1) == (l == Some(One))))
  {
    VexSums(w, l);
  }

  lemma VexShape(w: Option<Bit>, l: Option<Bit>)
    ensures ValidElem(Some(Sums(BitIndices(w, 1), BitIndices(l, 2))), VEX)
  {
    VexSums(w, l);
    var r := VexList(w, l);
    assert |r| == 1 || |r| == 2 || |r| == 4;
    assert r[0] < 4 && (|r| >= 2 ==> r[1] < 4 && r[0] != r[1]);
    assert |r| == 4 ==> r == [0, 2, 1, 3];
  }

  /** Every well-formed specification yields index lists that add_opcode can use. */
  lemma TransformValid(o: Opcode)
    requires ValidOpcode(o)
    ensures ValidElems(TransformOpcode(o))
  {
    var e := TransformOpcode(o);
    if o.modreg.Some? { ModRegShape(o.modreg.value.0, o.modreg.value.1); }
    if Fixed(o.rexw) || Fixed(o.vexl) { VexShape(o.rexw, o.vexl); }
    hide Sums, ModRegIndices;
    forall k: Kind ensures ValidElem(e[k], k) {
      assert k == 0 || k == 1 || k == 2 || k == 3 || k == 4 || k == 5;
    }
  }

  lemma ByteMatches(o: Opcode, b: nat)
    requires ValidOpcode(o)
    ensures ElemMatches(TransformOpcode(o)[1], b) <==> if o.extended then o.opc <= b < o.opc + 8 else b == o.opc
  {
    var t := TransformOpcode(o)[1].value;
    if o.extended && o.opc <= b < o.opc + 8 { assert t[b - o.opc] == b; }
    if !o.extended && b == o.opc { assert t[0] == b; }
  }

  lemma ModMatches(o: Opcode, m: nat)
    requires ValidOpcode(o) && m < 256
    ensures var e := TransformOpcode(o);
      ElemMatches(e[3], ModIndex(m)) && ElemMatches(e[4], m % 8) <==> DescribesModRM(o, m)
  {
    if o.opcext.None? && o.modreg.Some? {
      ModRegMember(o.modreg.value.0, o.modreg.value.1, ModIndex(m));
    }
  }

  lemma VexMatches(o: Opcode, x: Input)
    requires ValidOpcode(o)
    ensures ElemMatches(TransformOpcode(o)[5], VexIndex(x)) <==>
      (Fixed(o.rexw) ==> x.w == (o.rexw == Some(One))) && (Fixed(o.vexl) ==> x.l == (o.vexl == Some(One)))
  {
    VexMember(o.rexw, o.vexl, VexIndex(x));
  }

  /** The index lists accept exactly the inputs that the specification describes. */
  lemma TransformMatches(o: Opcode, x: Input)
    requires ValidOpcode(o) && ValidInput(x)
    ensures MatchesUpTo(TransformOpcode(o), VectorOf(x), 6) <==> Describes(o, x)
  {
    var e, v := TransformOpcode(o), VectorOf(x);
    MatchesAll(e, v);
    EscapeMatches(o, x);
    ByteMatches(o, x.opcode);
    PrefixMatches(o, x);
    ModMatches(o, x.modrm);
    VexMatches(o, x);
    hide MatchesUpTo, ElemMatches, TransformOpcode, DescribesPrefix, DescribesModRM;
  }

  lemma MatchesAll(e: seq<Option<seq<nat>>>, v: seq<nat>)
    requires |e| == 6 && |v| == 6
    ensures MatchesUpTo(e, v, 6) <==> (ElemMatches(e[0], v[0]) && ElemMatches(e[1], v[1]) && ElemMatches(e[2], v[2])
                                    && ElemMatches(e[3], v[3]) && ElemMatches(e[4], v[4]) && ElemMatches(e[5], v[5]))
  {
    hide ElemMatches;
    if ElemMatches(e[0], v[0]) && ElemMatches(e[1], v[1]) && ElemMatches(e[2], v[2])
      && ElemMatches(e[3], v[3]) && ElemMatches(e[4], v[4]) && ElemMatches(e[5], v[5]) {
      forall k: Kind | k < 6 ensures ElemMatches(e[k], v[k]) {
        assert k == 0 || k == 1 || k == 2 || k == 3 || k == 4 || k == 5;
      }
    }
  }

  lemma EscapeMatches(o: Opcode, x: Input)
    requires ValidOpcode(o) && ValidInput(x)
    ensures ElemMatches(TransformOpcode(o)[0], VectorOf(x)[0]) <==> x.escape == o.escape && x.vex == o.vex
  {
  }

  lemma PrefixMatches(o: Opcode, x: Input)
    requires ValidOpcode(o) && ValidInput(x)
    ensures ElemMatches(TransformOpcode(o)[2], PrefixIndex(x)) <==> DescribesPrefix(o.prefix, x)
  {
  }
}
