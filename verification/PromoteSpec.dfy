/**
 * What ChangeCallConv may do to a function, instruction by instruction, and
 * the relation between the two functions that every step keeps.
 */
module PromoteSpec {
  import opened PromoteIR

  /** The fields, the size of the struct, the entry block, and the two decisions: does the struct pointer escape, are there calls. */
  datatype Ctx = Ctx(fields: seq<Field>, size: nat, entry: nat, escapes: bool, calls: bool)

  // --------------------------------------------------------- instructions

  predicate Writes(i: Inst) {
    i.Store? || i.Effect? || i.Helper? || i.OldCall? || i.NewCall?
  }

  predicate IsCallret(i: Inst) {
    i.OldCall? || i.OldLeave?
  }

  predicate Defines(i: Inst, d: nat) {
    (i.Load? || i.Compute? || i.Effect? || i.Helper?) && i.dst == d
  }

  ghost predicate NoWrite(code: seq<Inst>, lo: nat, hi: nat) {
    hi <= |code| && forall m :: lo <= m < hi ==> !Writes(code[m])
  }

  ghost predicate NoCallret(code: seq<Inst>, lo: nat, hi: nat) {
    hi <= |code| && forall m :: lo <= m < hi ==> !IsCallret(code[m])
  }

  /** No byte of a field is touched. */
  predicate Outside(fields: seq<Field>, off: nat, size: nat) {
    forall i :: 0 <= i < |fields| ==> Apart(fields[i], off, size)
  }

  predicate Apart(f: Field, off: nat, size: nat) {
    off + size <= f.off || f.off + f.size <= off || size == 0
  }

  /** Blocks as the lifter makes them: one call or return at most, nothing behind a return, values defined before use. */
  ghost predicate Original(size: nat, co: seq<Inst>) {
    && (forall j :: 0 <= j < |co| ==> InstOk(size, co[j]))
    && (forall j, k :: 0 <= j < k < |co| ==> !(IsCallret(co[j]) && IsCallret(co[k])))
    && (forall j :: 0 <= j < |co| - 1 ==> !co[j].OldLeave?)
    && (forall t, m, d: nat :: 0 <= t <= m < |co| && co[t].Store? && Defines(co[m], d) ==> co[t].src != Ssa(d))
  }

  predicate InstOk(size: nat, i: Inst) {
    match i
    case Load(_, off, n) => 0 < n && off + n <= size
    case Store(off, n, src) => 0 < n && off + n <= size && src.Ssa?
    case Compute(_, _, _) => true
    case Effect(_, _, _) => true
    case Helper(_, _, _) => true
    case OldCall => true
    case OldLeave(_) => true
    case _ => false
  }

  // -------------------------------------------------------- the conversion

  /** Store `t` of the block was folded into the call or return behind it, as the value of field `i`. */
  ghost predicate FoldedTo(x: Ctx, co: seq<Inst>, cn: seq<Inst>, t: nat, i: nat) {
    && t < |co| == |cn| && i < |x.fields| && co[t].Store? && cn[t].Nop?
    && co[t].off == x.fields[i].off && co[t].size == x.fields[i].size && co[t].src.Ssa?
  }

  /** A load was replaced by the parameter, or by the result of the call in front of it. */
  ghost predicate LoadFolded(x: Ctx, b: nat, co: seq<Inst>, j: nat, new_: Inst, i: nat) {
    && j < |co| && co[j].Load? && i < |x.fields| && co[j].off == x.fields[i].off && co[j].size == x.fields[i].size
    && (|| (new_ == Copy(co[j].dst, Param(i)) && b == x.entry && NoWrite(co, 0, j))
        || (new_ == Copy(co[j].dst, Result(b, i)) && exists k: nat :: k < j && co[k].OldCall? && NoWrite(co, k + 1, j)))
  }

  /** Between a folded store and its call or return: no read of the struct, and no other store to the field. */
  ghost predicate StoreFolded(x: Ctx, co: seq<Inst>, cn: seq<Inst>, j: nat) {
    && (exists i: nat :: FoldedTo(x, co, cn, j, i))
    && exists k: nat :: j < k < |co| && IsCallret(co[k]) && (forall m: nat :: j < m < k ==> Passable(co, cn, j, m))
  }

  ghost predicate Passable(co: seq<Inst>, cn: seq<Inst>, j: nat, m: nat)
    requires j < |co| && co[j].Store? && m < |co| == |cn|
  {
    !cn[m].Load? && !cn[m].Helper? && !(co[m].Store? && co[m].off == co[j].off)
  }

  function Missing(x: Ctx, b: nat, i: nat): Src {
    if x.escapes then Reload(i) else if !x.calls then Param(i) else Phi(b, i)
  }

  ghost predicate ValOk(x: Ctx, b: nat, co: seq<Inst>, cn: seq<Inst>, k: nat, i: nat, val: Src)
    requires k <= |co| == |cn|
  {
    || (exists t: nat :: t < k && FoldedTo(x, co, cn, t, i) && val == co[t].src)
    || (val == Missing(x, b, i) && forall t: nat :: t < k ==> !FoldedTo(x, co, cn, t, i))
  }

  ghost predicate ValsOk(x: Ctx, b: nat, co: seq<Inst>, cn: seq<Inst>, k: nat, vals: seq<Src>)
    requires k <= |co| == |cn|
  {
    |vals| == |x.fields| && forall i: nat :: i < |vals| ==> ValOk(x, b, co, cn, k, i, vals[i])
  }

  ghost predicate InstPromoted(x: Ctx, b: nat, co: seq<Inst>, cn: seq<Inst>, j: nat)
    requires j < |co| == |cn|
  {
    match co[j]
    case Load(_, _, _) => cn[j] == co[j] || exists i: nat :: LoadFolded(x, b, co, j, cn[j], i)
    case Store(_, _, _) => cn[j] == co[j] || (cn[j] == Nop && StoreFolded(x, co, cn, j))
    case OldCall => cn[j].NewCall? && cn[j].spill == x.escapes && ValsOk(x, b, co, cn, j, cn[j].vals)
    case OldLeave(tail) => cn[j].NewLeave? && cn[j].tail == tail && ValsOk(x, b, co, cn, j, cn[j].vals)
    case _ => cn[j] == co[j]
  }

  /** Without escape nothing that is left touches a field. */
  predicate Harmless(fields: seq<Field>, i: Inst) {
    match i
    case Load(_, off, size) => Outside(fields, off, size)
    case Store(off, size, _) => Outside(fields, off, size)
    case Helper(_, _, _) => false
    case _ => true
  }

  ghost predicate BlockPromoted(x: Ctx, b: nat, co: seq<Inst>, cn: seq<Inst>) {
    && |co| == |cn|
    && (forall j: nat :: j < |co| ==> InstPromoted(x, b, co, cn, j))
    && (!x.escapes ==> forall j :: 0 <= j < |cn| ==> Harmless(x.fields, cn[j]))
  }

  /** A folded store is followed, before the call or return, by a store to part of the same field. */
  ghost predicate Hazard(x: Ctx, co: seq<Inst>, cn: seq<Inst>, t: nat, m: nat, i: nat) {
    && t < m < |co| && FoldedTo(x, co, cn, t, i) && NoCallret(co, t, m)
    && co[m].Store? && !cn[m].Nop? && !Apart(x.fields[i], co[m].off, co[m].size)
  }

  /**
   * The same, on the original block alone: a store to field `i`, a call or return
   * at `k` with no read of the struct in between, and in between a store that
   * touches the field without being one to the start of a field.
   */
  ghost predicate Torn(fields: seq<Field>, co: seq<Inst>, t: nat, m: nat, k: nat, i: nat) {
    && t < m < k < |co| && IsCallret(co[k]) && i < |fields| && co[t].Store? && co[t].off == fields[i].off
    && (forall j :: t < j < k ==> !co[j].Load? && !co[j].Helper?)
    && co[m].Store? && !StartsField(fields, co[m].off) && !Apart(fields[i], co[m].off, co[m].size)
  }

  predicate StartsField(fields: seq<Field>, off: nat) {
    exists i :: 0 <= i < |fields| && fields[i].off == off
  }

  /** No field of the block is torn. */
  ghost predicate Whole(fields: seq<Field>, co: seq<Inst>) {
    forall t: nat, m: nat, k: nat, i: nat :: !Torn(fields, co, t, m, k, i)
  }

  ghost predicate NoHazard(x: Ctx, co: seq<Inst>, cn: seq<Inst>) {
    forall t: nat, m: nat, i: nat :: !Hazard(x, co, cn, t, m, i)
  }

  // ----------------------------------------------------------- the relation

  /** Same values, same surroundings, same observations. */
  ghost predicate Core<W>(so: State<W>, sn: State<W>) {
    so.env == sn.env && so.world == sn.world && so.seen == sn.seen
  }

  ghost predicate RestSame(fields: seq<Field>, m: Value, m': Value) {
    |m| == |m'| && forall a :: 0 <= a < |m| && Owner(fields, a) < 0 ==> m[a] == m'[a]
  }

  ghost predicate Holds(m: Value, f: Field, v: Value) {
    f.off + f.size <= |m| && forall a :: f.off <= a < f.off + f.size ==> m[a] == Byte(v, a - f.off)
  }

  /** The last of the first `j` instructions that was folded into field `i`, or -1. */
  ghost function LastFold(x: Ctx, co: seq<Inst>, cn: seq<Inst>, j: nat, i: nat): (t: int)
    ensures -1 <= t < j && (t >= 0 ==> FoldedTo(x, co, cn, t, i))
    ensures forall u: nat :: t < u < j ==> !FoldedTo(x, co, cn, u, i)
  {
    if j == 0 then -1 else if FoldedTo(x, co, cn, j - 1, i) then j - 1 else LastFold(x, co, cn, j - 1, i)
  }

  /**
   * The value that the converted function has for field `i` in front of instruction `j`.
   * `org` are the values at the start of the block.
   */
  ghost function Current<W>(x: Ctx, b: nat, co: seq<Inst>, cn: seq<Inst>, j: nat, sn: State<W>, org: seq<Value>, i: nat): Value
    requires i < |x.fields| == |org| && j <= |co|
  {
    var t := LastFold(x, co, cn, j, i);
    if NoCallret(co, 0, j) && t >= 0 then Named(sn.env, co[t].src.name)
    else if x.escapes then Read(sn.mem, x.fields[i].off, x.fields[i].size)
    else if NoCallret(co, 0, j) then org[i]
    else Eval(x.fields, sn, Result(b, i))
  }

  ghost predicate Slot<W>(x: Ctx, b: nat, co: seq<Inst>, cn: seq<Inst>, j: nat, so: State<W>, sn: State<W>, org: seq<Value>, i: nat)
    requires i < |x.fields| == |org| && j <= |co|
  {
    Holds(so.mem, x.fields[i], Current(x, b, co, cn, j, sn, org, i))
  }

  ghost predicate MemRel<W>(x: Ctx, b: nat, co: seq<Inst>, cn: seq<Inst>, j: nat, so: State<W>, sn: State<W>, org: seq<Value>)
    requires |x.fields| == |org| && j <= |co|
  {
    && |so.mem| == x.size && RestSame(x.fields, so.mem, sn.mem)
    && forall i: nat :: i < |x.fields| ==> Slot(x, b, co, cn, j, so, sn, org, i)
  }

  /** As long as nothing was written, the fields are as they were handed over. */
  ghost predicate Fresh<W>(x: Ctx, b: nat, co: seq<Inst>, j: nat, so: State<W>, sn: State<W>) {
    && (b == x.entry && NoWrite(co, 0, j) ==> sn.params == FieldValues(x.fields, so.mem))
    && (forall k: nat :: k < j && k < |co| && co[k].OldCall? && NoWrite(co, k + 1, j) ==>
          b in sn.results && sn.results[b] == FieldValues(x.fields, so.mem))
  }

  /** What does not change inside a block. */
  ghost predicate Given<W>(x: Ctx, b: nat, sn: State<W>, org: seq<Value>) {
    && |org| == |x.fields|
    && (!x.escapes && x.calls ==> forall i: nat :: i < |org| && (b, i) in sn.phis ==> sn.phis[(b, i)] == org[i])
    && (!x.escapes && !x.calls ==> sn.params == org)
  }

  /** The PHIs that a call or return refers to exist. */
  ghost predicate PhisReady<W>(x: Ctx, b: nat, cn: seq<Inst>, sn: State<W>) {
    forall k, i: nat :: 0 <= k < |cn| && (cn[k].NewCall? || cn[k].NewLeave?) && i < |cn[k].vals| && cn[k].vals[i] == Phi(b, i) ==>
      (b, i) in sn.phis
  }

  ghost predicate Rel<W>(x: Ctx, b: nat, co: seq<Inst>, cn: seq<Inst>, j: nat, so: State<W>, sn: State<W>, org: seq<Value>)
    requires j <= |co|
  {
    && Core(so, sn) && Given(x, b, sn, org) && PhisReady(x, b, cn, sn)
    && MemRel(x, b, co, cn, j, so, sn, org) && Fresh(x, b, co, j, so, sn)
  }

  // ---------------------------------------------------------- whole functions

  predicate HasCall(co: seq<Inst>) {
    exists k :: 0 <= k < |co| && co[k].OldCall?
  }

  predicate HasLeave(co: seq<Inst>) {
    exists k :: 0 <= k < |co| && co[k].OldLeave?
  }

  /** A function as the lifter makes it; nothing jumps to its entry block. */
  ghost predicate OriginalFn(size: nat, f: Fn) {
    && |f.code| == |f.succ| == |f.pred| && f.entry < |f.code| && f.incoming == map[] && !f.spill
    && (forall b: nat :: b < |f.code| ==> Original(size, f.code[b]))
    && (forall p: nat, b: nat :: EdgeOk(f, p, b))
    && (forall b: nat :: b < |f.code| && HasLeave(f.code[b]) ==> f.succ[b] == [])
  }

  ghost predicate EdgeOk(f: Fn, p: nat, b: nat)
    requires |f.code| == |f.succ| == |f.pred|
  {
    && (p < |f.code| && b in f.succ[p] ==> b < |f.code| && b != f.entry && p in f.pred[b])
    && (b < |f.code| && p in f.pred[b] ==> p < |f.code| && b in f.succ[p])
  }

  /** What a PHI of field `i` receives from block `p`: the value that the last producer there made, or that block's PHI. */
  function From(f: Fn, p: nat, i: nat): Src
    requires p < |f.code|
  {
    if p == f.entry then Param(i) else if HasCall(f.code[p]) then Result(p, i) else Phi(p, i)
  }

  ghost predicate Edge(f: Fn, incoming: map<(nat, nat), seq<(nat, Src)>>, p: nat, i: nat, e: (nat, Src)) {
    p < |f.code| && e == (p, From(f, p, i)) && (e.1.Phi? ==> (p, i) in incoming)
  }

  /** Each PHI has one value per incoming edge, in order. */
  ghost predicate Wired(f: Fn, incoming: map<(nat, nat), seq<(nat, Src)>>, b: nat, i: nat)
    requires (b, i) in incoming && |f.pred| == |f.code|
  {
    && b < |f.code| && |incoming[(b, i)]| == |f.pred[b]|
    && forall y :: 0 <= y < |f.pred[b]| ==> Edge(f, incoming, f.pred[b][y], i, incoming[(b, i)][y])
  }

  ghost predicate PhisExist(f: Fn, g: Fn, b: nat)
    requires b < |g.code|
  {
    var cn := g.code[b];
    forall k, i: nat :: 0 <= k < |cn| && (cn[k].NewCall? || cn[k].NewLeave?) && i < |cn[k].vals| && cn[k].vals[i] == Phi(b, i) ==>
      b != f.entry && (b, i) in g.incoming
  }

  /** The converted function `g` of `f`. */
  ghost predicate Promoted(x: Ctx, f: Fn, g: Fn) {
    && FieldsOk(x.fields, x.size) && OriginalFn(x.size, f) && x.entry == f.entry == g.entry
    && g.succ == f.succ && g.pred == f.pred && |g.code| == |f.code| && g.spill == x.escapes
    && (forall b: nat :: b < |f.code| ==> BlockPromoted(x, b, f.code[b], g.code[b]) && PhisExist(f, g, b))
    && (forall b: nat, i: nat :: (b, i) in g.incoming ==> !x.escapes && x.calls && Wired(f, g.incoming, b, i))
    && (!x.calls ==> forall b: nat :: b < |f.code| ==> !HasCall(f.code[b]))
    && (!x.escapes ==> !HasCall(f.code[f.entry]))
  }
}
