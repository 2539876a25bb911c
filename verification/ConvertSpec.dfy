/**
 * What the phases of ChangeCallConv do to a block: replacing loads, looking
 * for escapes, folding stores, and rewriting the call or return.
 */
module ConvertSpec {
  import opened Options
  import opened PromoteIR
  import opened PromoteSpec

  /** The field that starts at an offset, or -1. */
  ghost function StartOf(fields: seq<Field>, off: nat): int {
    if exists i :: 0 <= i < |fields| && fields[i].off == off then var i :| 0 <= i < |fields| && fields[i].off == off; i else -1
  }

  lemma StartIs(fields: seq<Field>, n: nat, i: nat)
    requires FieldsOk(fields, n) && i < |fields|
    ensures StartOf(fields, fields[i].off) == i
  {
  }

  // ----------------------------------------------------------------- loads

  ghost predicate AtField(fields: seq<Field>, inst: Inst) {
    (inst.Load? || inst.Store?) && StartOf(fields, inst.off) >= 0
  }

  /** An access to a field with another size than the field has; LLVM has no cast for that. */
  ghost predicate Misfit(fields: seq<Field>, inst: Inst) {
    AtField(fields, inst) && StartOf(fields, inst.off) < |fields| && inst.size != fields[StartOf(fields, inst.off)].size
  }

  ghost predicate InReach(c: seq<Inst>, start: nat, j: nat) {
    start <= j && NoWrite(c, start, j)
  }

  /** One instruction after FoldLoads from `start`. */
  ghost predicate LoadDone(fields: seq<Field>, b: nat, c: seq<Inst>, start: nat, call: bool, j: nat, inst: Inst)
    requires j < |c|
  {
    if InReach(c, start, j) && c[j].Load? && AtField(fields, c[j]) then
      var i := StartOf(fields, c[j].off);
      0 <= i < |fields| && c[j].size == fields[i].size && inst == Copy(c[j].dst, if call then Result(b, i) else Param(i))
    else inst == c[j]
  }

  /** Loads that are known: from the entry or from a call on, before anything is written. */
  ghost predicate Known(x: Ctx, b: nat, co: seq<Inst>, j: nat)
    requires j < |co|
  {
    && co[j].Load? && AtField(x.fields, co[j])
    && ((b == x.entry && NoWrite(co, 0, j)) || exists k: nat :: k < j && co[k].OldCall? && NoWrite(co, k + 1, j))
  }

  ghost predicate KnownDone(x: Ctx, b: nat, co: seq<Inst>, c1: seq<Inst>, j: nat)
    requires j < |co| == |c1|
  {
    if Known(x, b, co, j) then exists i: nat :: LoadFolded(x, b, co, j, c1[j], i) else c1[j] == co[j]
  }

  ghost predicate LoadsDone(x: Ctx, b: nat, co: seq<Inst>, c1: seq<Inst>) {
    |c1| == |co| && forall j: nat :: j < |co| ==> KnownDone(x, b, co, c1, j)
  }

  // --------------------------------------------------------------- escapes

  /** After the loads are folded: a remaining access that is not exactly one field, or a use of the struct pointer itself. */
  ghost predicate Escaping(fields: seq<Field>, inst: Inst) {
    match inst
    case Load(_, off, size) => !Outside(fields, off, size)
    case Store(off, size, _) => if AtField(fields, inst) then Misfit(fields, inst) else !Outside(fields, off, size)
    case Helper(_, _, _) => true
    case _ => false
  }

  // ---------------------------------------------------------------- stores

  /** From store `j` to the call or return at `k` nothing reads the struct. */
  ghost predicate Foldable(fields: seq<Field>, c: seq<Inst>, j: nat, k: nat) {
    && j < k <= |c| && c[j].Store? && AtField(fields, c[j])
    && forall m :: j < m < k ==> !c[m].Load? && !c[m].Helper?
  }

  ghost predicate StoreFor(fields: seq<Field>, c: seq<Inst>, j: nat, k: nat, i: nat) {
    Foldable(fields, c, j, k) && i < |fields| && c[j].off == fields[i].off
  }

  /** The folded code and values, once the instructions from `from` on have been looked at. */
  ghost predicate FoldedFrom(fields: seq<Field>, c: seq<Inst>, c': seq<Inst>, from: nat, k: nat, vals: seq<Option<Src>>) {
    && |c'| == |c| && |vals| == |fields|
    && (forall j: nat :: j < |c| ==> c'[j] == if from <= j && Foldable(fields, c, j, k) then Nop else c[j])
    && (forall j: nat, i: nat :: from <= j && StoreFor(fields, c, j, k, i) ==> c[j].size == fields[i].size && vals[i] == Some(c[j].src))
    && (forall i: nat :: i < |fields| && vals[i].Some? ==>
          exists j: nat :: from <= j && StoreFor(fields, c, j, k, i) && vals[i] == Some(c[j].src))
    && (forall j: nat, j': nat, i: nat :: from <= j < j' ==> !(StoreFor(fields, c, j, k, i) && StoreFor(fields, c, j', k, i)))
  }

  ghost predicate StoresDone(fields: seq<Field>, c1: seq<Inst>, c2: seq<Inst>, k: nat, vals: seq<Option<Src>>) {
    FoldedFrom(fields, c1, c2, 0, k, vals)
  }

  /** The positions of the stores that are taken out of block `b`. */
  ghost function Taken(fields: seq<Field>, b: nat, c: seq<Inst>, from: nat, k: nat): set<(nat, nat)> {
    set m: nat | from <= m < k && Foldable(fields, c, m, k) :: (b, m)
  }

  lemma FoldStep(fields: seq<Field>, n: nat, b: nat, c: seq<Inst>, c': seq<Inst>, j: nat, k: nat, vals: seq<Option<Src>>, i: nat)
    requires FieldsOk(fields, n) && FoldedFrom(fields, c, c', j + 1, k, vals) && StoreFor(fields, c, j, k, i)
    requires c[j].size == fields[i].size && vals[i].None?
    ensures Taken(fields, b, c, j, k) == Taken(fields, b, c, j + 1, k) + {(b, j)}
    ensures FoldedFrom(fields, c, c'[j := Nop], j, k, vals[i := Some(c[j].src)])
  {
    var vals' := vals[i := Some(c[j].src)];
    forall j': nat, i': nat | j <= j' && StoreFor(fields, c, j', k, i')
      ensures c[j'].size == fields[i'].size && vals'[i'] == Some(c[j'].src)
    {
      StartIs(fields, n, i);
      StartIs(fields, n, i');
    }
    forall i': nat | i' < |fields| && vals'[i'].Some?
      ensures exists j': nat :: j <= j' && StoreFor(fields, c, j', k, i') && vals'[i'] == Some(c[j'].src)
    {
      if i' != i {
        var j': nat :| j + 1 <= j' && StoreFor(fields, c, j', k, i') && vals[i'] == Some(c[j'].src);
      }
    }
  }

  lemma FoldSkip(fields: seq<Field>, b: nat, c: seq<Inst>, c': seq<Inst>, from: nat, j: nat, k: nat, vals: seq<Option<Src>>)
    requires FoldedFrom(fields, c, c', j, k, vals) && from <= j && forall m: nat :: from <= m < j ==> !Foldable(fields, c, m, k)
    ensures FoldedFrom(fields, c, c', from, k, vals) && Taken(fields, b, c, from, k) == Taken(fields, b, c, j, k)
  {
    forall i: nat | i < |fields| && vals[i].Some?
      ensures exists m: nat :: from <= m && StoreFor(fields, c, m, k, i) && vals[i] == Some(c[m].src)
    {
      var m: nat :| j <= m && StoreFor(fields, c, m, k, i) && vals[i] == Some(c[m].src);
    }
  }

  /** A store that cannot be folded: it has another size than the field, or the field has a second such store. */
  ghost predicate Clash(fields: seq<Field>, c: seq<Inst>, t: nat, k: nat, i: nat) {
    && StoreFor(fields, c, t, k, i)
    && (c[t].size != fields[i].size || exists u: nat :: u != t && StoreFor(fields, c, u, k, i))
  }

  ghost predicate StoreStops(fields: seq<Field>, c: seq<Inst>, k: nat) {
    exists t: nat, i: nat :: Clash(fields, c, t, k, i)
  }

  lemma IsStoreFor(fields: seq<Field>, c: seq<Inst>, j: nat, k: nat, i: nat)
    requires j < k <= |c| && c[j].Store? && StartOf(fields, c[j].off) == i < |fields| && c[j].off == fields[i].off
    requires forall m :: j < m < k ==> !c[m].Load? && !c[m].Helper?
    ensures StoreFor(fields, c, j, k, i)
  {
  }

  lemma NotFoldable(fields: seq<Field>, c: seq<Inst>, j: nat, k: nat)
    requires j < k <= |c| && (c[j].Store? ==> StartOf(fields, c[j].off) < 0)
    ensures !Foldable(fields, c, j, k)
    ensures c[j].Load? || c[j].Helper? ==> forall m: nat :: m < j ==> !Foldable(fields, c, m, k)
  {
  }

  lemma FoldedShape(fields: seq<Field>, c: seq<Inst>, c': seq<Inst>, from: nat, k: nat, vals: seq<Option<Src>>)
    requires FoldedFrom(fields, c, c', from, k, vals)
    ensures |c'| == |c| && |vals| == |fields| && forall j :: 0 <= j < from && j < |c| ==> c'[j] == c[j]
  {
  }

  lemma FoldDead(fields: seq<Field>, c: seq<Inst>, c': seq<Inst>, j: nat, k: nat, vals: seq<Option<Src>>, i: nat)
    requires FoldedFrom(fields, c, c', j + 1, k, vals) && StoreFor(fields, c, j, k, i) && vals[i].Some?
    ensures StoreStops(fields, c, k)
  {
    var j': nat :| j + 1 <= j' && StoreFor(fields, c, j', k, i);
    assert Clash(fields, c, j, k, i);
  }

  lemma FoldMisfit(fields: seq<Field>, c: seq<Inst>, j: nat, k: nat, i: nat)
    requires StoreFor(fields, c, j, k, i) && c[j].size != fields[i].size
    ensures StoreStops(fields, c, k)
  {
    assert Clash(fields, c, j, k, i);
  }

  lemma NoneStops(fields: seq<Field>, c1: seq<Inst>, c2: seq<Inst>, k: nat, vals: seq<Option<Src>>)
    requires StoresDone(fields, c1, c2, k, vals)
    ensures !StoreStops(fields, c1, k)
  {
    forall t: nat, i: nat ensures !Clash(fields, c1, t, k, i) {
    }
  }

  lemma FoldNone(fields: seq<Field>, b: nat, c: seq<Inst>, k: nat)
    requires k <= |c|
    ensures Taken(fields, b, c, k, k) == {}
    ensures FoldedFrom(fields, c, c, k, k, seq(|fields|, _ => None))
  {
  }

  /** The values of a call or return, with the missing ones filled in. */
  ghost predicate Filled(x: Ctx, b: nat, vals: seq<Option<Src>>, srcs: seq<Src>) {
    && |vals| == |srcs| == |x.fields|
    && forall i: nat :: i < |vals| ==> srcs[i] == if vals[i].Some? then vals[i].value else Missing(x, b, i)
  }

  /** The call or return at `k` rewritten. */
  function Rewritten(x: Ctx, inst: Inst, srcs: seq<Src>): Inst {
    match inst
    case OldCall => NewCall(srcs, x.escapes)
    case OldLeave(tail) => NewLeave(tail, srcs)
    case _ => inst
  }

  // ------------------------------------------------ the phases together

  /** Every known load is gone, and every store that a call or return could take. */
  ghost predicate Precise(x: Ctx, b: nat, co: seq<Inst>, cn: seq<Inst>) {
    && |co| == |cn|
    && (forall j: nat :: j < |co| && Known(x, b, co, j) ==> cn[j].Copy?)
    && (forall j: nat, k: nat :: k < |co| && IsCallret(co[k]) ==> !Foldable(x.fields, cn, j, k))
  }

  /** The three phases on a block with a call or return at `k`. */
  ghost predicate Phases(x: Ctx, b: nat, co: seq<Inst>, c1: seq<Inst>, c2: seq<Inst>, k: nat, vals: seq<Option<Src>>) {
    && FieldsOk(x.fields, x.size) && Original(x.size, co) && LoadsDone(x, b, co, c1)
    && k < |co| && IsCallret(co[k]) && StoresDone(x.fields, c1, c2, k, vals)
  }

  lemma LoadPhase(x: Ctx, b: nat, co: seq<Inst>, c1: seq<Inst>, j: nat)
    requires FieldsOk(x.fields, x.size) && Original(x.size, co) && LoadsDone(x, b, co, c1) && j < |co|
    ensures !co[j].Load? ==> c1[j] == co[j]
    ensures co[j].Load? ==> c1[j] == co[j] || (c1[j].Copy? && exists i: nat :: LoadFolded(x, b, co, j, c1[j], i))
    ensures Known(x, b, co, j) ==> c1[j].Copy?
    ensures !c1[j].Nop? && !c1[j].NewCall? && !c1[j].NewLeave?
  {
    assert KnownDone(x, b, co, c1, j) && InstOk(x.size, co[j]);
  }

  lemma FoldedToIff(x: Ctx, b: nat, co: seq<Inst>, c1: seq<Inst>, c2: seq<Inst>, k: nat, vals: seq<Option<Src>>,
      cn: seq<Inst>, new_: Inst, t: nat, i: nat)
    requires Phases(x, b, co, c1, c2, k, vals) && cn == c2[k := new_]
    ensures FoldedTo(x, co, cn, t, i) <==> StoreFor(x.fields, c1, t, k, i)
    ensures FoldedTo(x, co, cn, t, i) ==> vals[i] == Some(co[t].src)
  {
    if FoldedTo(x, co, cn, t, i) {
      StartIs(x.fields, x.size, i);
      LoadPhase(x, b, co, c1, t);
    }
    if StoreFor(x.fields, c1, t, k, i) {
      LoadPhase(x, b, co, c1, t);
      assert InstOk(x.size, co[t]);
    }
  }

  lemma StorePhase(x: Ctx, b: nat, co: seq<Inst>, c1: seq<Inst>, c2: seq<Inst>, k: nat, vals: seq<Option<Src>>,
      cn: seq<Inst>, new_: Inst, j: nat)
    requires Phases(x, b, co, c1, c2, k, vals) && cn == c2[k := new_] && Foldable(x.fields, c1, j, k)
    requires !new_.Load? && !new_.Helper?
    ensures cn[j] == Nop && co[j].Store? && StoreFolded(x, co, cn, j)
  {
    LoadPhase(x, b, co, c1, j);
    var i: nat := StartOf(x.fields, c1[j].off);
    assert StoreFor(x.fields, c1, j, k, i);
    FoldedToIff(x, b, co, c1, c2, k, vals, cn, new_, j, i);
    forall m: nat | j < m < k ensures Passable(co, cn, j, m) {
      LoadPhase(x, b, co, c1, m);
      if co[m].Store? && co[m].off == co[j].off {
        assert StoreFor(x.fields, c1, m, k, i);
        assert false;
      }
    }
  }

  lemma ValsPhase(x: Ctx, b: nat, co: seq<Inst>, c1: seq<Inst>, c2: seq<Inst>, k: nat, vals: seq<Option<Src>>,
      srcs: seq<Src>, cn: seq<Inst>, new_: Inst)
    requires Phases(x, b, co, c1, c2, k, vals) && cn == c2[k := new_] && Filled(x, b, vals, srcs)
    ensures ValsOk(x, b, co, cn, k, srcs)
  {
    forall i: nat | i < |srcs| ensures ValOk(x, b, co, cn, k, i, srcs[i]) {
      if vals[i].Some? {
        var j: nat :| StoreFor(x.fields, c1, j, k, i) && vals[i] == Some(c1[j].src);
        FoldedToIff(x, b, co, c1, c2, k, vals, cn, new_, j, i);
      } else {
        forall t: nat | t < k ensures !FoldedTo(x, co, cn, t, i) {
          FoldedToIff(x, b, co, c1, c2, k, vals, cn, new_, t, i);
        }
      }
    }
  }

  lemma InstPhase(x: Ctx, b: nat, co: seq<Inst>, c1: seq<Inst>, c2: seq<Inst>, k: nat, vals: seq<Option<Src>>,
      srcs: seq<Src>, cn: seq<Inst>, j: nat)
    requires Phases(x, b, co, c1, c2, k, vals) && Filled(x, b, vals, srcs) && cn == c2[k := Rewritten(x, co[k], srcs)] && j < |co|
    ensures InstPromoted(x, b, co, cn, j)
  {
    hide Original, KnownDone, StoreFolded, FieldsOk;
    LoadPhase(x, b, co, c1, j);
    if IsCallret(co[j]) { OneCallret(x, b, co, c1, c2, k, vals, j); }
    if j == k {
      ValsPhase(x, b, co, c1, c2, k, vals, srcs, cn, Rewritten(x, co[k], srcs));
    } else if Foldable(x.fields, c1, j, k) {
      StorePhase(x, b, co, c1, c2, k, vals, cn, Rewritten(x, co[k], srcs), j);
    } else {
      Untouched(x.fields, c1, c2, k, vals, j);
    }
  }

  lemma OneCallret(x: Ctx, b: nat, co: seq<Inst>, c1: seq<Inst>, c2: seq<Inst>, k: nat, vals: seq<Option<Src>>, j: nat)
    requires Phases(x, b, co, c1, c2, k, vals) && j < |co| && IsCallret(co[j])
    ensures j == k
  {
  }

  lemma Untouched(fields: seq<Field>, c1: seq<Inst>, c2: seq<Inst>, k: nat, vals: seq<Option<Src>>, j: nat)
    requires StoresDone(fields, c1, c2, k, vals) && j < |c1| && !Foldable(fields, c1, j, k)
    ensures c2[j] == c1[j]
  {
  }

  /** A block with a call or return. */
  lemma BlockDone(x: Ctx, b: nat, co: seq<Inst>, c1: seq<Inst>, c2: seq<Inst>, k: nat, vals: seq<Option<Src>>,
      srcs: seq<Src>, cn: seq<Inst>)
    requires Phases(x, b, co, c1, c2, k, vals) && Filled(x, b, vals, srcs) && cn == c2[k := Rewritten(x, co[k], srcs)]
    requires !x.escapes ==> forall j :: 0 <= j < |c2| ==> Harmless(x.fields, c2[j])
    ensures BlockPromoted(x, b, co, cn) && Precise(x, b, co, cn)
  {
    forall j: nat | j < |co| ensures InstPromoted(x, b, co, cn, j) {
      InstPhase(x, b, co, c1, c2, k, vals, srcs, cn, j);
    }
    forall j: nat | j < |co| && Known(x, b, co, j) ensures cn[j].Copy? {
      LoadPhase(x, b, co, c1, j);
    }
    forall j: nat, k': nat | k' < |co| && IsCallret(co[k']) ensures !Foldable(x.fields, cn, j, k') {
      OneCallret(x, b, co, c1, c2, k, vals, k');
      NotAgain(x, b, co, c1, c2, k, vals, cn, j);
    }
  }

  lemma NotAgain(x: Ctx, b: nat, co: seq<Inst>, c1: seq<Inst>, c2: seq<Inst>, k: nat, vals: seq<Option<Src>>, cn: seq<Inst>, j: nat)
    requires Phases(x, b, co, c1, c2, k, vals) && |cn| == |c2| && (forall m :: 0 <= m < |c2| && m != k ==> cn[m] == c2[m])
    ensures !Foldable(x.fields, cn, j, k)
  {
    if Foldable(x.fields, cn, j, k) {
      forall m | j < m < k ensures !c1[m].Load? && !c1[m].Helper? {
        assert cn[m] == c2[m];
      }
      assert Foldable(x.fields, c1, j, k);
      assert false;
    }
  }

  /** A block without. */
  lemma PlainBlockDone(x: Ctx, b: nat, co: seq<Inst>, c1: seq<Inst>)
    requires FieldsOk(x.fields, x.size) && Original(x.size, co) && LoadsDone(x, b, co, c1) && NoCallret(co, 0, |co|)
    requires !x.escapes ==> forall j :: 0 <= j < |c1| ==> Harmless(x.fields, c1[j])
    ensures BlockPromoted(x, b, co, c1) && Precise(x, b, co, c1)
  {
    forall j: nat | j < |co| ensures InstPromoted(x, b, co, c1, j) && (Known(x, b, co, j) ==> c1[j].Copy?) {
      LoadPhase(x, b, co, c1, j);
    }
  }

  // ------------------------------------- what the original decides by itself

  /** A load that is known and has another size than its field. */
  ghost predicate LoadStops(x: Ctx, b: nat, co: seq<Inst>) {
    exists j: nat :: j < |co| && Known(x, b, co, j) && Misfit(x.fields, co[j])
  }

  /** Replaced by a parameter or result, or folded into the call or return behind it. */
  ghost predicate Gone(x: Ctx, b: nat, co: seq<Inst>, j: nat)
    requires j < |co|
  {
    Known(x, b, co, j) || exists k: nat :: k < |co| && IsCallret(co[k]) && Foldable(x.fields, co, j, k)
  }

  ghost predicate LeaksAt(x: Ctx, b: nat, co: seq<Inst>, j: nat)
    requires j < |co|
  {
    !Gone(x, b, co, j) && !Harmless(x.fields, co[j])
  }

  /** Something that touches a field can be neither replaced nor folded, or the struct pointer itself is used. */
  ghost predicate Leaks(x: Ctx, f: Fn) {
    exists b: nat, j: nat :: b < |f.code| && j < |f.code[b]| && LeaksAt(x, b, f.code[b], j)
  }

  ghost predicate BlockStops(x: Ctx, b: nat, co: seq<Inst>) {
    LoadStops(x, b, co) || exists k: nat :: k < |co| && IsCallret(co[k]) && StoreStops(x.fields, co, k)
  }

  /** The function cannot be converted: an assertion, or one of LLVM's casts, fails. */
  ghost predicate Stops(x: Ctx, f: Fn) {
    || (exists b: nat :: b < |f.code| && BlockStops(x, b, f.code[b]))
    || (!Leaks(x, f) && f.entry < |f.code| && !NoCallret(f.code[f.entry], 0, |f.code[f.entry]|))
  }

  lemma LoadsFit(x: Ctx, b: nat, co: seq<Inst>, c1: seq<Inst>)
    requires FieldsOk(x.fields, x.size) && LoadsDone(x, b, co, c1)
    ensures !LoadStops(x, b, co)
  {
    if j: nat :| j < |co| && Known(x, b, co, j) && Misfit(x.fields, co[j]) {
      assert KnownDone(x, b, co, c1, j);
      var i: nat :| LoadFolded(x, b, co, j, c1[j], i);
      StartIs(x.fields, x.size, i);
      assert false;
    }
  }

  /** Between a store and the call or return nothing is known. */
  lemma UnknownBetween(x: Ctx, b: nat, co: seq<Inst>, t: nat, m: nat, k: nat)
    requires Original(x.size, co) && t < m < k < |co| && Writes(co[t]) && IsCallret(co[k])
    ensures !Known(x, b, co, m)
  {
  }

  /** Replacing loads does not change which stores can be folded. */
  lemma SameFoldable(x: Ctx, b: nat, co: seq<Inst>, c1: seq<Inst>, t: nat, k: nat)
    requires FieldsOk(x.fields, x.size) && Original(x.size, co) && LoadsDone(x, b, co, c1) && k < |co| && IsCallret(co[k])
    ensures Foldable(x.fields, c1, t, k) <==> Foldable(x.fields, co, t, k)
  {
    if t < k {
      LoadPhase(x, b, co, c1, t);
      if co[t].Store? {
        forall m: nat | t < m < k ensures c1[m] == co[m] {
          UnknownBetween(x, b, co, t, m, k);
          assert KnownDone(x, b, co, c1, m);
        }
      }
    }
  }

  lemma SameStops(x: Ctx, b: nat, co: seq<Inst>, c1: seq<Inst>, k: nat)
    requires FieldsOk(x.fields, x.size) && Original(x.size, co) && LoadsDone(x, b, co, c1) && k < |co| && IsCallret(co[k])
    ensures StoreStops(x.fields, c1, k) <==> StoreStops(x.fields, co, k)
  {
    forall t: nat, i: nat ensures Clash(x.fields, c1, t, k, i) <==> Clash(x.fields, co, t, k, i) {
      SameClash(x, b, co, c1, t, k, i);
    }
  }

  lemma SameStoreFor(x: Ctx, b: nat, co: seq<Inst>, c1: seq<Inst>, t: nat, k: nat, i: nat)
    requires FieldsOk(x.fields, x.size) && Original(x.size, co) && LoadsDone(x, b, co, c1) && k < |co| && IsCallret(co[k])
    ensures StoreFor(x.fields, c1, t, k, i) <==> StoreFor(x.fields, co, t, k, i)
    ensures StoreFor(x.fields, co, t, k, i) ==> c1[t] == co[t]
  {
    SameFoldable(x, b, co, c1, t, k);
    if t < |co| { LoadPhase(x, b, co, c1, t); }
  }

  lemma SameClash(x: Ctx, b: nat, co: seq<Inst>, c1: seq<Inst>, t: nat, k: nat, i: nat)
    requires FieldsOk(x.fields, x.size) && Original(x.size, co) && LoadsDone(x, b, co, c1) && k < |co| && IsCallret(co[k])
    ensures Clash(x.fields, c1, t, k, i) <==> Clash(x.fields, co, t, k, i)
  {
    hide FieldsOk, Original, LoadsDone;
    forall u: nat ensures StoreFor(x.fields, c1, u, k, i) <==> StoreFor(x.fields, co, u, k, i) {
      SameStoreFor(x, b, co, c1, u, k, i);
    }
    SameStoreFor(x, b, co, c1, t, k, i);
  }
}
