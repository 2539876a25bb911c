/**
 * When a folded store is handed over rightly: exactly if no kept store behind
 * it touches a part of its field. With an escaping struct pointer the conversion
 * does not check that. Whether a block has such a store can be seen before the
 * conversion.
 */
module PromoteHazard {
  import opened PromoteIR
  import opened PromoteSpec
  import opened PromoteProof
  import opened ConvertSpec

  /** The instructions from `lo` up to `hi`. */
  ghost function Seg<W>(w: World<W>, fields: seq<Field>, s: State<W>, b: nat, co: seq<Inst>, lo: nat, hi: nat): State<W>
    requires hi <= |co|
  {
    if hi <= lo then s else Step(w, fields, Seg(w, fields, s, b, co, lo, hi - 1), b, co[hi - 1])
  }

  /** From store `t` on, in front of the call or return at `k`: is the slot what the folded value says? */
  ghost predicate HandsOver<W>(w: World<W>, x: Ctx, s: State<W>, b: nat, co: seq<Inst>, t: nat, k: nat, i: nat)
    requires t < k <= |co| && i < |x.fields| && co[t].Store? && co[t].src.Ssa?
  {
    var s' := Seg(w, x.fields, s, b, co, t, k);
    Holds(s'.mem, x.fields[i], Named(s'.env, co[t].src.name))
  }

  ghost predicate Spot(x: Ctx, b: nat, co: seq<Inst>, cn: seq<Inst>, t: nat, k: nat, i: nat) {
    && FieldsOk(x.fields, x.size) && Original(x.size, co) && BlockPromoted(x, b, co, cn)
    && t < k < |co| && IsCallret(co[k]) && FoldedTo(x, co, cn, t, i)
  }

  /** What can stand between a folded store and its call or return. */
  lemma BetweenThem(x: Ctx, b: nat, co: seq<Inst>, cn: seq<Inst>, t: nat, k: nat, i: nat, m: nat)
    requires Spot(x, b, co, cn, t, k, i) && t < m < k
    ensures co[m].Store? || co[m].Compute? || co[m].Effect?
    ensures co[m].Store? ==> co[m].src.Ssa? && co[m].off != x.fields[i].off && NoCallret(co, t, m) && co[m].off + co[m].size <= x.size
    ensures co[m].Store? && !Hazard(x, co, cn, t, m, i) ==> Apart(x.fields[i], co[m].off, co[m].size)
  {
    assert InstPromoted(x, b, co, cn, t) && InstPromoted(x, b, co, cn, m) && InstOk(x.size, co[m]);
    var k': nat :| t < k' < |co| && IsCallret(co[k']) && (forall m: nat :: t < m < k' ==> Passable(co, cn, t, m));
    assert k' == k;
    assert Passable(co, cn, t, m) && !IsCallret(co[m]);
    if co[m].Load? {
      NotKnown(x, b, co, cn, t, m);
      assert false;
    }
    if co[m].Store? && cn[m].Nop? {
      var i': nat :| FoldedTo(x, co, cn, m, i');
      assert i' != i;
    }
  }

  /** No load behind a write is known, unless a call is in between. */
  lemma NotKnown(x: Ctx, b: nat, co: seq<Inst>, cn: seq<Inst>, t: nat, m: nat)
    requires t < m < |co| == |cn| && Writes(co[t]) && forall k: nat :: t <= k < m ==> !IsCallret(co[k])
    ensures forall i: nat :: !LoadFolded(x, b, co, m, cn[m], i)
  {
  }

  lemma NotRedefined(x: Ctx, b: nat, co: seq<Inst>, cn: seq<Inst>, t: nat, k: nat, i: nat, m: nat)
    requires Spot(x, b, co, cn, t, k, i) && t < m < k && !co[m].Store?
    ensures (co[m].Compute? || co[m].Effect?) && co[t].src != Ssa(co[m].dst)
  {
    BetweenThem(x, b, co, cn, t, k, i, m);
    assert Defines(co[m], co[m].dst);
  }

  // ---------------------------------------------------- on the input alone

  /** Stores are kept or folded, loads behind a store are kept, and nothing else reads the struct. */
  lemma KeptReads(x: Ctx, b: nat, co: seq<Inst>, cn: seq<Inst>, j: nat)
    requires Original(x.size, co) && BlockPromoted(x, b, co, cn) && j < |co|
    ensures cn[j].Helper? <==> co[j].Helper?
    ensures cn[j].Load? ==> co[j].Load?
    ensures co[j].Store? ==> cn[j] == co[j] || cn[j].Nop?
  {
    assert InstPromoted(x, b, co, cn, j) && InstOk(x.size, co[j]);
  }

  /** What a folded store says about the block. */
  lemma FoldedStore(x: Ctx, b: nat, co: seq<Inst>, cn: seq<Inst>, t: nat) returns (k: nat, i: nat)
    requires BlockPromoted(x, b, co, cn) && t < |co| && co[t].Store? && cn[t].Nop?
    ensures t < k < |co| && IsCallret(co[k]) && FoldedTo(x, co, cn, t, i) && forall m: nat :: t < m < k ==> Passable(co, cn, t, m)
  {
    assert InstPromoted(x, b, co, cn, t);
    i :| FoldedTo(x, co, cn, t, i);
    k :| t < k < |co| && IsCallret(co[k]) && forall m: nat :: t < m < k ==> Passable(co, cn, t, m);
  }

  lemma TornIsHazard(x: Ctx, b: nat, co: seq<Inst>, cn: seq<Inst>, t: nat, m: nat, k: nat, i: nat)
    requires FieldsOk(x.fields, x.size) && Original(x.size, co) && BlockPromoted(x, b, co, cn) && Precise(x, b, co, cn)
    requires Torn(x.fields, co, t, m, k, i)
    ensures Hazard(x, co, cn, t, m, i)
  {
    KeptReads(x, b, co, cn, t);
    KeptReads(x, b, co, cn, m);
    if cn[t] == co[t] {
      forall j | t < j < k ensures !cn[j].Load? && !cn[j].Helper? {
        KeptReads(x, b, co, cn, j);
      }
      StartIs(x.fields, x.size, i);
      assert Foldable(x.fields, cn, t, k);
      assert false;
    }
    var k', i' := FoldedStore(x, b, co, cn, t);
    StartIs(x.fields, x.size, i);
    StartIs(x.fields, x.size, i');
    if cn[m].Nop? {
      var k'', i'' := FoldedStore(x, b, co, cn, m);
      assert false;
    }
  }

  lemma HazardIsTorn(x: Ctx, b: nat, co: seq<Inst>, cn: seq<Inst>, t: nat, m: nat, i: nat) returns (k: nat)
    requires FieldsOk(x.fields, x.size) && Original(x.size, co) && BlockPromoted(x, b, co, cn) && Precise(x, b, co, cn)
    requires Hazard(x, co, cn, t, m, i)
    ensures Torn(x.fields, co, t, m, k, i)
  {
    var i';
    k, i' := FoldedStore(x, b, co, cn, t);
    forall j | t < j < k ensures !co[j].Load? && !co[j].Helper? {
      KeptReads(x, b, co, cn, j);
      assert Passable(co, cn, t, j) && InstPromoted(x, b, co, cn, j);
      if co[j].Load? {
        NotKnown(x, b, co, cn, t, j);
        assert false;
      }
    }
    KeptReads(x, b, co, cn, m);
    if StartsField(x.fields, co[m].off) {
      forall j | m < j < k ensures !cn[j].Load? && !cn[j].Helper? {
        KeptReads(x, b, co, cn, j);
      }
      assert AtField(x.fields, cn[m]);
      assert Foldable(x.fields, cn, m, k);
      assert false;
    }
  }

  /** With the call or return at `k`: a hazard of the conversion is a torn field of the original block. */
  lemma HazardIffTorn(x: Ctx, b: nat, co: seq<Inst>, cn: seq<Inst>, t: nat, m: nat, k: nat, i: nat)
    requires FieldsOk(x.fields, x.size) && Original(x.size, co) && BlockPromoted(x, b, co, cn) && Precise(x, b, co, cn)
    requires k < |co| && IsCallret(co[k])
    ensures Hazard(x, co, cn, t, m, i) <==> Torn(x.fields, co, t, m, k, i)
  {
    hide BlockPromoted, Precise, FieldsOk, Hazard;
    if Hazard(x, co, cn, t, m, i) {
      var k' := HazardIsTorn(x, b, co, cn, t, m, i);
      assert k' == k;
    }
    if Torn(x.fields, co, t, m, k, i) {
      TornIsHazard(x, b, co, cn, t, m, k, i);
    }
  }

  /** The conversion runs into a hazard exactly if the original block has a torn field. */
  lemma TornIff(x: Ctx, b: nat, co: seq<Inst>, cn: seq<Inst>)
    requires FieldsOk(x.fields, x.size) && Original(x.size, co) && BlockPromoted(x, b, co, cn) && Precise(x, b, co, cn)
    ensures NoHazard(x, co, cn) <==> Whole(x.fields, co)
  {
    hide Original, BlockPromoted, Precise, FieldsOk, Hazard, Torn;
    if t: nat, m: nat, i: nat :| Hazard(x, co, cn, t, m, i) {
      var k := HazardIsTorn(x, b, co, cn, t, m, i);
      assert Torn(x.fields, co, t, m, k, i);
    } else {
      assert NoHazard(x, co, cn);
    }
    if t: nat, m: nat, k: nat, i: nat :| Torn(x.fields, co, t, m, k, i) {
      TornIsHazard(x, b, co, cn, t, m, k, i);
      assert Hazard(x, co, cn, t, m, i);
    } else {
      assert Whole(x.fields, co);
    }
  }

  // ------------------------------------------------------------ sufficient

  lemma {:induction false} StaysHeld<W>(w: World<W>, x: Ctx, s: State<W>, b: nat, co: seq<Inst>, cn: seq<Inst>, t: nat,
      k: nat, i: nat, j: nat)
    requires Spot(x, b, co, cn, t, k, i) && t < j <= k && |s.mem| == x.size
    requires forall m: nat :: !Hazard(x, co, cn, t, m, i)
    ensures HandsOver(w, x, s, b, co, t, j, i) && |Seg(w, x.fields, s, b, co, t, j).mem| == x.size
  {
    assert x.fields[i].off + x.fields[i].size <= x.size;
    hide Original, BlockPromoted, FieldsOk;
    if j == t + 1 {
      assert Seg(w, x.fields, s, b, co, t, t) == s;
    } else {
      StaysHeld(w, x, s, b, co, cn, t, k, i, j - 1);
      BetweenThem(x, b, co, cn, t, k, i, j - 1);
      assert !Hazard(x, co, cn, t, j - 1, i);
      if !co[j - 1].Store? { NotRedefined(x, b, co, cn, t, k, i, j - 1); }
    }
  }

  // ------------------------------------------------------------- necessary

  ghost function Ramp(n: nat): Value {
    seq(n, a => a)
  }

  ghost function Minus(n: nat): Value {
    seq(n, _ => -1)
  }

  /** The operations in `ids` give a value that counts upwards, all others one that is all -1. */
  ghost function Marked(n: nat, ids: set<nat>): World<int> {
    World((id: nat, args: seq<Value>, w: int) => if id in ids then Ramp(n) else Minus(n),
          (id: nat, args: seq<Value>, w: int) => (if id in ids then Ramp(n) else Minus(n), w),
          (id: nat, args: seq<Value>, w: int, m: Value) => (if id in ids then Ramp(n) else Minus(n), w, m),
          (w: int, m: Value) => (w, m),
          (w: int, m: Value) => m)
  }

  ghost function Sources(co: seq<Inst>): set<nat> {
    set m | 0 <= m < |co| && co[m].Store? && co[m].src.Ssa? :: co[m].src.name
  }

  /** One value counts upwards, and every other one that is looked at is all -1. */
  ghost predicate Tells(n: nat, names: set<nat>, name: nat, env: map<nat, Value>) {
    Named(env, name) == Ramp(n) && forall d :: d in names && d != name ==> Named(env, d) == Minus(n)
  }

  /** An instruction that gives these values only as the marked operations do. */
  predicate KeepsApart(inst: Inst, ids: set<nat>, names: set<nat>, name: nat) {
    match inst
    case Load(d, _, _) => d !in names
    case Copy(d, _) => d !in names
    case Compute(d, id, _) => (d == name ==> id in ids) && (d in names && d != name ==> id !in ids)
    case Effect(d, id, _) => (d == name ==> id in ids) && (d in names && d != name ==> id !in ids)
    case Helper(d, id, _) => (d == name ==> id in ids) && (d in names && d != name ==> id !in ids)
    case _ => true
  }

  lemma StepTells(n: nat, ids: set<nat>, fields: seq<Field>, s: State<int>, b: nat, inst: Inst, names: set<nat>, name: nat)
    requires name in names && KeepsApart(inst, ids, names, name) && Tells(n, names, name, s.env)
    ensures Tells(n, names, name, Step(Marked(n, ids), fields, s, b, inst).env)
    ensures |Step(Marked(n, ids), fields, s, b, inst).mem| == |s.mem|
  {
  }

  ghost predicate Telling(n: nat, co: seq<Inst>, name: nat, s: State<int>) {
    |s.mem| == n && Tells(n, Sources(co), name, s.env)
  }

  ghost function Start(n: nat, co: seq<Inst>, name: nat): State<int> {
    State(map d | d in Sources(co) :: if d == name then Ramp(n) else Minus(n), [], map[], map[], Minus(n), 0, [])
  }

  ghost predicate AllApart(co: seq<Inst>, t: nat, k: nat, ids: set<nat>, name: nat) {
    k <= |co| && forall m :: t < m < k ==> KeepsApart(co[m], ids, Sources(co), name)
  }

  lemma {:induction false} StaysTelling(x: Ctx, b: nat, co: seq<Inst>, t: nat, k: nat, j: nat, ids: set<nat>, s: State<int>)
    requires t < j <= k && k <= |co| && co[t].Store? && co[t].src.Ssa? && AllApart(co, t, k, ids, co[t].src.name)
    requires Telling(x.size, co, co[t].src.name, s)
    ensures Telling(x.size, co, co[t].src.name, Seg(Marked(x.size, ids), x.fields, s, b, co, t, j))
  {
    var name := co[t].src.name;
    assert name in Sources(co);
    hide Step, Marked, Sources;
    if j == t + 1 {
      assert Seg(Marked(x.size, ids), x.fields, s, b, co, t, t) == s;
      StepTells(x.size, ids, x.fields, s, b, co[t], Sources(co), name);
    } else {
      StaysTelling(x, b, co, t, k, j - 1, ids, s);
      StepTells(x.size, ids, x.fields, Seg(Marked(x.size, ids), x.fields, s, b, co, t, j - 1), b, co[j - 1], Sources(co), name);
    }
  }

  /** The last kept store that touches the field leaves a byte that is not the one of the folded value. */
  lemma {:induction false} ByteLost(x: Ctx, b: nat, co: seq<Inst>, cn: seq<Inst>, t: nat, k: nat, i: nat, m: nat, j: nat, a: nat,
                                    ids: set<nat>, s: State<int>)
    requires Spot(x, b, co, cn, t, k, i) && Hazard(x, co, cn, t, m, i) && m < j <= k
    requires AllApart(co, t, k, ids, co[t].src.name) && Telling(x.size, co, co[t].src.name, s)
    requires forall m': nat :: m < m' < k ==> !Hazard(x, co, cn, t, m', i)
    requires Within(x.fields, i, a) && co[m].off <= a < co[m].off + co[m].size
    ensures |Seg(Marked(x.size, ids), x.fields, s, b, co, t, j).mem| == x.size
    ensures Seg(Marked(x.size, ids), x.fields, s, b, co, t, j).mem[a] != a - x.fields[i].off
  {
    hide Original, BlockPromoted, AllApart, KeepsApart;
    StaysTelling(x, b, co, t, k, j, ids, s);
    BetweenThem(x, b, co, cn, t, k, i, j - 1);
    if j == m + 1 {
      StaysTelling(x, b, co, t, k, m, ids, s);
      BetweenThem(x, b, co, cn, t, k, i, m);
      assert co[m].src.name in Sources(co);
    } else {
      ByteLost(x, b, co, cn, t, k, i, m, j - 1, a, ids, s);
      assert !Hazard(x, co, cn, t, j - 1, i);
    }
  }

  lemma LastHazard(x: Ctx, co: seq<Inst>, cn: seq<Inst>, t: nat, i: nat, m: nat, k: nat) returns (last: nat)
    requires Hazard(x, co, cn, t, m, i) && m < k
    ensures m <= last < k && Hazard(x, co, cn, t, last, i) && forall m': nat :: last < m' < k ==> !Hazard(x, co, cn, t, m', i)
  {
    last := m;
    var n := m + 1;
    while n < k
      invariant m <= last < n <= k && Hazard(x, co, cn, t, last, i) && forall m': nat :: last < m' < n ==> !Hazard(x, co, cn, t, m', i)
    {
      if Hazard(x, co, cn, t, n, i) { last := n; }
      n := n + 1;
    }
  }

  lemma StartTells(n: nat, co: seq<Inst>, name: nat)
    requires name in Sources(co)
    ensures Telling(n, co, name, Start(n, co, name))
  {
  }

  /** A byte of the field that the store touches. */
  ghost function Touched(f: Field, inst: Inst): nat
    requires inst.Store?
  {
    if f.off <= inst.off then inst.off else f.off
  }

  lemma LostAt(x: Ctx, b: nat, co: seq<Inst>, cn: seq<Inst>, t: nat, k: nat, i: nat, last: nat, ids: set<nat>, s: State<int>)
    requires Spot(x, b, co, cn, t, k, i) && Hazard(x, co, cn, t, last, i) && last < k
    requires AllApart(co, t, k, ids, co[t].src.name) && Telling(x.size, co, co[t].src.name, s)
    requires forall m': nat :: last < m' < k ==> !Hazard(x, co, cn, t, m', i)
    ensures var a, s' := Touched(x.fields[i], co[last]), Seg(Marked(x.size, ids), x.fields, s, b, co, t, k);
      && Within(x.fields, i, a) && a < x.size == |s'.mem| && s'.mem[a] != a - x.fields[i].off
      && Named(s'.env, co[t].src.name) == Ramp(x.size)
    ensures !HandsOver(Marked(x.size, ids), x, s, b, co, t, k, i)
  {
    var a := Touched(x.fields[i], co[last]);
    BetweenThem(x, b, co, cn, t, k, i, last);
    assert a < x.size;
    hide Original, BlockPromoted, FieldsOk, Seg, Step, Sources, Marked, AllApart;
    ByteLost(x, b, co, cn, t, k, i, last, k, a, ids, s);
    StaysTelling(x, b, co, t, k, k, ids, s);
  }

  /** Between the store and the call or return nothing gives the stored value anew. */
  lemma NothingMarked(x: Ctx, b: nat, co: seq<Inst>, cn: seq<Inst>, t: nat, k: nat, i: nat)
    requires Spot(x, b, co, cn, t, k, i)
    ensures AllApart(co, t, k, {}, co[t].src.name)
  {
    hide Original, BlockPromoted, FieldsOk, Sources;
    forall m | t < m < k ensures KeepsApart(co[m], {}, Sources(co), co[t].src.name) {
      BetweenThem(x, b, co, cn, t, k, i, m);
      if !co[m].Store? { NotRedefined(x, b, co, cn, t, k, i, m); }
    }
  }

  lemma HazardHurts(x: Ctx, b: nat, co: seq<Inst>, cn: seq<Inst>, t: nat, k: nat, i: nat, m: nat)
    requires Spot(x, b, co, cn, t, k, i) && Hazard(x, co, cn, t, m, i)
    ensures exists w: World<int>, s: State<int> :: |s.mem| == x.size && !HandsOver(w, x, s, b, co, t, k, i)
  {
    hide Original, BlockPromoted, FieldsOk, HandsOver, Start, AllApart;
    assert m < k;
    var last := LastHazard(x, co, cn, t, i, m, k);
    var name := co[t].src.name;
    assert name in Sources(co);
    StartTells(x.size, co, name);
    NothingMarked(x, b, co, cn, t, k, i);
    LostAt(x, b, co, cn, t, k, i, last, {}, Start(x.size, co, name));
    assert !HandsOver(Marked(x.size, {}), x, Start(x.size, co, name), b, co, t, k, i);
  }

  lemma HandsOverIff(x: Ctx, b: nat, co: seq<Inst>, cn: seq<Inst>, t: nat, k: nat, i: nat)
    requires Spot(x, b, co, cn, t, k, i)
    ensures (forall m: nat :: !Hazard(x, co, cn, t, m, i)) <==>
      (forall w: World<int>, s: State<int> :: |s.mem| == x.size ==> HandsOver(w, x, s, b, co, t, k, i))
  {
    if m: nat :| Hazard(x, co, cn, t, m, i) {
      HazardHurts(x, b, co, cn, t, k, i, m);
    } else {
      forall w: World<int>, s: State<int> | |s.mem| == x.size ensures HandsOver(w, x, s, b, co, t, k, i) {
        StaysHeld(w, x, s, b, co, cn, t, k, i, k);
      }
    }
  }

  /**
   * A folded store is what the slot holds at the call or return, in every state
   * and world, if and only if in the original block no store behind it tears its field.
   */
  lemma HandedOverIff(x: Ctx, b: nat, co: seq<Inst>, cn: seq<Inst>, t: nat, k: nat, i: nat)
    requires Spot(x, b, co, cn, t, k, i) && Precise(x, b, co, cn)
    ensures (forall m: nat :: !Torn(x.fields, co, t, m, k, i)) <==>
      (forall w: World<int>, s: State<int> :: |s.mem| == x.size ==> HandsOver(w, x, s, b, co, t, k, i))
  {
    HandsOverIff(x, b, co, cn, t, k, i);
    forall m: nat ensures Hazard(x, co, cn, t, m, i) <==> Torn(x.fields, co, t, m, k, i) {
      HazardIffTorn(x, b, co, cn, t, m, k, i);
    }
    hide Original, BlockPromoted, Precise, FieldsOk, Hazard, Torn, HandsOver;
  }

  const PARTIAL: seq<Inst> := [Store(0, 8, Ssa(0)), Store(1, 1, Ssa(1)), OldLeave(false)]
  const PARTIAL_NEW: seq<Inst> := [Nop, Store(1, 1, Ssa(1)), NewLeave(false, [Ssa(0)])]

  lemma PartialSpot(x: Ctx)
    requires x == Ctx([Field(0, 8)], 0x1a0, 0, true, false)
    ensures Spot(x, 0, PARTIAL, PARTIAL_NEW, 0, 2, 0) && Torn(x.fields, PARTIAL, 0, 1, 2, 0)
    ensures Hazard(x, PARTIAL, PARTIAL_NEW, 0, 1, 0)
  {
    var co, cn := PARTIAL, PARTIAL_NEW;
    assert FoldedTo(x, co, cn, 0, 0) && Hazard(x, co, cn, 0, 1, 0);
    assert InstPromoted(x, 0, co, cn, 0) by {
      assert IsCallret(co[2]) && forall m: nat :: 0 < m < 2 ==> Passable(co, cn, 0, m);
    }
    assert InstPromoted(x, 0, co, cn, 2) by {
      assert ValOk(x, 0, co, cn, 2, 0, Ssa(0));
    }
  }

  /** The smallest case: a whole field is stored, then its second byte, and the return hands over the first value. */
  lemma PartialStore(x: Ctx)
    requires x == Ctx([Field(0, 8)], 0x1a0, 0, true, false)
    ensures Spot(x, 0, PARTIAL, PARTIAL_NEW, 0, 2, 0) && Torn(x.fields, PARTIAL, 0, 1, 2, 0)
    ensures exists w: World<int>, s: State<int> :: |s.mem| == x.size && !HandsOver(w, x, s, 0, PARTIAL, 0, 2, 0)
  {
    hide Spot, Torn, Hazard, HandsOver;
    PartialSpot(x);
    HazardHurts(x, 0, PARTIAL, PARTIAL_NEW, 0, 2, 0, 1);
  }
}
