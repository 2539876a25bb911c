/**
 * The converted function follows the original one, step by step: same values,
 * same surroundings, and what is handed over is what the struct held.
 */
module PromoteProof {
  import opened PromoteIR
  import opened PromoteSpec

  // ---------------------------------------------------------------- memory

  lemma OverlayIs(fields: seq<Field>, m: Value, m': Value, vals: seq<Value>)
    requires FieldsOk(fields, |m|) && RestSame(fields, m, m') && |vals| == |fields|
    requires forall i: nat :: i < |fields| ==> Holds(m, fields[i], vals[i])
    ensures Overlay(fields, m', vals) == m
  {
    forall a | 0 <= a < |m| ensures OverlayAt(fields, m', vals, a) == m[a] {
      if Owner(fields, a) >= 0 {
        OwnerHas(fields, a);
        assert Holds(m, fields[Owner(fields, a)], vals[Owner(fields, a)]);
      }
    }
  }

  lemma ReadHolds(m: Value, f: Field)
    requires f.off + f.size <= |m|
    ensures Holds(m, f, Read(m, f.off, f.size))
  {
    var v := Read(m, f.off, f.size);
    forall a | f.off <= a < f.off + f.size ensures m[a] == Byte(v, a - f.off) {
      assert v[a - f.off] == Byte(m, f.off + (a - f.off));
    }
  }

  lemma HoldsRead(m: Value, f: Field, v: Value)
    requires Holds(m, f, v) && |v| == f.size
    ensures Read(m, f.off, f.size) == v
  {
    var r := Read(m, f.off, f.size);
    forall t | 0 <= t < f.size ensures r[t] == v[t] {
      assert m[f.off + t] == Byte(v, f.off + t - f.off);
    }
  }

  lemma NoOwner(fields: seq<Field>, off: nat, size: nat, a: int)
    requires Outside(fields, off, size) && off <= a < off + size
    ensures Owner(fields, a) < 0
  {
    if Owner(fields, a) >= 0 {
      OwnerHas(fields, a);
      assert false;
    }
  }

  /** Bytes outside the fields, read from either struct. */
  lemma ReadOutside(fields: seq<Field>, m: Value, m': Value, off: nat, size: nat)
    requires RestSame(fields, m, m') && Outside(fields, off, size) && off + size <= |m|
    ensures Read(m, off, size) == Read(m', off, size)
  {
    var r, r' := Read(m, off, size), Read(m', off, size);
    forall t | 0 <= t < size ensures r[t] == r'[t] {
      NoOwner(fields, off, size, off + t);
    }
  }

  lemma SameMem(fields: seq<Field>, m: Value, m': Value)
    requires FieldsOk(fields, |m|) && RestSame(fields, m, m')
    requires forall i: nat :: i < |fields| ==> Holds(m, fields[i], Read(m', fields[i].off, fields[i].size))
    ensures m == m'
  {
    forall i: nat | i < |fields| ensures Holds(m', fields[i], FieldValues(fields, m')[i]) {
      ReadHolds(m', fields[i]);
    }
    OverlayIs(fields, m', m', FieldValues(fields, m'));
    OverlayIs(fields, m, m', FieldValues(fields, m'));
  }

  // ----------------------------------------------------- steps of a block

  ghost predicate Here(x: Ctx, b: nat, co: seq<Inst>, cn: seq<Inst>, j: nat) {
    && FieldsOk(x.fields, x.size) && Original(x.size, co) && BlockPromoted(x, b, co, cn) && NoHazard(x, co, cn)
    && j < |co| == |cn|
  }

  /** Between a folded store and its call or return. */
  lemma PassableAt(x: Ctx, b: nat, co: seq<Inst>, cn: seq<Inst>, t: nat, i: nat, m: nat)
    requires Here(x, b, co, cn, m) && t < m && FoldedTo(x, co, cn, t, i) && NoCallret(co, 0, m + 1)
    ensures Passable(co, cn, t, m)
  {
    assert InstPromoted(x, b, co, cn, t);
    var k: nat :| t < k < |co| && IsCallret(co[k]) && (forall m: nat :: t < m < k ==> Passable(co, cn, t, m));
    assert k > m;
  }

  /** No store to the field is waiting to be handed over in front of something that reads the struct. */
  lemma NothingPending(x: Ctx, b: nat, co: seq<Inst>, cn: seq<Inst>, j: nat, i: nat)
    requires Here(x, b, co, cn, j) && i < |x.fields| && (cn[j].Load? || cn[j].Helper?) && NoCallret(co, 0, j)
    ensures LastFold(x, co, cn, j, i) == -1
  {
    assert InstPromoted(x, b, co, cn, j);
    assert NoCallret(co, 0, j + 1);
    if LastFold(x, co, cn, j, i) >= 0 {
      PassableAt(x, b, co, cn, LastFold(x, co, cn, j, i), i, j);
      assert false;
    }
  }

  /** With an escaping pointer both structs are the same wherever the struct is read. */
  lemma SameWhereRead<W>(x: Ctx, b: nat, co: seq<Inst>, cn: seq<Inst>, j: nat, so: State<W>, sn: State<W>, org: seq<Value>)
    requires Here(x, b, co, cn, j) && |org| == |x.fields| && MemRel(x, b, co, cn, j, so, sn, org)
    requires x.escapes && (cn[j].Load? || cn[j].Helper?)
    ensures so.mem == sn.mem
  {
    forall i: nat | i < |x.fields| ensures Holds(so.mem, x.fields[i], Read(sn.mem, x.fields[i].off, x.fields[i].size)) {
      assert Slot(x, b, co, cn, j, so, sn, org, i);
      if NoCallret(co, 0, j) {
        NothingPending(x, b, co, cn, j, i);
      }
    }
    SameMem(x.fields, so.mem, sn.mem);
  }

  /** An instruction that leaves the struct alone. */
  lemma QuietSlot<W>(x: Ctx, b: nat, co: seq<Inst>, cn: seq<Inst>, j: nat, so: State<W>, sn: State<W>, so': State<W>,
      sn': State<W>, org: seq<Value>, i: nat, d: nat, v: Value)
    requires Here(x, b, co, cn, j) && i < |x.fields| == |org| && Slot(x, b, co, cn, j, so, sn, org, i)
    requires Defines(co[j], d) && so'.mem == so.mem && sn'.mem == sn.mem && sn'.env == sn.env[d := v] && sn'.results == sn.results
    ensures Slot(x, b, co, cn, j + 1, so', sn', org, i)
  {
    assert NoCallret(co, 0, j + 1) <==> NoCallret(co, 0, j);
    assert !FoldedTo(x, co, cn, j, i);
    assert LastFold(x, co, cn, j + 1, i) == LastFold(x, co, cn, j, i);
  }

  lemma QuietMem<W>(x: Ctx, b: nat, co: seq<Inst>, cn: seq<Inst>, j: nat, so: State<W>, sn: State<W>, so': State<W>,
      sn': State<W>, org: seq<Value>, d: nat, v: Value)
    requires Here(x, b, co, cn, j) && |org| == |x.fields| && MemRel(x, b, co, cn, j, so, sn, org)
    requires Defines(co[j], d) && so'.mem == so.mem && sn'.mem == sn.mem && sn'.env == sn.env[d := v] && sn'.results == sn.results
    ensures MemRel(x, b, co, cn, j + 1, so', sn', org)
  {
    hide Original, BlockPromoted, NoHazard, FieldsOk, Slot, RestSame;
    var j' := j + 1;
    forall i: nat | i < |x.fields| ensures Slot(x, b, co, cn, j', so', sn', org, i) {
      QuietSlot(x, b, co, cn, j, so, sn, so', sn', org, i, d, v);
    }
  }

  /** A folded store: only the original function writes. */
  lemma FoldSlot<W>(x: Ctx, b: nat, co: seq<Inst>, cn: seq<Inst>, j: nat, so: State<W>, sn: State<W>, org: seq<Value>, i: nat, f: nat)
    requires Here(x, b, co, cn, j) && i < |x.fields| == |org| && Slot(x, b, co, cn, j, so, sn, org, i)
    requires FoldedTo(x, co, cn, j, f) && NoCallret(co, 0, j + 1) && so.env == sn.env && |so.mem| == x.size
    ensures Slot(x, b, co, cn, j + 1, so.(mem := Write(so.mem, co[j].off, co[j].size, Named(so.env, co[j].src.name))), sn, org, i)
  {
    assert NoCallret(co, 0, j);
    if i != f {
      assert !FoldedTo(x, co, cn, j, i);
      assert LastFold(x, co, cn, j + 1, i) == LastFold(x, co, cn, j, i);
    }
  }

  /** A store that is kept: both functions write the same. */
  lemma KeepSlot<W>(x: Ctx, b: nat, co: seq<Inst>, cn: seq<Inst>, j: nat, so: State<W>, sn: State<W>, org: seq<Value>, i: nat, v: Value)
    requires Here(x, b, co, cn, j) && i < |x.fields| == |org| && Slot(x, b, co, cn, j, so, sn, org, i)
    requires co[j].Store? && cn[j] == co[j] && |so.mem| == |sn.mem| == x.size
    ensures Slot(x, b, co, cn, j + 1, so.(mem := Write(so.mem, co[j].off, co[j].size, v)),
      sn.(mem := Write(sn.mem, co[j].off, co[j].size, v)), org, i)
  {
    var f := x.fields[i];
    assert NoCallret(co, 0, j + 1) <==> NoCallret(co, 0, j);
    assert LastFold(x, co, cn, j + 1, i) == LastFold(x, co, cn, j, i);
    var t := LastFold(x, co, cn, j, i);
    if NoCallret(co, 0, j) && t >= 0 {
      assert !Hazard(x, co, cn, t, j, i);
    } else if x.escapes {
      WrittenSlot(so.mem, sn.mem, f, co[j].off, co[j].size, v);
    } else {
      assert Harmless(x.fields, cn[j]);
      assert Apart(f, co[j].off, co[j].size);
    }
  }

  lemma WrittenSlot(m: Value, m': Value, f: Field, off: nat, size: nat, v: Value)
    requires |m| == |m'| && Holds(m, f, Read(m', f.off, f.size))
    ensures Holds(Write(m, off, size, v), f, Read(Write(m', off, size, v), f.off, f.size))
  {
    var w, w' := Write(m, off, size, v), Write(m', off, size, v);
    var r, r' := Read(m', f.off, f.size), Read(w', f.off, f.size);
    forall a | f.off <= a < f.off + f.size ensures w[a] == Byte(r', a - f.off) {
      assert m[a] == Byte(r, a - f.off);
      assert r[a - f.off] == Byte(m', f.off + (a - f.off));
      assert r'[a - f.off] == Byte(w', f.off + (a - f.off));
    }
  }

  lemma WriteRest(fields: seq<Field>, m: Value, m': Value, off: nat, size: nat, v: Value)
    requires RestSame(fields, m, m')
    ensures RestSame(fields, Write(m, off, size, v), Write(m', off, size, v))
  {
  }

  /** Writing inside a field does not concern the rest. */
  lemma WriteField(fields: seq<Field>, i: nat, m: Value, m': Value, v: Value)
    requires FieldsOk(fields, |m|) && i < |fields| && RestSame(fields, m, m')
    ensures RestSame(fields, Write(m, fields[i].off, fields[i].size, v), m')
  {
    var w := Write(m, fields[i].off, fields[i].size, v);
    forall a | 0 <= a < |m| && Owner(fields, a) < 0 ensures w[a] == m'[a] {
      if Within(fields, i, a) { OwnerIs(fields, |m|, i, a); }
    }
  }

  lemma FreshQuiet<W>(x: Ctx, b: nat, co: seq<Inst>, j: nat, so: State<W>, sn: State<W>, so': State<W>, sn': State<W>)
    requires j < |co| && Fresh(x, b, co, j, so, sn) && !Writes(co[j])
    requires so'.mem == so.mem && sn'.params == sn.params && sn'.results == sn.results
    ensures Fresh(x, b, co, j + 1, so', sn')
  {
    assert NoWrite(co, 0, j + 1) ==> NoWrite(co, 0, j);
    forall k: nat | k < j + 1 && k < |co| && co[k].OldCall? && NoWrite(co, k + 1, j + 1)
      ensures b in sn'.results && sn'.results[b] == FieldValues(x.fields, so'.mem)
    {
      assert NoWrite(co, k + 1, j);
    }
  }

  lemma FreshWrite<W>(x: Ctx, b: nat, co: seq<Inst>, j: nat, so': State<W>, sn': State<W>)
    requires j < |co| && Writes(co[j]) && !co[j].OldCall?
    ensures Fresh(x, b, co, j + 1, so', sn')
  {
    assert !NoWrite(co, 0, j + 1);
  }

  // ---------------------------------------------------------- single steps

  /** Instructions that compute a value and do not write the struct. */
  lemma StepQuiet<W>(x: Ctx, b: nat, co: seq<Inst>, cn: seq<Inst>, j: nat, so: State<W>, sn: State<W>, so': State<W>,
      sn': State<W>, org: seq<Value>, d: nat, v: Value, world: W)
    requires Here(x, b, co, cn, j) && Rel(x, b, co, cn, j, so, sn, org) && Defines(co[j], d)
    requires so' == so.(env := so.env[d := v], world := world) && sn' == sn.(env := sn.env[d := v], world := world)
    ensures Rel(x, b, co, cn, j + 1, so', sn', org)
  {
    hide Original, BlockPromoted, NoHazard, FieldsOk, MemRel, Fresh, PhisReady;
    QuietMem(x, b, co, cn, j, so, sn, so', sn', org, d, v);
    if Writes(co[j]) { FreshWrite(x, b, co, j, so', sn'); } else { FreshQuiet(x, b, co, j, so, sn, so', sn'); }
    PhisKept(x, b, cn, sn, sn');
  }

  lemma PhisKept<W>(x: Ctx, b: nat, cn: seq<Inst>, sn: State<W>, sn': State<W>)
    requires PhisReady(x, b, cn, sn) && sn'.phis == sn.phis
    ensures PhisReady(x, b, cn, sn')
  {
  }

  /** A load gives the same value, whether kept or replaced. */
  lemma LoadedSame<W>(x: Ctx, b: nat, co: seq<Inst>, cn: seq<Inst>, j: nat, so: State<W>, sn: State<W>, org: seq<Value>)
    requires Here(x, b, co, cn, j) && Rel(x, b, co, cn, j, so, sn, org) && co[j].Load?
    ensures cn[j].Load? ==> cn[j] == co[j] && Read(sn.mem, co[j].off, co[j].size) == Read(so.mem, co[j].off, co[j].size)
    ensures !cn[j].Load? ==> cn[j].Copy? && cn[j].dst == co[j].dst && Eval(x.fields, sn, cn[j].src) == Read(so.mem, co[j].off, co[j].size)
  {
    assert InstPromoted(x, b, co, cn, j) && InstOk(x.size, co[j]);
    if cn[j] == co[j] {
      if x.escapes {
        SameWhereRead(x, b, co, cn, j, so, sn, org);
      } else {
        assert Harmless(x.fields, cn[j]);
        ReadOutside(x.fields, so.mem, sn.mem, co[j].off, co[j].size);
      }
    } else {
      FoldedLoad(x, b, co, cn, j, so, sn);
    }
  }

  lemma FoldedLoad<W>(x: Ctx, b: nat, co: seq<Inst>, cn: seq<Inst>, j: nat, so: State<W>, sn: State<W>)
    requires j < |co| == |cn| && co[j].Load? && Fresh(x, b, co, j, so, sn)
    requires exists i: nat :: LoadFolded(x, b, co, j, cn[j], i)
    ensures cn[j].Copy? && cn[j].dst == co[j].dst && Eval(x.fields, sn, cn[j].src) == Read(so.mem, co[j].off, co[j].size)
  {
    var i: nat :| LoadFolded(x, b, co, j, cn[j], i);
    assert FieldValues(x.fields, so.mem)[i] == Read(so.mem, co[j].off, co[j].size);
  }

  lemma StepHelper<W>(w: World<W>, x: Ctx, b: nat, co: seq<Inst>, cn: seq<Inst>, j: nat, so: State<W>, sn: State<W>, org: seq<Value>)
    requires Here(x, b, co, cn, j) && Rel(x, b, co, cn, j, so, sn, org) && co[j].Helper?
    ensures Rel(x, b, co, cn, j + 1, Step(w, x.fields, so, b, co[j]), Step(w, x.fields, sn, b, cn[j]), org)
  {
    HelperEscapes(x, b, co, cn, j);
    var so', sn' := Step(w, x.fields, so, b, co[j]), Step(w, x.fields, sn, b, cn[j]);
    SameWhereRead(x, b, co, cn, j, so, sn, org);
    HelperMem(x, b, co, cn, j, so, sn, so', sn', org);
    hide MemRel, Fresh, PhisReady, Here;
    FreshWrite(x, b, co, j, so', sn');
    PhisKept(x, b, cn, sn, sn');
  }

  lemma HelperEscapes(x: Ctx, b: nat, co: seq<Inst>, cn: seq<Inst>, j: nat)
    requires Here(x, b, co, cn, j) && co[j].Helper?
    ensures x.escapes && cn[j] == co[j]
  {
    assert InstPromoted(x, b, co, cn, j);
    assert x.escapes || Harmless(x.fields, cn[j]);
  }

  lemma HelperMem<W>(x: Ctx, b: nat, co: seq<Inst>, cn: seq<Inst>, j: nat, so: State<W>, sn: State<W>, so': State<W>,
      sn': State<W>, org: seq<Value>)
    requires Here(x, b, co, cn, j) && |org| == |x.fields| && MemRel(x, b, co, cn, j, so, sn, org) && x.escapes &&
      co[j].Helper? && cn[j].Helper?
    requires so'.mem == sn'.mem && |so'.mem| == x.size
    ensures MemRel(x, b, co, cn, j + 1, so', sn', org)
  {
    var j' := j + 1;
    forall i: nat | i < |x.fields| ensures Slot(x, b, co, cn, j', so', sn', org, i) {
      ReadHolds(so'.mem, x.fields[i]);
      if NoCallret(co, 0, j') {
        assert NoCallret(co, 0, j);
        NothingPending(x, b, co, cn, j, i);
      }
    }
  }

  lemma StepKeptStore<W>(w: World<W>, x: Ctx, b: nat, co: seq<Inst>, cn: seq<Inst>, j: nat, so: State<W>, sn: State<W>, org: seq<Value>)
    requires Here(x, b, co, cn, j) && Rel(x, b, co, cn, j, so, sn, org) && co[j].Store? && cn[j] == co[j] && co[j].src.Ssa?
    ensures Rel(x, b, co, cn, j + 1, Step(w, x.fields, so, b, co[j]), Step(w, x.fields, sn, b, cn[j]), org)
  {
    hide Original, BlockPromoted, NoHazard, FieldsOk, Fresh, PhisReady, RestSame, Slot;
    var so', sn' := Step(w, x.fields, so, b, co[j]), Step(w, x.fields, sn, b, cn[j]);
    var j', v := j + 1, Eval(x.fields, so, co[j].src);
    SameLength(x.fields, so.mem, sn.mem);
    WriteRest(x.fields, so.mem, sn.mem, co[j].off, co[j].size, v);
    forall i: nat | i < |x.fields| ensures Slot(x, b, co, cn, j', so', sn', org, i) {
      KeepSlot(x, b, co, cn, j, so, sn, org, i, v);
    }
    FreshWrite(x, b, co, j, so', sn');
    PhisKept(x, b, cn, sn, sn');
  }

  lemma SameLength(fields: seq<Field>, m: Value, m': Value)
    requires RestSame(fields, m, m')
    ensures |m| == |m'|
  {
  }

  lemma StepFoldedStore<W>(w: World<W>, x: Ctx, b: nat, co: seq<Inst>, cn: seq<Inst>, j: nat, so: State<W>,
      sn: State<W>, org: seq<Value>, f: nat)
    requires Here(x, b, co, cn, j) && Rel(x, b, co, cn, j, so, sn, org) && FoldedTo(x, co, cn, j, f) && NoCallret(co, 0, j + 1)
    ensures Rel(x, b, co, cn, j + 1, Step(w, x.fields, so, b, co[j]), Step(w, x.fields, sn, b, cn[j]), org)
  {
    hide Original, BlockPromoted, NoHazard, FieldsOk, Fresh, PhisReady, RestSame, Slot, NoCallret;
    var so', sn' := Step(w, x.fields, so, b, co[j]), Step(w, x.fields, sn, b, cn[j]);
    var j' := j + 1;
    WriteField(x.fields, f, so.mem, sn.mem, Eval(x.fields, so, co[j].src));
    forall i: nat | i < |x.fields| ensures Slot(x, b, co, cn, j', so', sn', org, i) {
      FoldSlot(x, b, co, cn, j, so, sn, org, i, f);
    }
    FreshWrite(x, b, co, j, so', sn');
  }

  // ------------------------------------------------------ calls and returns

  lemma OnlyFold(x: Ctx, b: nat, co: seq<Inst>, cn: seq<Inst>, k: nat, t: nat, i: nat)
    requires Here(x, b, co, cn, k) && IsCallret(co[k]) && t < k && FoldedTo(x, co, cn, t, i)
    ensures LastFold(x, co, cn, k, i) == t
  {
    var u := LastFold(x, co, cn, k, i);
    if u > t {
      assert NoCallret(co, 0, u + 1);
      PassableAt(x, b, co, cn, t, i, u);
      assert false;
    }
  }

  lemma HandedField<W>(x: Ctx, b: nat, co: seq<Inst>, cn: seq<Inst>, k: nat, so: State<W>, sn: State<W>,
      org: seq<Value>, vals: seq<Src>, i: nat)
    requires Here(x, b, co, cn, k) && Rel(x, b, co, cn, k, so, sn, org) && IsCallret(co[k])
    requires ValsOk(x, b, co, cn, k, vals) && i < |vals| && (vals[i] == Phi(b, i) ==> (b, i) in sn.phis)
    ensures Holds(so.mem, x.fields[i], Eval(x.fields, sn, vals[i]))
  {
    hide Fresh, PhisReady, BlockPromoted, NoHazard;
    assert Slot(x, b, co, cn, k, so, sn, org, i) && ValOk(x, b, co, cn, k, i, vals[i]);
    assert NoCallret(co, 0, k);
    if t: nat :| t < k && FoldedTo(x, co, cn, t, i) && vals[i] == co[t].src {
      OnlyFold(x, b, co, cn, k, t, i);
    }
  }

  /** What a call or return hands over is what the struct held. */
  lemma Handed<W>(x: Ctx, b: nat, co: seq<Inst>, cn: seq<Inst>, k: nat, so: State<W>, sn: State<W>, org: seq<Value>, vals: seq<Src>)
    requires Here(x, b, co, cn, k) && Rel(x, b, co, cn, k, so, sn, org) && IsCallret(co[k])
    requires (cn[k].NewCall? || cn[k].NewLeave?) && cn[k].vals == vals && ValsOk(x, b, co, cn, k, vals)
    ensures Overlay(x.fields, sn.mem, EvalAll(x.fields, sn, vals)) == so.mem
  {
    hide Original, BlockPromoted, NoHazard, Fresh, FieldsOk, RestSame, Slot, Given, Holds;
    var values := EvalAll(x.fields, sn, vals);
    forall i: nat | i < |x.fields| ensures Holds(so.mem, x.fields[i], values[i]) {
      HandedField(x, b, co, cn, k, so, sn, org, vals, i);
    }
    OverlayIs(x.fields, so.mem, sn.mem, values);
  }

  lemma SpillRestores<W>(w: World<W>, fields: seq<Field>, world: W, m: Value)
    requires FieldsOk(fields, |m|)
    ensures RestSame(fields, m, Junked(w, fields, world, m))
    ensures Overlay(fields, Junked(w, fields, world, m), FieldValues(fields, m)) == m
  {
    forall i: nat | i < |fields| ensures Holds(m, fields[i], FieldValues(fields, m)[i]) {
      ReadHolds(m, fields[i]);
    }
    OverlayIs(fields, m, Junked(w, fields, world, m), FieldValues(fields, m));
  }

  lemma CalledMem<W>(x: Ctx, b: nat, co: seq<Inst>, cn: seq<Inst>, k: nat, so': State<W>, sn': State<W>, org: seq<Value>)
    requires Here(x, b, co, cn, k) && |org| == |x.fields| && co[k].OldCall? && |so'.mem| == x.size
    requires b in sn'.results && sn'.results[b] == FieldValues(x.fields, so'.mem)
    requires RestSame(x.fields, so'.mem, sn'.mem) && (x.escapes ==> sn'.mem == so'.mem)
    ensures MemRel(x, b, co, cn, k + 1, so', sn', org) && Fresh(x, b, co, k + 1, so', sn')
  {
    var k' := k + 1;
    assert !NoCallret(co, 0, k');
    forall i: nat | i < |x.fields| ensures Slot(x, b, co, cn, k', so', sn', org, i) {
      ReadHolds(so'.mem, x.fields[i]);
    }
    assert !NoWrite(co, 0, k');
  }

  lemma StepCall<W>(w: World<W>, x: Ctx, b: nat, co: seq<Inst>, cn: seq<Inst>, k: nat, so: State<W>, sn: State<W>, org: seq<Value>)
    requires Here(x, b, co, cn, k) && Rel(x, b, co, cn, k, so, sn, org) && co[k].OldCall?
    ensures Rel(x, b, co, cn, k + 1, Step(w, x.fields, so, b, co[k]), Step(w, x.fields, sn, b, cn[k]), org)
  {
    assert InstPromoted(x, b, co, cn, k);
    Handed(x, b, co, cn, k, so, sn, org, cn[k].vals);
    hide Original, BlockPromoted, NoHazard, Fresh, RestSame, Slot, PhisReady, ValsOk, FieldsOk;
    var so', sn' := Step(w, x.fields, so, b, co[k]), Step(w, x.fields, sn, b, cn[k]);
    SpillRestores(w, x.fields, so'.world, so'.mem);
    RestRefl(x.fields, so'.mem);
    CalledMem(x, b, co, cn, k, so', sn', org);
    PhisKept(x, b, cn, sn, sn');
  }

  lemma RestRefl(fields: seq<Field>, m: Value)
    ensures RestSame(fields, m, m)
  {
  }

  lemma StepLeave<W>(w: World<W>, x: Ctx, b: nat, co: seq<Inst>, cn: seq<Inst>, k: nat, so: State<W>, sn: State<W>, org: seq<Value>)
    requires Here(x, b, co, cn, k) && Rel(x, b, co, cn, k, so, sn, org) && co[k].OldLeave?
    ensures Core(Step(w, x.fields, so, b, co[k]), Step(w, x.fields, sn, b, cn[k]))
  {
    assert InstPromoted(x, b, co, cn, k);
    Handed(x, b, co, cn, k, so, sn, org, cn[k].vals);
  }

  lemma StepStore<W>(w: World<W>, x: Ctx, b: nat, co: seq<Inst>, cn: seq<Inst>, j: nat, so: State<W>, sn: State<W>, org: seq<Value>)
    requires Here(x, b, co, cn, j) && Rel(x, b, co, cn, j, so, sn, org) && co[j].Store?
    ensures Rel(x, b, co, cn, j + 1, Step(w, x.fields, so, b, co[j]), Step(w, x.fields, sn, b, cn[j]), org)
  {
    assert InstPromoted(x, b, co, cn, j) && InstOk(x.size, co[j]);
    if cn[j] == co[j] {
      StepKeptStore(w, x, b, co, cn, j, so, sn, org);
    } else {
      var f: nat :| FoldedTo(x, co, cn, j, f);
      assert NoCallret(co, 0, j + 1) by {
        var k: nat :| j < k < |co| && IsCallret(co[k]) && (forall m: nat :: j < m < k ==> Passable(co, cn, j, m));
      }
      StepFoldedStore(w, x, b, co, cn, j, so, sn, org, f);
    }
  }

  lemma StepLoad<W>(w: World<W>, x: Ctx, b: nat, co: seq<Inst>, cn: seq<Inst>, j: nat, so: State<W>, sn: State<W>, org: seq<Value>)
    requires Here(x, b, co, cn, j) && Rel(x, b, co, cn, j, so, sn, org) && co[j].Load?
    ensures Rel(x, b, co, cn, j + 1, Step(w, x.fields, so, b, co[j]), Step(w, x.fields, sn, b, cn[j]), org)
  {
    hide Original, BlockPromoted, NoHazard, FieldsOk, MemRel, Fresh, PhisReady;
    LoadedSame(x, b, co, cn, j, so, sn, org);
    StepQuiet(x, b, co, cn, j, so, sn, Step(w, x.fields, so, b, co[j]), Step(w, x.fields, sn, b, cn[j]), org,
      co[j].dst, Read(so.mem, co[j].off, co[j].size), so.world);
  }

  lemma StepOther<W>(w: World<W>, x: Ctx, b: nat, co: seq<Inst>, cn: seq<Inst>, j: nat, so: State<W>, sn: State<W>, org: seq<Value>)
    requires Here(x, b, co, cn, j) && Rel(x, b, co, cn, j, so, sn, org) && (co[j].Compute? || co[j].Effect?)
    ensures Rel(x, b, co, cn, j + 1, Step(w, x.fields, so, b, co[j]), Step(w, x.fields, sn, b, cn[j]), org)
  {
    assert InstPromoted(x, b, co, cn, j);
    hide Original, BlockPromoted, NoHazard, FieldsOk, MemRel, Fresh, PhisReady;
    var so' := Step(w, x.fields, so, b, co[j]);
    StepQuiet(x, b, co, cn, j, so, sn, so', Step(w, x.fields, sn, b, cn[j]), org, co[j].dst, so'.env[co[j].dst], so'.world);
  }

  lemma StepAny<W>(w: World<W>, x: Ctx, b: nat, co: seq<Inst>, cn: seq<Inst>, j: nat, so: State<W>, sn: State<W>, org: seq<Value>)
    requires Here(x, b, co, cn, j) && Rel(x, b, co, cn, j, so, sn, org)
    ensures Core(Step(w, x.fields, so, b, co[j]), Step(w, x.fields, sn, b, cn[j]))
    ensures !co[j].OldLeave? ==> Rel(x, b, co, cn, j + 1, Step(w, x.fields, so, b, co[j]), Step(w, x.fields, sn, b, cn[j]), org)
  {
    assert InstOk(x.size, co[j]);
    hide BlockPromoted, NoHazard, FieldsOk, MemRel, Fresh, PhisReady, Given, Step;
    match co[j]
    case Load(_, _, _) => StepLoad(w, x, b, co, cn, j, so, sn, org);
    case Store(_, _, _) => StepStore(w, x, b, co, cn, j, so, sn, org);
    case Compute(_, _, _) => StepOther(w, x, b, co, cn, j, so, sn, org);
    case Effect(_, _, _) => StepOther(w, x, b, co, cn, j, so, sn, org);
    case Helper(_, _, _) => StepHelper(w, x, b, co, cn, j, so, sn, org);
    case OldCall => StepCall(w, x, b, co, cn, j, so, sn, org);
    case OldLeave(_) => StepLeave(w, x, b, co, cn, j, so, sn, org);
  }
}
