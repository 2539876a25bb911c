/**
 * The conversion along whole paths, with conditions on the original function
 * alone: what is promised where no field is torn, and that it fails otherwise,
 * as long as the values that the function stores have nothing to do with each other.
 */
module PromoteExact {
  import opened PromoteIR
  import opened PromoteSpec
  import opened PromoteProof
  import opened PromoteTheorem
  import opened ConvertSpec
  import opened PromoteHazard

  /** What ChangeCallConv promises about its result. */
  ghost predicate Converted(x: Ctx, f: Fn, g: Fn) {
    Promoted(x, f, g) && forall b: nat :: b < |f.code| ==> Precise(x, b, f.code[b], g.code[b])
  }

  ghost predicate WholeOn(fields: seq<Field>, f: Fn, path: seq<nat>) {
    forall y :: 0 <= y < |path| ==> path[y] < |f.code| && Whole(fields, f.code[path[y]])
  }

  /**
   * The main result: along every path on which the original function tears no
   * field, in every world, the converted function computes the same values and
   * hands over the same struct at every call and return, in both modes.
   */
  lemma CallConvPreserved<W>(w: World<W>, x: Ctx, f: Fn, g: Fn, path: seq<nat>, so: State<W>, sn: State<W>)
    requires Converted(x, f, g) && IsPath(f, path) && WholeOn(x.fields, f, path) && Entered(x, so, sn)
    ensures Core(Run(w, f, x.fields, path, so), Run(w, g, x.fields, path, sn))
  {
    forall y | 0 <= y < |path| ensures NoHazard(x, f.code[path[y]], g.code[path[y]]) {
      BlockIff(x, f, g, path[y]);
    }
    hide Promoted, IsPath, WholeOn, Entered, NoHazard, Core, Between, SourcesOk, Run;
    PathPreserved(w, x, f, g, path, so, sn);
  }

  lemma BlockIff(x: Ctx, f: Fn, g: Fn, b: nat)
    requires Converted(x, f, g) && b < |f.code|
    ensures |g.code| == |f.code| && (NoHazard(x, f.code[b], g.code[b]) <==> Whole(x.fields, f.code[b]))
    ensures FieldsOk(x.fields, x.size) && Original(x.size, f.code[b]) && BlockPromoted(x, b, f.code[b], g.code[b])
  {
    hide NoHazard, Whole, BlockPromoted, Original, Precise;
    TornIff(x, b, f.code[b], g.code[b]);
  }

  /** If the struct pointer does not escape, no store gets in the way of a folded one: it would touch a field. */
  lemma NoHazardWithoutEscape(x: Ctx, f: Fn, g: Fn, b: nat)
    requires Promoted(x, f, g) && !x.escapes && b < |f.code|
    ensures NoHazard(x, f.code[b], g.code[b])
  {
    var co, cn := f.code[b], g.code[b];
    forall t: nat, m: nat, i: nat ensures !Hazard(x, co, cn, t, m, i) {
      if Hazard(x, co, cn, t, m, i) {
        KeptHarms(x, b, co, cn, t, m, i);
        assert false;
      }
    }
  }

  /** On the original alone: without escape no field is torn. */
  lemma WholeWithoutEscape(x: Ctx, f: Fn, g: Fn, b: nat)
    requires Converted(x, f, g) && !x.escapes && b < |f.code|
    ensures Whole(x.fields, f.code[b])
  {
    BlockIff(x, f, g, b);
    NoHazardWithoutEscape(x, f, g, b);
  }

  lemma KeptHarms(x: Ctx, b: nat, co: seq<Inst>, cn: seq<Inst>, t: nat, m: nat, i: nat)
    requires BlockPromoted(x, b, co, cn) && Hazard(x, co, cn, t, m, i)
    ensures m < |cn| && !Harmless(x.fields, cn[m])
  {
    assert InstPromoted(x, b, co, cn, m);
  }

  // ------------------------------------------------------ unrelated values

  predicate Acts(i: Inst) {
    i.Compute? || i.Effect? || i.Helper?
  }

  ghost predicate Has(f: Fn, b: nat, j: nat) {
    b < |f.code| && j < |f.code[b]|
  }

  /** No value that is loaded from the struct is stored there, and each computed value has an operation of its own. */
  ghost predicate Independent(f: Fn) {
    forall b: nat, j: nat, b': nat, j': nat :: Has(f, b, j) && Has(f, b', j') ==> Unrelated(f.code[b][j], f.code[b'][j'])
  }

  predicate Unrelated(i: Inst, i': Inst) {
    && (i.Store? && i'.Load? ==> i.src != Ssa(i'.dst))
    && (Acts(i) && Acts(i') && i.dst != i'.dst ==> i.id != i'.id)
  }

  /** The operations that give a value. */
  ghost function IdsOf(f: Fn, name: nat): set<nat> {
    set b, j | 0 <= b < |f.code| && 0 <= j < |f.code[b]| && Acts(f.code[b][j]) && f.code[b][j].dst == name :: f.code[b][j].id
  }

  ghost predicate FnApart(h: Fn, ids: set<nat>, names: set<nat>, name: nat) {
    forall b: nat, j: nat :: Has(h, b, j) ==> KeepsApart(h.code[b][j], ids, names, name)
  }

  lemma OldApart(size: nat, f: Fn, b0: nat, name: nat)
    requires OriginalFn(size, f) && Independent(f) && b0 < |f.code| && name in Sources(f.code[b0])
    ensures FnApart(f, IdsOf(f, name), Sources(f.code[b0]), name)
  {
    forall b: nat, j: nat | Has(f, b, j) ensures KeepsApart(f.code[b][j], IdsOf(f, name), Sources(f.code[b0]), name) {
      OldInstApart(size, f, b0, name, b, j);
    }
  }

  lemma OldInstApart(size: nat, f: Fn, b0: nat, name: nat, b: nat, j: nat)
    requires OriginalFn(size, f) && Independent(f) && b0 < |f.code| && Has(f, b, j)
    ensures KeepsApart(f.code[b][j], IdsOf(f, name), Sources(f.code[b0]), name)
  {
    var inst, names := f.code[b][j], Sources(f.code[b0]);
    assert Original(size, f.code[b]);
    assert InstOk(size, inst);
    hide OriginalFn, Original;
    if inst.Load? { NotStored(f, b0, b, j); }
    if Acts(inst) && inst.dst != name { NotItsId(f, name, b, j); }
  }

  lemma NotStored(f: Fn, b0: nat, b: nat, j: nat)
    requires Independent(f) && b0 < |f.code| && Has(f, b, j) && f.code[b][j].Load?
    ensures f.code[b][j].dst !in Sources(f.code[b0])
  {
    forall m | 0 <= m < |f.code[b0]| && f.code[b0][m].Store? ensures f.code[b0][m].src != Ssa(f.code[b][j].dst) {
      assert Has(f, b0, m);
      assert Unrelated(f.code[b0][m], f.code[b][j]);
    }
  }

  lemma NotItsId(f: Fn, name: nat, b: nat, j: nat)
    requires Independent(f) && Has(f, b, j) && Acts(f.code[b][j]) && f.code[b][j].dst != name
    ensures f.code[b][j].id !in IdsOf(f, name)
  {
    forall b', j' | 0 <= b' < |f.code| && 0 <= j' < |f.code[b']| && Acts(f.code[b'][j']) && f.code[b'][j'].dst == name
      ensures f.code[b'][j'].id != f.code[b][j].id
    {
      assert Has(f, b', j');
      assert Unrelated(f.code[b][j], f.code[b'][j']);
    }
  }

  lemma NewApart(x: Ctx, f: Fn, g: Fn, ids: set<nat>, names: set<nat>, name: nat)
    requires Promoted(x, f, g) && FnApart(f, ids, names, name)
    ensures FnApart(g, ids, names, name)
  {
    forall b: nat, j: nat | Has(g, b, j) ensures KeepsApart(g.code[b][j], ids, names, name) {
      assert BlockPromoted(x, b, f.code[b], g.code[b]) && Has(f, b, j);
      NewInstApart(x, b, f.code[b], g.code[b], j, ids, names, name);
    }
  }

  lemma NewInstApart(x: Ctx, b: nat, co: seq<Inst>, cn: seq<Inst>, j: nat, ids: set<nat>, names: set<nat>, name: nat)
    requires BlockPromoted(x, b, co, cn) && j < |co| && KeepsApart(co[j], ids, names, name)
    ensures KeepsApart(cn[j], ids, names, name)
  {
    assert InstPromoted(x, b, co, cn, j);
  }

  // ------------------------------------------------------ along a path

  ghost predicate TellingState(n: nat, names: set<nat>, name: nat, s: State<int>) {
    |s.mem| == n && Tells(n, names, name, s.env)
  }

  lemma {:induction false} ExecTells(n: nat, ids: set<nat>, fields: seq<Field>, s: State<int>, b: nat, h: Fn, j: nat,
      names: set<nat>, name: nat)
    requires b < |h.code| && j <= |h.code[b]| && FnApart(h, ids, names, name) && name in names && TellingState(n, names, name, s)
    ensures TellingState(n, names, name, Exec(Marked(n, ids), fields, s, b, h.code[b], j))
  {
    hide Marked, Step, KeepsApart, Tells;
    if j > 0 {
      ExecTells(n, ids, fields, s, b, h, j - 1, names, name);
      assert Has(h, b, j - 1);
      StepTells(n, ids, fields, Exec(Marked(n, ids), fields, s, b, h.code[b], j - 1), b, h.code[b][j - 1], names, name);
    }
  }

  /** The state at the beginning of the last block of a path. */
  ghost function Arrived<W>(w: World<W>, f: Fn, fields: seq<Field>, path: seq<nat>, s: State<W>): State<W>
    requires |path| > 0 && forall y :: 0 <= y < |path| ==> path[y] < |f.code|
  {
    if |path| == 1 then Begin(f, fields, s)
    else Enter(f, fields, Run(w, f, fields, path[..|path| - 1], s), path[|path| - 2], path[|path| - 1])
  }

  lemma {:induction false} ArrivedTells(n: nat, ids: set<nat>, fields: seq<Field>, s: State<int>, h: Fn,
      path: seq<nat>, names: set<nat>, name: nat)
    requires |path| > 0 && (forall y :: 0 <= y < |path| ==> path[y] < |h.code|)
    requires FnApart(h, ids, names, name) && name in names && TellingState(n, names, name, s)
    ensures TellingState(n, names, name, Arrived(Marked(n, ids), h, fields, path, s))
    decreases |path|
  {
    hide Marked, Exec, FnApart, Tells;
    if |path| > 1 {
      var before := path[..|path| - 1];
      ArrivedTells(n, ids, fields, s, h, before, names, name);
      var b := before[|before| - 1];
      ExecTells(n, ids, fields, Arrived(Marked(n, ids), h, fields, before, s), b, h, |h.code[b]|, names, name);
    }
  }

  // ------------------------------------------------------ what is seen

  /** `a` is how `b` begins. */
  ghost predicate Begins<T>(a: seq<T>, b: seq<T>) {
    |a| <= |b| && forall y :: 0 <= y < |a| ==> b[y] == a[y]
  }

  lemma {:induction false} ExecSeen<W>(w: World<W>, fields: seq<Field>, s: State<W>, b: nat, code: seq<Inst>, lo: nat, hi: nat)
    requires lo <= hi <= |code|
    ensures Begins(Exec(w, fields, s, b, code, lo).seen, Exec(w, fields, s, b, code, hi).seen)
    decreases hi
  {
    hide Step;
    if lo < hi {
      ExecSeen(w, fields, s, b, code, lo, hi - 1);
      StepSeen(w, fields, Exec(w, fields, s, b, code, hi - 1), b, code[hi - 1]);
    }
  }

  lemma StepSeen<W>(w: World<W>, fields: seq<Field>, s: State<W>, b: nat, inst: Inst)
    ensures Begins(s.seen, Step(w, fields, s, b, inst).seen)
    ensures |Step(w, fields, s, b, inst).seen| == |s.seen| + if IsCallret(inst) || inst.NewCall? || inst.NewLeave? then 1 else 0
  {
  }

  /** As many observations in both. */
  lemma {:induction false} ExecCount<W>(w: World<W>, x: Ctx, so: State<W>, sn: State<W>, b: nat, co: seq<Inst>, cn: seq<Inst>, j: nat)
    requires Original(x.size, co) && BlockPromoted(x, b, co, cn) && j <= |co| && |so.seen| == |sn.seen|
    ensures |Exec(w, x.fields, so, b, co, j).seen| == |Exec(w, x.fields, sn, b, cn, j).seen|
  {
    hide Step, BlockPromoted, Original;
    if j > 0 {
      ExecCount(w, x, so, sn, b, co, cn, j - 1);
      SameKind(x, b, co, cn, j - 1);
      StepSeen(w, x.fields, Exec(w, x.fields, so, b, co, j - 1), b, co[j - 1]);
      StepSeen(w, x.fields, Exec(w, x.fields, sn, b, cn, j - 1), b, cn[j - 1]);
    }
  }

  lemma SameKind(x: Ctx, b: nat, co: seq<Inst>, cn: seq<Inst>, j: nat)
    requires Original(x.size, co) && BlockPromoted(x, b, co, cn) && j < |co|
    ensures |cn| == |co| && !co[j].NewCall? && !co[j].NewLeave? && !IsCallret(cn[j])
    ensures IsCallret(co[j]) <==> cn[j].NewCall? || cn[j].NewLeave?
  {
    assert InstPromoted(x, b, co, cn, j) && InstOk(x.size, co[j]);
  }

  lemma {:induction false} ArrivedCount<W>(w: World<W>, x: Ctx, f: Fn, g: Fn, path: seq<nat>, so: State<W>, sn: State<W>)
    requires Promoted(x, f, g) && |path| > 0 && (forall y :: 0 <= y < |path| ==> path[y] < |f.code|) && |so.seen| == |sn.seen|
    ensures |Arrived(w, f, x.fields, path, so).seen| == |Arrived(w, g, x.fields, path, sn).seen|
    decreases |path|
  {
    hide Exec, InstPromoted, Original, PhisExist, Wired;
    if |path| > 1 {
      var before := path[..|path| - 1];
      ArrivedCount(w, x, f, g, before, so, sn);
      var b := before[|before| - 1];
      RunEnds(w, f, x.fields, before, so);
      RunEnds(w, g, x.fields, before, sn);
      RunEnds(w, f, x.fields, path, so);
      RunEnds(w, g, x.fields, path, sn);
      assert BlockPromoted(x, b, f.code[b], g.code[b]) && Original(x.size, f.code[b]);
      ExecCount(w, x, Arrived(w, f, x.fields, before, so), Arrived(w, g, x.fields, before, sn), b, f.code[b], g.code[b], |f.code[b]|);
    }
  }

  lemma {:induction false} RunSeen<W>(w: World<W>, f: Fn, fields: seq<Field>, path: seq<nat>, y: nat, s: State<W>)
    requires y < |path| && forall z :: 0 <= z < |path| ==> path[z] < |f.code|
    ensures Begins(Run(w, f, fields, path[..y + 1], s).seen, Run(w, f, fields, path, s).seen)
    decreases |path|
  {
    if y + 1 == |path| {
      assert path[..y + 1] == path;
    } else {
      var before, b := path[..|path| - 1], path[|path| - 1];
      RunSeen(w, f, fields, before, y, s);
      assert before[..y + 1] == path[..y + 1];
      hide Run;
      RunEnds(w, f, fields, path, s);
      ExecSeen(w, fields, Arrived(w, f, fields, path, s), b, f.code[b], 0, |f.code[b]|);
    }
  }

  lemma RunEnds<W>(w: World<W>, f: Fn, fields: seq<Field>, path: seq<nat>, s: State<W>)
    requires |path| > 0 && forall z :: 0 <= z < |path| ==> path[z] < |f.code|
    ensures var b := path[|path| - 1];
      Run(w, f, fields, path, s) == Exec(w, fields, Arrived(w, f, fields, path, s), b, f.code[b], |f.code[b]|)
    ensures |path| > 1 ==> Arrived(w, f, fields, path, s).seen == Run(w, f, fields, path[..|path| - 1], s).seen
  {
    hide Exec;
  }

  // ------------------------------------------------------ the difference

  lemma {:induction false} SegExec<W>(w: World<W>, fields: seq<Field>, s: State<W>, b: nat, co: seq<Inst>, t: nat, k: nat)
    requires t <= k <= |co|
    ensures Seg(w, fields, Exec(w, fields, s, b, co, t), b, co, t, k) == Exec(w, fields, s, b, co, k)
  {
    hide Step;
    if t < k {
      SegExec(w, fields, s, b, co, t, k - 1);
    }
  }

  /** The value that the call or return at `k` takes for field `i` is that of the folded store. */
  lemma FoldedValue(x: Ctx, b: nat, co: seq<Inst>, cn: seq<Inst>, t: nat, k: nat, i: nat)
    requires Spot(x, b, co, cn, t, k, i)
    ensures (cn[k].NewCall? || cn[k].NewLeave?) && |cn[k].vals| == |x.fields| && cn[k].vals[i] == co[t].src
  {
    assert InstPromoted(x, b, co, cn, k);
    var vals := cn[k].vals;
    assert ValOk(x, b, co, cn, k, i, vals[i]);
    var t': nat :| t' < k && FoldedTo(x, co, cn, t', i) && vals[i] == co[t'].src;
    if t < t' { FoldedOnce(x, b, co, cn, t, t', k, i); } else if t' < t { FoldedOnce(x, b, co, cn, t', t, k, i); }
  }

  lemma FoldedOnce(x: Ctx, b: nat, co: seq<Inst>, cn: seq<Inst>, t: nat, t': nat, k: nat, i: nat)
    requires Original(x.size, co) && BlockPromoted(x, b, co, cn) && t < t' < k < |co| && IsCallret(co[k]) && FoldedTo(x, co, cn, t, i)
    ensures !FoldedTo(x, co, cn, t', i)
  {
    var k', i' := FoldedStore(x, b, co, cn, t);
    assert k' == k;
    assert Passable(co, cn, t, t');
  }

  /** What the converted function hands over in byte `a`. */
  lemma NewByte(x: Ctx, b: nat, co: seq<Inst>, cn: seq<Inst>, t: nat, k: nat, i: nat, w: World<int>, sn: State<int>, a: nat)
    requires Spot(x, b, co, cn, t, k, i) && Within(x.fields, i, a) && a < x.size == |sn.mem|
    requires Named(sn.env, co[t].src.name) == Ramp(x.size)
    ensures var seen := Step(w, x.fields, sn, b, cn[k]).seen;
      |seen| == |sn.seen| + 1 && |seen[|sn.seen|].1| == x.size && seen[|sn.seen|].1[a] == a - x.fields[i].off
  {
    FoldedValue(x, b, co, cn, t, k, i);
    OwnerIs(x.fields, x.size, i, a);
    hide Original, BlockPromoted, FieldsOk;
    var vals := EvalAll(x.fields, sn, cn[k].vals);
    assert vals[i] == Ramp(x.size);
    assert Overlay(x.fields, sn.mem, vals)[a] == OverlayAt(x.fields, sn.mem, vals, a);
  }

  /** A torn field is a hazard of the converted block, and the last one counts. */
  lemma LastTear(x: Ctx, f: Fn, g: Fn, b: nat, t: nat, m: nat, k: nat, i: nat) returns (last: nat)
    requires Converted(x, f, g) && b < |f.code| && Torn(x.fields, f.code[b], t, m, k, i)
    ensures |g.code| == |f.code| && Spot(x, b, f.code[b], g.code[b], t, k, i) && last < k && Hazard(x, f.code[b], g.code[b], t, last, i)
    ensures forall m': nat :: last < m' < k ==> !Hazard(x, f.code[b], g.code[b], t, m', i)
  {
    BlockIff(x, f, g, b);
    assert Precise(x, b, f.code[b], g.code[b]);
    hide Converted, Original, BlockPromoted, FieldsOk, Precise, NoHazard, Whole;
    TornIsHazard(x, b, f.code[b], g.code[b], t, m, k, i);
    last := LastHazard(x, f.code[b], g.code[b], t, i, m, k);
  }

  lemma BlockApart(f: Fn, b: nat, t: nat, k: nat, ids: set<nat>, name: nat)
    requires b < |f.code| && k <= |f.code[b]| && FnApart(f, ids, Sources(f.code[b]), name)
    ensures AllApart(f.code[b], t, k, ids, name)
  {
    hide Sources, KeepsApart;
    forall j | t < j < k ensures KeepsApart(f.code[b][j], ids, Sources(f.code[b]), name) {
      assert Has(f, b, j);
    }
  }

  /** What the original function hands over in a byte of the torn field. */
  lemma OldByte(x: Ctx, f: Fn, b: nat, cn: seq<Inst>, t: nat, k: nat, i: nat, last: nat, ids: set<nat>, so: State<int>)
    requires b < |f.code| && Spot(x, b, f.code[b], cn, t, k, i) && last < k && Hazard(x, f.code[b], cn, t, last, i)
    requires forall m': nat :: last < m' < k ==> !Hazard(x, f.code[b], cn, t, m', i)
    requires FnApart(f, ids, Sources(f.code[b]), f.code[b][t].src.name)
    requires TellingState(x.size, Sources(f.code[b]), f.code[b][t].src.name, so)
    ensures var a, s' := Touched(x.fields[i], f.code[b][last]), Exec(Marked(x.size, ids), x.fields, so, b, f.code[b], k);
      Within(x.fields, i, a) && a < x.size == |s'.mem| && s'.mem[a] != a - x.fields[i].off
  {
    var co, name, w := f.code[b], f.code[b][t].src.name, Marked(x.size, ids);
    assert name in Sources(co);
    BlockApart(f, b, t, k, ids, name);
    hide FnApart, Original, BlockPromoted, FieldsOk, Marked, Sources, AllApart, Exec, Seg, Hazard;
    ExecTells(x.size, ids, x.fields, so, b, f, t, Sources(co), name);
    LostAt(x, b, co, cn, t, k, i, last, ids, Exec(w, x.fields, so, b, co, t));
    SegExec(w, x.fields, so, b, co, t, k);
  }

  /** In a block with a torn field the two functions are seen to hand over different structs. */
  lemma BlockDiffers(x: Ctx, f: Fn, g: Fn, b: nat, t: nat, m: nat, k: nat, i: nat, ids: set<nat>, so: State<int>, sn: State<int>)
    requires Converted(x, f, g) && b < |f.code| && Torn(x.fields, f.code[b], t, m, k, i) && f.code[b][t].src.Ssa?
    requires f.code[b][t].src.name in Sources(f.code[b])
    requires FnApart(f, ids, Sources(f.code[b]), f.code[b][t].src.name) && FnApart(g, ids, Sources(f.code[b]), f.code[b][t].src.name)
    requires TellingState(x.size, Sources(f.code[b]), f.code[b][t].src.name, so)
    requires TellingState(x.size, Sources(f.code[b]), f.code[b][t].src.name, sn)
    requires |so.seen| == |sn.seen|
    ensures |g.code| == |f.code| && |g.code[b]| == |f.code[b]|
    ensures var w := Marked(x.size, ids);
      SeenApart(Exec(w, x.fields, so, b, f.code[b], k + 1).seen, Exec(w, x.fields, sn, b, g.code[b], k + 1).seen)
  {
    var co, name, w := f.code[b], f.code[b][t].src.name, Marked(x.size, ids);
    hide Converted, FnApart, Original, InstPromoted, Harmless, FieldsOk, Marked, Sources, Step, Hazard, TellingState,
      Touched, FoldedTo, SeenApart, Within;
    var last := LastTear(x, f, g, b, t, m, k, i);
    var cn := g.code[b];
    ExecCount(w, x, so, sn, b, co, cn, k);
    OldByte(x, f, b, cn, t, k, i, last, ids, so);
    ExecTells(x.size, ids, x.fields, sn, b, g, k, Sources(co), name);
    var os, ns := Exec(w, x.fields, so, b, co, k), Exec(w, x.fields, sn, b, cn, k);
    var a := Touched(x.fields[i], co[last]);
    TellsValue(x.size, Sources(co), name, ns);
    NewByte(x, b, co, cn, t, k, i, w, ns, a);
    OldEvent(w, x.fields, os, b, co[k]);
    var oseen, nseen := Step(w, x.fields, os, b, co[k]).seen, Step(w, x.fields, ns, b, cn[k]).seen;
    assert oseen[|os.seen|].1[a] != nseen[|ns.seen|].1[a];
    ApartIs(oseen, nseen);
  }

  lemma TellsValue(n: nat, names: set<nat>, name: nat, s: State<int>)
    requires TellingState(n, names, name, s)
    ensures |s.mem| == n && Named(s.env, name) == Ramp(n)
  {
  }

  lemma OldEvent(w: World<int>, fields: seq<Field>, s: State<int>, b: nat, inst: Inst)
    requires IsCallret(inst)
    ensures Step(w, fields, s, b, inst).seen == s.seen + [(s.world, s.mem)]
  {
  }

  ghost function EnterOld(x: Ctx, co: seq<Inst>, name: nat): State<int> {
    Start(x.size, co, name)
  }

  ghost function EnterNew(x: Ctx, co: seq<Inst>, name: nat): State<int> {
    Start(x.size, co, name).(params := FieldValues(x.fields, Minus(x.size)))
  }

  lemma EnteredSo(x: Ctx, co: seq<Inst>, name: nat)
    requires name in Sources(co)
    ensures var so, sn := EnterOld(x, co, name), EnterNew(x, co, name);
      Entered(x, so, sn) && TellingState(x.size, Sources(co), name, so) && TellingState(x.size, Sources(co), name, sn)
  {
    StartTells(x.size, co, name);
    hide Sources;
  }

  lemma ApartBoth(x: Ctx, f: Fn, g: Fn, b: nat, name: nat)
    requires Promoted(x, f, g) && Independent(f) && b < |f.code| && name in Sources(f.code[b])
    ensures FnApart(f, IdsOf(f, name), Sources(f.code[b]), name) && FnApart(g, IdsOf(f, name), Sources(f.code[b]), name)
  {
    hide FnApart, Sources, IdsOf, Independent, OriginalFn, BlockPromoted, PhisExist;
    OldApart(x.size, f, b, name);
    NewApart(x, f, g, IdsOf(f, name), Sources(f.code[b]), name);
  }

  lemma StoredName(x: Ctx, f: Fn, g: Fn, b: nat, t: nat, m: nat, k: nat, i: nat)
    requires Converted(x, f, g) && b < |f.code| && Torn(x.fields, f.code[b], t, m, k, i)
    ensures t < |f.code[b]| && f.code[b][t].Store? && f.code[b][t].src.Ssa? &&
      f.code[b][t].src.name in Sources(f.code[b]) && k + 1 <= |f.code[b]|
    ensures Promoted(x, f, g) && |g.code| == |f.code|
  {
    assert Original(x.size, f.code[b]);
    assert InstOk(x.size, f.code[b][t]);
  }

  /**
   * Torn fields do harm: on every path that ends in such a block, some world and
   * entry make the converted function hand over a different struct.
   */
  lemma TornHurts(x: Ctx, f: Fn, g: Fn, path: seq<nat>, t: nat, m: nat, k: nat, i: nat)
    returns (w: World<int>, so: State<int>, sn: State<int>)
    requires Converted(x, f, g) && Independent(f) && IsPath(f, path) && Torn(x.fields, f.code[path[|path| - 1]], t, m, k, i)
    ensures Entered(x, so, sn) && |g.code| == |f.code|
    ensures SeenApart(Run(w, f, x.fields, path, so).seen, Run(w, g, x.fields, path, sn).seen)
  {
    hide Converted, FnApart, Marked, Sources, IdsOf, Torn, Independent, EnterOld, EnterNew, Entered, Exec, Run,
      Arrived, Promoted, TellingState, SeenApart;
    var b := path[|path| - 1];
    var co := f.code[b];
    StoredName(x, f, g, b, t, m, k, i);
    var name := co[t].src.name;
    var ids := IdsOf(f, name);
    w, so, sn := Marked(x.size, ids), EnterOld(x, co, name), EnterNew(x, co, name);
    EnteredSo(x, co, name);
    ApartBoth(x, f, g, b, name);
    ArrivedTells(x.size, ids, x.fields, so, f, path, Sources(co), name);
    ArrivedTells(x.size, ids, x.fields, sn, g, path, Sources(co), name);
    SeenFrom(x, so, sn);
    ArrivedCount(w, x, f, g, path, so, sn);
    BlockDiffers(x, f, g, b, t, m, k, i, ids, Arrived(w, f, x.fields, path, so), Arrived(w, g, x.fields, path, sn));
    ToTheEnd(x, f, g, path, k, w, so, sn);
  }

  lemma SeenFrom(x: Ctx, so: State<int>, sn: State<int>)
    requires Entered(x, so, sn)
    ensures |so.seen| == |sn.seen|
  {
  }

  ghost predicate SeenApart<T>(a: seq<T>, b: seq<T>) {
    |a| == |b| && a != b
  }

  lemma ApartStays<T>(a: seq<T>, b: seq<T>, a': seq<T>, b': seq<T>)
    requires SeenApart(a, b) && Begins(a, a') && Begins(b, b')
    ensures a' != b'
  {
    var y :| 0 <= y < |a| && a[y] != b[y];
    assert a'[y] == a[y] && b'[y] == b[y];
  }

  /** What was seen stays seen. */
  lemma ToTheEnd(x: Ctx, f: Fn, g: Fn, path: seq<nat>, k: nat, w: World<int>, so: State<int>, sn: State<int>)
    requires Promoted(x, f, g) && IsPath(f, path)
    requires var b, ao, an := path[|path| - 1], Arrived(w, f, x.fields, path, so), Arrived(w, g, x.fields, path, sn);
      && |ao.seen| == |an.seen| && k + 1 <= |f.code[b]| == |g.code[b]|
      && SeenApart(Exec(w, x.fields, ao, b, f.code[b], k + 1).seen, Exec(w, x.fields, an, b, g.code[b], k + 1).seen)
    ensures SeenApart(Run(w, f, x.fields, path, so).seen, Run(w, g, x.fields, path, sn).seen)
  {
    var b, ao, an := path[|path| - 1], Arrived(w, f, x.fields, path, so), Arrived(w, g, x.fields, path, sn);
    assert BlockPromoted(x, b, f.code[b], g.code[b]) && Original(x.size, f.code[b]);
    hide BlockPromoted, Original, Promoted, Exec, Run, Arrived, IsPath, SeenApart, Begins;
    RunEnds(w, f, x.fields, path, so);
    RunEnds(w, g, x.fields, path, sn);
    ExecSeen(w, x.fields, ao, b, f.code[b], k + 1, |f.code[b]|);
    ExecSeen(w, x.fields, an, b, g.code[b], k + 1, |g.code[b]|);
    ExecCount(w, x, ao, an, b, f.code[b], g.code[b], |f.code[b]|);
    ApartStays(Exec(w, x.fields, ao, b, f.code[b], k + 1).seen, Exec(w, x.fields, an, b, g.code[b], k + 1).seen,
               Run(w, f, x.fields, path, so).seen, Run(w, g, x.fields, path, sn).seen);
    ApartIs(Run(w, f, x.fields, path, so).seen, Run(w, g, x.fields, path, sn).seen);
  }

  lemma ApartIs<T>(a: seq<T>, b: seq<T>)
    requires |a| == |b| && a != b
    ensures SeenApart(a, b)
  {
  }

  /**
   * For a function whose stored values are unrelated: along a path the
   * conversion is right, in every world and from every entry, if and only if
   * the original function tears no field on it.
   */
  lemma PreservedIff(x: Ctx, f: Fn, g: Fn, path: seq<nat>)
    requires Converted(x, f, g) && Independent(f) && IsPath(f, path)
    ensures WholeOn(x.fields, f, path) <==>
      (forall w: World<int>, so: State<int>, sn: State<int> :: Entered(x, so, sn) ==>
         Core(Run(w, f, x.fields, path, so), Run(w, g, x.fields, path, sn)))
  {
    assert |g.code| == |f.code|;
    if WholeOn(x.fields, f, path) {
      forall w: World<int>, so: State<int>, sn: State<int> | Entered(x, so, sn)
        ensures Core(Run(w, f, x.fields, path, so), Run(w, g, x.fields, path, sn))
      {
        hide Converted, IsPath, WholeOn, Entered, Core, Run;
        CallConvPreserved(w, x, f, g, path, so, sn);
      }
    } else {
      var y, t: nat, m: nat, k: nat, i: nat :| 0 <= y < |path| && Torn(x.fields, f.code[path[y]], t, m, k, i);
      var w, so, sn := TornOnPath(x, f, g, path, y, t, m, k, i);
      assert Entered(x, so, sn) && !Core(Run(w, f, x.fields, path, so), Run(w, g, x.fields, path, sn));
    }
  }

  lemma TornOnPath(x: Ctx, f: Fn, g: Fn, path: seq<nat>, y: nat, t: nat, m: nat, k: nat, i: nat)
    returns (w: World<int>, so: State<int>, sn: State<int>)
    requires Converted(x, f, g) && Independent(f) && IsPath(f, path) && y < |path| && Torn(x.fields, f.code[path[y]], t, m, k, i)
    ensures |g.code| == |f.code| && Entered(x, so, sn) && !Core(Run(w, f, x.fields, path, so), Run(w, g, x.fields, path, sn))
  {
    assert |g.code| == |f.code|;
    var upto := path[..y + 1];
    assert IsPath(f, upto) && upto[|upto| - 1] == path[y];
    hide Converted, Torn, Independent, Entered, Run, SeenApart, Begins;
    w, so, sn := TornHurts(x, f, g, upto, t, m, k, i);
    RunSeen(w, f, x.fields, path, y, so);
    RunSeen(w, g, x.fields, path, y, sn);
    ApartStays(Run(w, f, x.fields, upto, so).seen, Run(w, g, x.fields, upto, sn).seen,
               Run(w, f, x.fields, path, so).seen, Run(w, g, x.fields, path, sn).seen);
  }

  // ------------------------------------------------------- related values

  const FIRST: seq<Field> := [Field(0, 8)]
  const RELATED: seq<Inst> :=
    [Load(0, 100, 8), Load(1, 101, 1), Store(0, 8, Ssa(0)), Store(1, 1, Ssa(1)), OldLeave(false)]
  const RELATED_NEW: seq<Inst> :=
    [Load(0, 100, 8), Load(1, 101, 1), Nop, Store(1, 1, Ssa(1)), NewLeave(false, [Ssa(0)])]

  ghost function Single(code: seq<Inst>, spill: bool): Fn {
    Fn([code], [[]], [[]], 0, map[], spill)
  }

  lemma RelatedOriginal()
    ensures FieldsOk(FIRST, 0x1a0) && Original(0x1a0, RELATED)
  {
  }

  lemma RelatedFolded(x: Ctx)
    requires x == Ctx(FIRST, 0x1a0, 0, true, false)
    ensures InstPromoted(x, 0, RELATED, RELATED_NEW, 2)
  {
    var co, cn := RELATED, RELATED_NEW;
    assert FoldedTo(x, co, cn, 2, 0);
    assert IsCallret(co[4]) && forall m: nat :: 2 < m < 4 ==> Passable(co, cn, 2, m);
  }

  lemma RelatedLeave(x: Ctx)
    requires x == Ctx(FIRST, 0x1a0, 0, true, false)
    ensures InstPromoted(x, 0, RELATED, RELATED_NEW, 4)
  {
    assert FoldedTo(x, RELATED, RELATED_NEW, 2, 0);
    assert ValOk(x, 0, RELATED, RELATED_NEW, 4, 0, Ssa(0));
  }

  lemma RelatedPrecise(x: Ctx)
    requires x == Ctx(FIRST, 0x1a0, 0, true, false)
    ensures Precise(x, 0, RELATED, RELATED_NEW)
  {
    hide NoWrite;
    forall j: nat, k: nat | k < |RELATED| && IsCallret(RELATED[k]) ensures !Foldable(FIRST, RELATED_NEW, j, k) {
      assert k == 4;
    }
  }

  lemma RelatedBlock(x: Ctx)
    requires x == Ctx(FIRST, 0x1a0, 0, true, false)
    ensures FieldsOk(x.fields, x.size) && Original(x.size, RELATED)
    ensures BlockPromoted(x, 0, RELATED, RELATED_NEW) && Precise(x, 0, RELATED, RELATED_NEW)
  {
    RelatedOriginal();
    RelatedPrecise(x);
    RelatedFolded(x);
    RelatedLeave(x);
    hide Original, Precise, FieldsOk, Torn, StoreFolded, ValsOk, LoadFolded;
    forall j: nat | j < 5 ensures InstPromoted(x, 0, RELATED, RELATED_NEW, j) {
      assert j == 0 || j == 1 || j == 2 || j == 3 || j == 4;
    }
  }

  lemma RelatedConverted(x: Ctx)
    requires x == Ctx(FIRST, 0x1a0, 0, true, false)
    ensures Converted(x, Single(RELATED, false), Single(RELATED_NEW, true))
  {
    var f, g := Single(RELATED, false), Single(RELATED_NEW, true);
    RelatedBlock(x);
    hide Original, BlockPromoted, Precise, FieldsOk;
    assert f.code[0] == RELATED && g.code[0] == RELATED_NEW;
  }

  /** The last struct of the original function and that of the converted one. */
  lemma RelatedStructs(m: Value)
    requires |m| == 0x1a0
    ensures var v0, v1 := Read(m, 100, 8), Read(m, 101, 1);
      Write(Write(m, 0, 8, v0), 1, 1, v1) == Overlay(FIRST, Write(m, 1, 1, v1), [v0])
  {
    var v0, v1 := Read(m, 100, 8), Read(m, 101, 1);
    var o, n := Write(Write(m, 0, 8, v0), 1, 1, v1), Overlay(FIRST, Write(m, 1, 1, v1), [v0]);
    assert FieldsOk(FIRST, 0x1a0);
    forall a: nat | a < |m| ensures o[a] == n[a] {
      if a < 8 {
        assert Within(FIRST, 0, a);
        OwnerIs(FIRST, 0x1a0, 0, a);
      } else if Owner(FIRST, a) >= 0 {
        OwnerHas(FIRST, a);
        assert false;
      }
    }
  }

  lemma RelatedRuns<W>(w: World<W>, so: State<W>, sn: State<W>)
    requires so.env == sn.env && so.world == sn.world && so.seen == sn.seen && so.mem == sn.mem && |so.mem| == 0x1a0
    ensures Core(Exec(w, FIRST, so, 0, RELATED, 5), Exec(w, FIRST, sn, 0, RELATED_NEW, 5))
  {
    RelatedStructs(so.mem);
    var v0, v1 := Read(so.mem, 100, 8), Read(so.mem, 101, 1);
    hide Overlay, Write, Read;
    var env := so.env[0 := v0][1 := v1];
    OldRun(w, so);
    NewRun(w, sn);
  }

  lemma OldRun<W>(w: World<W>, s: State<W>)
    ensures var v0, v1 := Read(s.mem, 100, 8), Read(s.mem, 101, 1); var m := Write(Write(s.mem, 0, 8, v0), 1, 1, v1);
      Exec(w, FIRST, s, 0, RELATED, 5) == s.(env := s.env[0 := v0][1 := v1], mem := m, seen := s.seen + [(s.world, m)])
  {
    hide Overlay, Write, Read;
    var c := RELATED;
    var s1 := Step(w, FIRST, s, 0, c[0]);
    var s2 := Step(w, FIRST, s1, 0, c[1]);
    var s3 := Step(w, FIRST, s2, 0, c[2]);
    var s4 := Step(w, FIRST, s3, 0, c[3]);
    assert Exec(w, FIRST, s, 0, c, 0) == s;
    assert Exec(w, FIRST, s, 0, c, 1) == s1;
    assert Exec(w, FIRST, s, 0, c, 2) == s2;
    assert Exec(w, FIRST, s, 0, c, 3) == s3;
    assert Exec(w, FIRST, s, 0, c, 4) == s4;
  }

  lemma NewRun<W>(w: World<W>, s: State<W>)
    ensures var v0, v1 := Read(s.mem, 100, 8), Read(s.mem, 101, 1); var m := Write(s.mem, 1, 1, v1);
      Exec(w, FIRST, s, 0, RELATED_NEW, 5)
      == s.(env := s.env[0 := v0][1 := v1], mem := m, seen := s.seen + [(s.world, Overlay(FIRST, m, [v0]))])
  {
    hide Overlay, Write, Read;
    var c := RELATED_NEW;
    var s1 := Step(w, FIRST, s, 0, c[0]);
    var s2 := Step(w, FIRST, s1, 0, c[1]);
    var s3 := Step(w, FIRST, s2, 0, c[2]);
    var s4 := Step(w, FIRST, s3, 0, c[3]);
    assert Exec(w, FIRST, s, 0, c, 0) == s;
    assert Exec(w, FIRST, s, 0, c, 1) == s1;
    assert Exec(w, FIRST, s, 0, c, 2) == s2;
    assert Exec(w, FIRST, s, 0, c, 3) == s3;
    assert Exec(w, FIRST, s, 0, c, 4) == s4;
    assert EvalAll(FIRST, s4, [Ssa(0)]) == [Read(s.mem, 100, 8)];
  }

  /**
   * Why the values have to be unrelated: here a field is torn, by a store of the
   * very byte that is there already, and the conversion is right all the same.
   */
  lemma RelatedValues<W>(w: World<W>, x: Ctx, so: State<W>, sn: State<W>)
    requires x == Ctx(FIRST, 0x1a0, 0, true, false) && Entered(x, so, sn)
    ensures var f, g := Single(RELATED, false), Single(RELATED_NEW, true);
      && Converted(x, f, g) && IsPath(f, [0]) && !WholeOn(x.fields, f, [0])
      && Core(Run(w, f, x.fields, [0], so), Run(w, g, x.fields, [0], sn))
  {
    hide Converted, Run, Exec, Torn, Whole, Core, Entered, IsPath;
    RelatedConverted(x);
    RelatedTorn();
    RelatedPath(w, x, so, sn);
    assert [0][0] == 0 && Single(RELATED, false).code[0] == RELATED;
  }

  lemma RelatedPath<W>(w: World<W>, x: Ctx, so: State<W>, sn: State<W>)
    requires x == Ctx(FIRST, 0x1a0, 0, true, false) && Entered(x, so, sn)
    ensures var f, g := Single(RELATED, false), Single(RELATED_NEW, true);
      IsPath(f, [0]) && Core(Run(w, f, x.fields, [0], so), Run(w, g, x.fields, [0], sn))
  {
    var f, g := Single(RELATED, false), Single(RELATED_NEW, true);
    RelatedConverted(x);
    hide Promoted, Exec, FieldsOk, Core, Entered, Precise;
    BeginOk(x, f, g, so, sn);
    RelatedRuns(w, Begin(f, x.fields, so), Begin(g, x.fields, sn));
    assert f.code[0] == RELATED && g.code[0] == RELATED_NEW && [0][0] == 0;
  }

  lemma RelatedTorn()
    ensures !Whole(FIRST, RELATED)
  {
    assert Torn(FIRST, RELATED, 2, 3, 4, 0);
  }
}
