/**
 * On every path, with everything outside arbitrary, the converted function
 * hands over at each call and return what the original has in the CPU struct.
 */
module PromoteTheorem {
  import opened PromoteIR
  import opened PromoteSpec
  import opened PromoteProof

  // ---------------------------------------------------------------- blocks

  lemma {:induction false} BlockRuns<W>(w: World<W>, x: Ctx, b: nat, co: seq<Inst>, cn: seq<Inst>, j: nat,
      so: State<W>, sn: State<W>, org: seq<Value>)
    requires FieldsOk(x.fields, x.size) && Original(x.size, co) && BlockPromoted(x, b, co, cn) && NoHazard(x, co, cn)
    requires j <= |co| == |cn| && Rel(x, b, co, cn, 0, so, sn, org)
    ensures Core(Exec(w, x.fields, so, b, co, j), Exec(w, x.fields, sn, b, cn, j))
    ensures j < |co| || !HasLeave(co) ==> Rel(x, b, co, cn, j, Exec(w, x.fields, so, b, co, j), Exec(w, x.fields, sn, b, cn, j), org)
  {
    hide Rel, FieldsOk, BlockPromoted, NoHazard, Step, Core;
    if j > 0 {
      BlockRuns(w, x, b, co, cn, j - 1, so, sn, org);
      StepAny(w, x, b, co, cn, j - 1, Exec(w, x.fields, so, b, co, j - 1), Exec(w, x.fields, sn, b, cn, j - 1), org);
    } else {
      RelCore(x, b, co, cn, so, sn, org);
    }
  }

  lemma RelCore<W>(x: Ctx, b: nat, co: seq<Inst>, cn: seq<Inst>, so: State<W>, sn: State<W>, org: seq<Value>)
    requires Rel(x, b, co, cn, 0, so, sn, org)
    ensures Core(so, sn)
  {
  }

  /** Results of calls have the sizes of their fields. */
  ghost predicate Sized<W>(fields: seq<Field>, sn: State<W>) {
    forall b :: b in sn.results ==> |sn.results[b]| == |fields| && forall i :: 0 <= i < |fields| ==> |sn.results[b][i]| == fields[i].size
  }

  lemma {:induction false} SizedExec<W>(w: World<W>, fields: seq<Field>, s: State<W>, b: nat, code: seq<Inst>, j: nat)
    requires Sized(fields, s) && j <= |code|
    ensures Sized(fields, Exec(w, fields, s, b, code, j))
    ensures Exec(w, fields, s, b, code, j).params == s.params && Exec(w, fields, s, b, code, j).phis == s.phis
  {
    if j > 0 {
      SizedExec(w, fields, s, b, code, j - 1);
      SizedStep(w, fields, Exec(w, fields, s, b, code, j - 1), b, code[j - 1]);
    }
  }

  lemma SizedStep<W>(w: World<W>, fields: seq<Field>, s: State<W>, b: nat, inst: Inst)
    requires Sized(fields, s)
    ensures Sized(fields, Step(w, fields, s, b, inst))
    ensures Step(w, fields, s, b, inst).params == s.params && Step(w, fields, s, b, inst).phis == s.phis
  {
  }

  // ----------------------------------------------------------- block to block

  /** What holds between two blocks. */
  ghost predicate Between<W>(x: Ctx, so: State<W>, sn: State<W>) {
    && Core(so, sn) && |so.mem| == x.size && RestSame(x.fields, so.mem, sn.mem) && Sized(x.fields, sn)
    && (x.escapes ==> so.mem == sn.mem)
    && (!x.escapes && !x.calls ==> sn.params == FieldValues(x.fields, so.mem))
  }

  /** Leaving block `p`, every source that a PHI behind it may use has the value of its field. */
  ghost predicate SourcesOk<W>(x: Ctx, f: Fn, g: Fn, p: nat, so: State<W>, sn: State<W>)
    requires p < |f.code|
  {
    !x.escapes && x.calls ==>
      forall i: nat :: i < |x.fields| && (From(f, p, i).Phi? ==> (p, i) in g.incoming) ==>
        Eval(x.fields, sn, From(f, p, i)) == FieldValues(x.fields, so.mem)[i]
  }

  ghost predicate StartOk<W>(x: Ctx, b: nat, cn: seq<Inst>, so: State<W>, sn: State<W>) {
    && Between(x, so, sn) && PhisReady(x, b, cn, sn)
    && (!x.escapes && x.calls ==> forall i: nat :: i < |x.fields| && (b, i) in sn.phis ==>
      sn.phis[(b, i)] == FieldValues(x.fields, so.mem)[i])
    && (b == x.entry ==> sn.params == FieldValues(x.fields, so.mem))
  }

  lemma StartRel<W>(x: Ctx, b: nat, co: seq<Inst>, cn: seq<Inst>, so: State<W>, sn: State<W>)
    requires FieldsOk(x.fields, x.size) && StartOk(x, b, cn, so, sn)
    ensures Rel(x, b, co, cn, 0, so, sn, FieldValues(x.fields, so.mem))
  {
    var org := FieldValues(x.fields, so.mem);
    forall i: nat | i < |x.fields| ensures Slot(x, b, co, cn, 0, so, sn, org, i) {
      ReadHolds(so.mem, x.fields[i]);
    }
  }

  lemma FoldHasCallret(x: Ctx, b: nat, co: seq<Inst>, cn: seq<Inst>, t: nat, i: nat)
    requires BlockPromoted(x, b, co, cn) && FoldedTo(x, co, cn, t, i)
    ensures !NoCallret(co, 0, |co|)
  {
    assert InstPromoted(x, b, co, cn, t);
    var k: nat :| t < k < |co| && IsCallret(co[k]);
  }

  lemma NoFoldWithoutCallret(x: Ctx, b: nat, co: seq<Inst>, cn: seq<Inst>, i: nat)
    requires BlockPromoted(x, b, co, cn) && NoCallret(co, 0, |co|)
    ensures LastFold(x, co, cn, |co|, i) == -1
  {
    var t := LastFold(x, co, cn, |co|, i);
    if t >= 0 {
      FoldHasCallret(x, b, co, cn, t, i);
      assert false;
    }
  }

  /** At the end of a block the converted function knows field `i`, in the struct or from `Result` or from the start. */
  lemma EndField<W>(x: Ctx, b: nat, co: seq<Inst>, cn: seq<Inst>, so: State<W>, sn: State<W>, org: seq<Value>, i: nat)
    requires FieldsOk(x.fields, x.size) && Original(x.size, co) && BlockPromoted(x, b, co, cn) && i < |x.fields|
    requires Rel(x, b, co, cn, |co|, so, sn, org) && Sized(x.fields, sn) && !HasLeave(co) && |org[i]| == x.fields[i].size
    ensures x.escapes ==> Holds(so.mem, x.fields[i], Read(sn.mem, x.fields[i].off, x.fields[i].size))
    ensures !x.escapes && HasCall(co) && b in sn.results ==> Eval(x.fields, sn, Result(b, i)) == FieldValues(x.fields, so.mem)[i]
    ensures !x.escapes && !HasCall(co) ==> org[i] == FieldValues(x.fields, so.mem)[i]
  {
    hide Fresh, PhisReady, RestSame;
    assert Slot(x, b, co, cn, |co|, so, sn, org, i);
    if NoCallret(co, 0, |co|) {
      NoFoldWithoutCallret(x, b, co, cn, i);
    }
    assert NoCallret(co, 0, |co|) <==> !HasCall(co);
    if !x.escapes && (!HasCall(co) || b in sn.results) {
      HoldsRead(so.mem, x.fields[i], Current(x, b, co, cn, |co|, sn, org, i));
    }
  }

  lemma {:induction false} CallLeavesResults<W>(w: World<W>, fields: seq<Field>, s: State<W>, b: nat, co: seq<Inst>,
      cn: seq<Inst>, k: nat, j: nat)
    requires k < j <= |cn| == |co| && cn[k].NewCall?
    ensures b in Exec(w, fields, s, b, cn, j).results
  {
    if k < j - 1 {
      CallLeavesResults(w, fields, s, b, co, cn, k, j - 1);
    }
  }

  lemma CallsNew(x: Ctx, b: nat, co: seq<Inst>, cn: seq<Inst>) returns (k: nat)
    requires BlockPromoted(x, b, co, cn) && HasCall(co)
    ensures k < |co| == |cn| && cn[k].NewCall?
  {
    k :| 0 <= k < |co| && co[k].OldCall?;
    assert InstPromoted(x, b, co, cn, k);
  }

  lemma EndMem<W>(x: Ctx, b: nat, co: seq<Inst>, cn: seq<Inst>, so: State<W>, sn: State<W>, org: seq<Value>)
    requires FieldsOk(x.fields, x.size) && Original(x.size, co) && BlockPromoted(x, b, co, cn) && !HasLeave(co)
    requires Rel(x, b, co, cn, |co|, so, sn, org) && Sized(x.fields, sn)
    requires forall i :: 0 <= i < |x.fields| && i < |org| ==> |org[i]| == x.fields[i].size
    ensures x.escapes ==> so.mem == sn.mem
  {
    if x.escapes {
      forall i: nat | i < |x.fields| ensures Holds(so.mem, x.fields[i], Read(sn.mem, x.fields[i].off, x.fields[i].size)) {
        EndField(x, b, co, cn, so, sn, org, i);
      }
      SameMem(x.fields, so.mem, sn.mem);
    }
  }

  /** A block that is left by a jump, from what holds before it to what holds behind it. */
  lemma ThroughBlock<W>(w: World<W>, x: Ctx, f: Fn, g: Fn, b: nat, so: State<W>, sn: State<W>)
    requires Promoted(x, f, g) && b < |f.code| && NoHazard(x, f.code[b], g.code[b]) && StartOk(x, b, g.code[b], so, sn)
    requires b != f.entry ==> g.incoming.Keys <= sn.phis.Keys
    ensures var co, cn := f.code[b], g.code[b];
      var so', sn' := Exec(w, x.fields, so, b, co, |co|), Exec(w, x.fields, sn, b, cn, |cn|);
      Core(so', sn') && (!HasLeave(co) ==> Between(x, so', sn') && SourcesOk(x, f, g, b, so', sn'))
  {
    var co, cn, org := f.code[b], g.code[b], FieldValues(x.fields, so.mem);
    assert BlockPromoted(x, b, co, cn) && NoHazard(x, co, cn) && Original(x.size, co);
    var so', sn' := Exec(w, x.fields, so, b, co, |co|), Exec(w, x.fields, sn, b, cn, |cn|);
    StartRel(x, b, co, cn, so, sn);
    BlockRuns(w, x, b, co, cn, |co|, so, sn, org);
    if !HasLeave(co) {
      SizedExec(w, x.fields, sn, b, cn, |cn|);
      EndMem(x, b, co, cn, so', sn', org);
      EndSources(w, x, f, g, b, so, sn, so', sn');
    }
  }

  lemma EndSources<W>(w: World<W>, x: Ctx, f: Fn, g: Fn, b: nat, so: State<W>, sn: State<W>, so': State<W>, sn': State<W>)
    requires Promoted(x, f, g) && b < |f.code| && StartOk(x, b, g.code[b], so, sn) && !HasLeave(f.code[b])
    requires sn' == Exec(w, x.fields, sn, b, g.code[b], |g.code[b]|)
    requires b != f.entry ==> g.incoming.Keys <= sn.phis.Keys
    requires Rel(x, b, f.code[b], g.code[b], |f.code[b]|, so', sn', FieldValues(x.fields, so.mem)) && Sized(x.fields, sn')
    ensures SourcesOk(x, f, g, b, so', sn')
    ensures !x.escapes && !x.calls ==> sn'.params == FieldValues(x.fields, so'.mem)
  {
    var co, cn, org := f.code[b], g.code[b], FieldValues(x.fields, so.mem);
    assert BlockPromoted(x, b, co, cn) && Original(x.size, co);
    SizedExec(w, x.fields, sn, b, cn, |cn|);
    if HasCall(co) {
      var k := CallsNew(x, b, co, cn);
      CallLeavesResults(w, x.fields, sn, b, co, cn, k, |cn|);
    }
    if !x.escapes && x.calls {
      forall i: nat | i < |x.fields| && (From(f, b, i).Phi? ==> (b, i) in g.incoming)
        ensures Eval(x.fields, sn', From(f, b, i)) == FieldValues(x.fields, so'.mem)[i]
      {
        EndField(x, b, co, cn, so', sn', org, i);
      }
    }
    if !x.escapes && !x.calls {
      forall i: nat | i < |x.fields| ensures org[i] == FieldValues(x.fields, so'.mem)[i] {
        EndField(x, b, co, cn, so', sn', org, i);
      }
    }
  }

  // ----------------------------------------------------------------- paths

  lemma PickIs(f: Fn, incoming: map<(nat, nat), seq<(nat, Src)>>, b: nat, i: nat, p: nat)
    requires (b, i) in incoming && |f.pred| == |f.code| && Wired(f, incoming, b, i) && p in f.pred[b]
    ensures p < |f.code| && Pick(incoming[(b, i)], p) == From(f, p, i) && (From(f, p, i).Phi? ==> (p, i) in incoming)
  {
    var y :| 0 <= y < |f.pred[b]| && f.pred[b][y] == p;
    assert Edge(f, incoming, p, i, incoming[(b, i)][y]);
    var z: nat :| z < |incoming[(b, i)]| && incoming[(b, i)][z].0 == p && Pick(incoming[(b, i)], p) == incoming[(b, i)][z].1;
    assert Edge(f, incoming, f.pred[b][z], i, incoming[(b, i)][z]);
  }

  /** Following an edge: the PHIs of the next block take the values of their fields. */
  lemma EnterOk<W>(x: Ctx, f: Fn, g: Fn, p: nat, b: nat, so: State<W>, sn: State<W>)
    requires Promoted(x, f, g) && p < |f.code| && b in f.succ[p] && Between(x, so, sn) && SourcesOk(x, f, g, p, so, sn)
    ensures b < |g.code| && StartOk(x, b, g.code[b], Enter(f, x.fields, so, p, b), Enter(g, x.fields, sn, p, b))
    ensures g.incoming.Keys <= Enter(g, x.fields, sn, p, b).phis.Keys && b != f.entry
  {
    var so', sn' := Enter(f, x.fields, so, p, b), Enter(g, x.fields, sn, p, b);
    assert EdgeOk(f, p, b);
    assert PhisExist(f, g, b);
    if !x.escapes && x.calls {
      forall i: nat | i < |x.fields| && (b, i) in sn'.phis ensures sn'.phis[(b, i)] == FieldValues(x.fields, so'.mem)[i] {
        assert (b, i) in g.incoming;
        PickIs(f, g.incoming, b, i, p);
      }
    }
  }

  /** Both functions are entered: the new one with the fields as parameters, and anything in their slots. */
  ghost predicate Entered<W>(x: Ctx, so: State<W>, sn: State<W>) {
    && Core(so, sn) && |so.mem| == x.size && RestSame(x.fields, so.mem, sn.mem)
    && sn.params == FieldValues(x.fields, so.mem) && sn.results == map[] && sn.phis == map[]
  }

  lemma BeginOk<W>(x: Ctx, f: Fn, g: Fn, so: State<W>, sn: State<W>)
    requires Promoted(x, f, g) && Entered(x, so, sn)
    ensures StartOk(x, f.entry, g.code[f.entry], Begin(f, x.fields, so), Begin(g, x.fields, sn))
  {
    assert PhisExist(f, g, f.entry);
    forall i: nat | i < |x.fields| ensures Holds(so.mem, x.fields[i], sn.params[i]) {
      ReadHolds(so.mem, x.fields[i]);
    }
    OverlayIs(x.fields, so.mem, sn.mem, sn.params);
  }

  /**
   * Along a path without hazards, in every world, the converted function
   * computes the same values and hands over the same struct at every call and
   * return, in both modes.
   */
  lemma {:induction false} PathPreserved<W>(w: World<W>, x: Ctx, f: Fn, g: Fn, path: seq<nat>, so: State<W>, sn: State<W>)
    requires Promoted(x, f, g) && IsPath(f, path) && Entered(x, so, sn)
    requires forall y :: 0 <= y < |path| ==> NoHazard(x, f.code[path[y]], g.code[path[y]])
    ensures var so', sn', b := Run(w, f, x.fields, path, so), Run(w, g, x.fields, path, sn), path[|path| - 1];
      Core(so', sn') && (!HasLeave(f.code[b]) ==> Between(x, so', sn') && SourcesOk(x, f, g, b, so', sn'))
    decreases |path|
  {
    hide NoHazard, Core, Between, SourcesOk, StartOk, Entered, Exec;
    var b := path[|path| - 1];
    if |path| == 1 {
      BeginOk(x, f, g, so, sn);
      ThroughBlock(w, x, f, g, b, Begin(f, x.fields, so), Begin(g, x.fields, sn));
    } else {
      var before, p := path[..|path| - 1], path[|path| - 2];
      assert b in f.succ[p];
      assert IsPath(f, before);
      PathPreserved(w, x, f, g, before, so, sn);
      var so', sn' := Run(w, f, x.fields, before, so), Run(w, g, x.fields, before, sn);
      assert !HasLeave(f.code[p]);
      EnterOk(x, f, g, p, b, so', sn');
      ThroughBlock(w, x, f, g, b, Enter(f, x.fields, so', p, b), Enter(g, x.fields, sn', p, b));
    }
  }
}
