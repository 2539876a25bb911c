/**
 * The frontier of add_opcode: the slots that the vectors of a pattern have
 * reached after the kinds processed so far.
 */
module TrieFrontier {
  import opened Options
  import opened OpcodeTrie
  import opened TrieShape

  ghost predicate Distinct<T>(s: seq<T>) {
    forall i, j :: 0 <= i < j < |s| ==> s[i] != s[j]
  }

  ghost predicate Leads(tables: seq<seq<Entry>>, f: Slot, kind: Kind) {
    InRange(tables, f) && At(tables, f).Table? && At(tables, f).kind == kind
  }

  /** Exactly the vectors that start at `root` and match so far stand on a frontier slot. */
  ghost predicate Covers(tables: seq<seq<Entry>>, frontier: seq<Slot>, root: nat, elems: seq<Option<seq<nat>>>, stage: nat)
    requires |elems| == 6 && stage <= 6
  {
    && |tables| > 0
    && forall r: nat, v: seq<nat> {:trigger Reach(tables, (0, r), v, stage)} :: r < |tables[0]| && IsVector(v) ==>
         (Reach(tables, (0, r), v, stage) in frontier <==> r == root && MatchesUpTo(elems, v, stage))
  }

  ghost predicate Witness(tables: seq<seq<Entry>>, root: nat, f: Slot, stage: nat, v: seq<nat>)
    requires stage <= 6
  {
    IsVector(v) && Reach(tables, (0, root), v, stage) == f
  }

  ghost predicate Reached(tables: seq<seq<Entry>>, root: nat, f: Slot, stage: nat)
    requires stage <= 6
  {
    exists v: seq<nat> :: Witness(tables, root, f, stage, v)
  }

  ghost predicate Frontier(tables: seq<seq<Entry>>, frontier: seq<Slot>, root: nat, elems: seq<Option<seq<nat>>>, stage: nat)
    requires |elems| == 6 && stage <= 6
  {
    && |tables| > 0 && root < |tables[0]|
    && Distinct(frontier)
    && Covers(tables, frontier, root, elems, stage)
    && forall f :: f in frontier ==> Reached(tables, root, f, stage)
  }

  /** The frontier slots lie before `stage` and lead on with `stage` or later. */
  lemma FrontierRank(t: seq<seq<Entry>>, kinds: seq<int>, root: nat, f: Slot, stage: nat)
    requires WellFormed(t, kinds) && root < |t[0]| && stage <= 6 && Reached(t, root, f, stage)
    ensures InRange(t, f) && kinds[f.0] < stage <= RankOf(At(t, f))
  {
    var v: seq<nat> :| Witness(t, root, f, stage, v);
    ReachRank(t, kinds, (0, root), v, stage);
  }

  /** Slot `x` is where frontier slot `f` goes when `kind` is consumed by an index of `elem`. */
  ghost predicate From(tables: seq<seq<Entry>>, kind: Kind, elem: Option<seq<nat>>, f: Slot, x: Slot) {
    if Leads(tables, f, kind) then
      x.0 == At(tables, f).num && x.1 < TableLength(kind) && ElemMatches(elem, x.1)
    else elem.None? && x == f
  }

  ghost predicate Settled(tables: seq<seq<Entry>>, kind: Kind, elem: Option<seq<nat>>, f: Slot) {
    InRange(tables, f) && (elem.None? || Leads(tables, f, kind))
  }

  /** `next` holds exactly the successors of the slots in `done`. */
  ghost predicate Advanced(tables: seq<seq<Entry>>, kind: Kind, elem: Option<seq<nat>>, done: seq<Slot>, next: seq<Slot>) {
    && Distinct(next)
    && (forall f :: f in done ==> Settled(tables, kind, elem, f))
    && (forall x :: x in next ==> exists f :: f in done && From(tables, kind, elem, f, x))
    && (forall f, x :: f in done && From(tables, kind, elem, f, x) ==> x in next)
  }

  /** Slots of different frontier slots never meet. */
  lemma NoMeet(t: seq<seq<Entry>>, kinds: seq<int>, parent: seq<Slot>, kind: Kind, elem: Option<seq<nat>>, f: Slot, g: Slot, x: Slot)
    requires WellFormed(t, kinds) && Unshared(t, parent, 0, None)
    requires InRange(t, f) && InRange(t, g) && kinds[f.0] < kind && kinds[g.0] < kind
    requires From(t, kind, elem, f, x) && From(t, kind, elem, g, x)
    ensures f == g
  {
    assert RefOk(kinds, kinds[f.0], At(t, f)) && RefOk(kinds, kinds[g.0], At(t, g));
    if Leads(t, f, kind) && Leads(t, g, kind) {
      assert parent[t[f.0][f.1].num] == (f.0, f.1);
      assert parent[t[g.0][g.1].num] == (g.0, g.1);
    }
  }

  lemma Append(t: seq<seq<Entry>>, kinds: seq<int>, parent: seq<Slot>, kind: Kind, elem: Option<seq<nat>>,
               done: seq<Slot>, next: seq<Slot>, f: Slot, batch: seq<Slot>)
    requires WellFormed(t, kinds) && Unshared(t, parent, 0, None)
    requires forall g :: g in done + [f] ==> InRange(t, g) && kinds[g.0] < kind
    requires Advanced(t, kind, elem, done, next) && f !in done && Settled(t, kind, elem, f)
    requires Distinct(batch) && forall x :: x in batch <==> From(t, kind, elem, f, x)
    ensures Advanced(t, kind, elem, done + [f], next + batch)
  {
    forall x | x in next && x in batch ensures false {
      var g :| g in done && From(t, kind, elem, g, x);
      NoMeet(t, kinds, parent, kind, elem, f, g, x);
    }
    var done', next' := done + [f], next + batch;
    forall i, j | 0 <= i < j < |next'| ensures next'[i] != next'[j] {
      if i < |next| <= j { assert next[i] in next && batch[j - |next|] in batch; }
    }
    forall x | x in next' ensures exists g :: g in done' && From(t, kind, elem, g, x) {
      if x in next {
        var g :| g in done && From(t, kind, elem, g, x);
        assert g in done';
      } else {
        assert f in done';
      }
    }
  }

  /** Rewriting the slot `p`, which is not among the finished ones, keeps what is finished. */
  lemma Undisturbed(t: seq<seq<Entry>>, t': seq<seq<Entry>>, p: Slot, kind: Kind, elem: Option<seq<nat>>, done: seq<Slot>, next: seq<Slot>)
    requires Replaced(t, t', p) && p !in done
    requires Advanced(t, kind, elem, done, next)
    ensures Advanced(t', kind, elem, done, next)
  {
    forall f, x | f in done ensures From(t, kind, elem, f, x) == From(t', kind, elem, f, x) && Settled(t', kind, elem, f) {
      assert t'[f.0][f.1] == t[f.0][f.1];
    }
  }

  lemma CoverStep(t: seq<seq<Entry>>, kinds: seq<int>, parent: seq<Slot>, kind: Kind, elems: seq<Option<seq<nat>>>,
                  frontier: seq<Slot>, next: seq<Slot>, root: nat, r: nat, v: seq<nat>)
    requires WellFormed(t, kinds) && Unshared(t, parent, 0, None) && |elems| == 6
    requires Frontier(t, frontier, root, elems, kind) && Advanced(t, kind, elems[kind], frontier, next)
    requires r < |t[0]| && IsVector(v)
    ensures Reach(t, (0, r), v, kind + 1) in next <==> r == root && MatchesUpTo(elems, v, kind + 1)
  {
    var q := Reach(t, (0, r), v, kind);
    var x := Reach(t, (0, r), v, kind + 1);
    assert x == Step(t, q, v, kind);
    ReachRank(t, kinds, (0, r), v, kind);
    assert q in frontier <==> r == root && MatchesUpTo(elems, v, kind);
    assert MatchesUpTo(elems, v, kind + 1) <==> MatchesUpTo(elems, v, kind) && ElemMatches(elems[kind], v[kind]);
    if q in frontier && ElemMatches(elems[kind], v[kind]) {
      assert From(t, kind, elems[kind], q, x);
    }
    if x in next {
      var f :| f in frontier && From(t, kind, elems[kind], f, x);
      FrontierRank(t, kinds, root, f, kind);
      ReachRank(t, kinds, (0, r), v, kind + 1);
      assert RefOk(kinds, kinds[f.0], At(t, f)) && RefOk(kinds, kinds[q.0], At(t, q));
      if elems[kind].Some? || Leads(t, q, kind) || Leads(t, f, kind) {
        assert Settled(t, kind, elems[kind], f);
        assert Leads(t, q, kind);
        NoMeet(t, kinds, parent, kind, None, f, q, x);
      }
    }
  }

  lemma ReachedStep(t: seq<seq<Entry>>, kind: Kind, elem: Option<seq<nat>>, root: nat, f: Slot, x: Slot)
    requires Reached(t, root, f, kind) && From(t, kind, elem, f, x)
    ensures Reached(t, root, x, kind + 1)
  {
    var v: seq<nat> :| Witness(t, root, f, kind, v);
    var w := if Leads(t, f, kind) then v[kind := x.1] else v;
    ReachPrefix(t, (0, root), v, w, kind);
    assert Reach(t, (0, root), w, kind + 1) == Step(t, f, w, kind);
    assert Witness(t, root, x, kind + 1, w);
  }

  lemma FrontierStep(t: seq<seq<Entry>>, kinds: seq<int>, parent: seq<Slot>, kind: Kind, elems: seq<Option<seq<nat>>>,
                     frontier: seq<Slot>, next: seq<Slot>, root: nat)
    requires WellFormed(t, kinds) && Unshared(t, parent, 0, None) && |elems| == 6
    requires Frontier(t, frontier, root, elems, kind) && Advanced(t, kind, elems[kind], frontier, next)
    ensures Frontier(t, next, root, elems, kind + 1)
  {
    forall r: nat, v: seq<nat> | r < |t[0]| && IsVector(v)
      ensures Reach(t, (0, r), v, kind + 1) in next <==> r == root && MatchesUpTo(elems, v, kind + 1)
    {
      CoverStep(t, kinds, parent, kind, elems, frontier, next, root, r, v);
    }
    forall x | x in next ensures Reached(t, root, x, kind + 1) {
      var f :| f in frontier && From(t, kind, elems[kind], f, x);
      ReachedStep(t, kind, elems[kind], root, f, x);
    }
  }

  /** Expanding a frontier slot moves no vector. */
  lemma FrontierKept(t: seq<seq<Entry>>, kinds: seq<int>, t': seq<seq<Entry>>, q: Slot, root: nat, elems: seq<Option<seq<nat>>>,
                     frontier: seq<Slot>, stage: nat)
    requires WellFormed(t, kinds) && Replaced(t, t', q) && |elems| == 6 && stage <= 6
    requires RankOf(At(t, q)) >= stage && RankOf(At(t', q)) >= stage
    requires Frontier(t, frontier, root, elems, stage)
    ensures Frontier(t', frontier, root, elems, stage)
  {
    forall r: nat, v: seq<nat> | r < |t[0]| && IsVector(v)
      ensures Reach(t', (0, r), v, stage) == Reach(t, (0, r), v, stage)
    {
      ReachReplaced(t, kinds, t', q, (0, r), v, stage, stage);
    }
    forall f | f in frontier ensures Reached(t', root, f, stage) {
      var v: seq<nat> :| Witness(t, root, f, stage, v);
      assert Witness(t', root, f, stage, v);
    }
  }

  /** What one round of the frontier loop keeps. */
  ghost predicate Round(t: seq<seq<Entry>>, kinds: seq<int>, parent: seq<Slot>, kind: Kind, elems: seq<Option<seq<nat>>>,
                        frontier: seq<Slot>, root: nat, j: nat, next: seq<Slot>) {
    && WellFormed(t, kinds) && Unshared(t, parent, 0, None) && |elems| == 6
    && Frontier(t, frontier, root, elems, kind)
    && j <= |frontier| && Advanced(t, kind, elems[kind], frontier[..j], next)
  }

  lemma RoundDone(t: seq<seq<Entry>>, kinds: seq<int>, parent: seq<Slot>, kind: Kind, elems: seq<Option<seq<nat>>>,
                  frontier: seq<Slot>, root: nat, j: nat, next: seq<Slot>, batch: seq<Slot>)
    requires Round(t, kinds, parent, kind, elems, frontier, root, j, next) && j < |frontier|
    requires Settled(t, kind, elems[kind], frontier[j])
    requires Distinct(batch) && forall x :: x in batch <==> From(t, kind, elems[kind], frontier[j], x)
    ensures Round(t, kinds, parent, kind, elems, frontier, root, j + 1, next + batch)
  {
    var f := frontier[j];
    forall g | g in frontier[..j] + [f] ensures InRange(t, g) && kinds[g.0] < kind {
      assert g in frontier;
      FrontierRank(t, kinds, root, g, kind);
    }
    assert frontier[..j + 1] == frontier[..j] + [f];
    Append(t, kinds, parent, kind, elems[kind], frontier[..j], next, f, batch);
  }

  lemma RoundExpanded(t: seq<seq<Entry>>, kinds: seq<int>, parent: seq<Slot>, t': seq<seq<Entry>>, kinds': seq<int>, parent': seq<Slot>,
                      kind: Kind, elems: seq<Option<seq<nat>>>, frontier: seq<Slot>, root: nat, j: nat, next: seq<Slot>)
    requires Round(t, kinds, parent, kind, elems, frontier, root, j, next) && j < |frontier|
    requires WellFormed(t', kinds') && Unshared(t', parent', 0, None)
    requires Replaced(t, t', frontier[j]) && Leads(t', frontier[j], kind)
    ensures Round(t', kinds', parent', kind, elems, frontier, root, j, next)
  {
    FrontierRank(t, kinds, root, frontier[j], kind);
    FrontierKept(t, kinds, t', frontier[j], root, elems, frontier, kind);
    Undisturbed(t, t', frontier[j], kind, elems[kind], frontier[..j], next);
  }

  function Children(num: nat, indices: seq<nat>): (r: seq<Slot>)
    ensures |r| == |indices|
    ensures forall i :: 0 <= i < |r| ==> r[i] == (num, indices[i])
  {
    seq(|indices|, i requires 0 <= i < |indices| => (num, indices[i]))
  }

  function AllIndices(kind: Kind): (r: seq<nat>)
    ensures |r| == TableLength(kind)
    ensures forall i :: 0 <= i < |r| ==> r[i] == i
  {
    seq(TableLength(kind), i requires i >= 0 => i)
  }

  lemma ChildrenFrom(t: seq<seq<Entry>>, kind: Kind, elem: Option<seq<nat>>, f: Slot, indices: seq<nat>)
    requires Leads(t, f, kind) && ValidElem(elem, kind)
    requires indices == if elem.Some? then elem.value else AllIndices(kind)
    ensures var batch := Children(At(t, f).num, indices);
      Distinct(batch) && forall x :: x in batch <==> From(t, kind, elem, f, x)
  {
    var batch := Children(At(t, f).num, indices);
    forall x: Slot | From(t, kind, elem, f, x) ensures x in batch {
      if elem.None? { assert indices[x.1] == x.1; }
      assert x.1 in indices;
      var i :| 0 <= i < |indices| && indices[i] == x.1;
      assert batch[i] == x;
    }
  }

  ghost predicate BelowTop(frontier: seq<Slot>) {
    forall f :: f in frontier ==> f.0 >= 1
  }

  lemma StaysBelowTop(t: seq<seq<Entry>>, kinds: seq<int>, kind: Kind, elem: Option<seq<nat>>, frontier: seq<Slot>, next: seq<Slot>)
    requires WellFormed(t, kinds) && Advanced(t, kind, elem, frontier, next)
    requires elem.Some? || BelowTop(frontier)
    ensures BelowTop(next)
  {
    forall x | x in next ensures x.0 >= 1 {
      var f :| f in frontier && From(t, kind, elem, f, x);
      assert Settled(t, kind, elem, f);
      assert RefOk(kinds, kinds[f.0], At(t, f));
    }
  }

  // ---------------------------------------------------------------- leaves

  /** The entry that add_opcode leaves at a slot where it may write. */
  ghost function Updated(e: Entry, desc: nat, weak: bool): Entry {
    if e.Empty? || (e.Instr? && e.weak) then Instr(desc, weak) else e
  }

  /** `t'` is `t` with the leaf slots in `written` updated. */
  ghost predicate Written(t: seq<seq<Entry>>, t': seq<seq<Entry>>, written: seq<Slot>, desc: nat, weak: bool) {
    && |t'| == |t|
    && (forall n :: 0 <= n < |t| ==> |t'[n]| == |t[n]|)
    && (forall f :: f in written ==> InRange(t, f) && !At(t, f).Table?)
    && (forall n: nat, i: nat :: n < |t| && i < |t[n]| ==>
          t'[n][i] == if (n, i) in written then Updated(t[n][i], desc, weak) else t[n][i])
  }

  lemma WrittenTree(t: seq<seq<Entry>>, kinds: seq<int>, parent: seq<Slot>, t': seq<seq<Entry>>, written: seq<Slot>, desc: nat, weak: bool)
    requires WellFormed(t, kinds) && Unshared(t, parent, 0, None) && Written(t, t', written, desc, weak)
    ensures WellFormed(t', kinds) && Unshared(t', parent, 0, None)
    ensures RootSlots(t, kinds) && BelowTop(written) ==> RootSlots(t', kinds)
  {
    forall n, i | 0 <= n < |t'| && 0 <= i < |t'[n]| ensures RefOk(kinds, kinds[n], t'[n][i]) {
      assert RefOk(kinds, kinds[n], t[n][i]);
    }
    if BelowTop(written) { assert t'[0] == t[0]; }
  }

  lemma {:induction false} WrittenReach(t: seq<seq<Entry>>, kinds: seq<int>, t': seq<seq<Entry>>, written: seq<Slot>, desc: nat, weak: bool,
                                        p: Slot, v: seq<nat>, stage: nat)
    requires WellFormed(t, kinds) && Written(t, t', written, desc, weak)
    requires IsVector(v) && stage <= 6 && p.0 == 0 && InRange(t, p)
    ensures Reach(t', p, v, stage) == Reach(t, p, v, stage)
  {
    if stage > 0 {
      WrittenReach(t, kinds, t', written, desc, weak, p, v, stage - 1);
      ReachRank(t, kinds, p, v, stage - 1);
      var q := Reach(t, p, v, stage - 1);
      assert t'[q.0][q.1] == if q in written then Updated(t[q.0][q.1], desc, weak) else t[q.0][q.1];
    }
  }

  /** Writing the leaves of a complete frontier updates exactly the matching vectors. */
  lemma WrittenWalk(t: seq<seq<Entry>>, kinds: seq<int>, parent: seq<Slot>, t': seq<seq<Entry>>, frontier: seq<Slot>, desc: nat, weak: bool,
                    root: nat, elems: seq<Option<seq<nat>>>, r: nat, v: seq<nat>)
    requires WellFormed(t, kinds) && Unshared(t, parent, 0, None) && |elems| == 6
    requires Frontier(t, frontier, root, elems, 6) && Written(t, t', frontier, desc, weak)
    requires r < |t[0]| && IsVector(v)
    ensures var was := Walk(t, t[0][r], v);
      Walk(t', t'[0][r], v) == if r == root && MatchesUpTo(elems, v, 6) then Updated(was, desc, weak) else was
  {
    WrittenTree(t, kinds, parent, t', frontier, desc, weak);
    WrittenReach(t, kinds, t', frontier, desc, weak, (0, r), v, 6);
    ReachWalk(t, kinds, (0, r), v, 6);
    ReachWalk(t', kinds, (0, r), v, 6);
    ReachRank(t, kinds, (0, r), v, 6);
    ReachRank(t', kinds, (0, r), v, 6);
    var q := Reach(t, (0, r), v, 6);
    assert t'[q.0][q.1] == if q in frontier then Updated(t[q.0][q.1], desc, weak) else t[q.0][q.1];
  }

  /** A strong leaf on the complete frontier is what some matching vector finds. */
  lemma LeafWitness(t: seq<seq<Entry>>, kinds: seq<int>, frontier: seq<Slot>, root: nat, elems: seq<Option<seq<nat>>>, f: Slot)
    returns (v: seq<nat>)
    requires WellFormed(t, kinds) && |elems| == 6 && Frontier(t, frontier, root, elems, 6) && f in frontier
    ensures IsVector(v) && MatchesUpTo(elems, v, 6) && InRange(t, f) && Walk(t, t[0][root], v) == At(t, f)
  {
    v :| Witness(t, root, f, 6, v);
    assert Reach(t, (0, root), v, 6) in frontier;
    ReachWalk(t, kinds, (0, root), v, 6);
    ReachRank(t, kinds, (0, root), v, 6);
  }

  lemma LeafFound(t: seq<seq<Entry>>, kinds: seq<int>, frontier: seq<Slot>, root: nat, elems: seq<Option<seq<nat>>>, v: seq<nat>)
    returns (f: Slot)
    requires WellFormed(t, kinds) && |elems| == 6 && Frontier(t, frontier, root, elems, 6)
    requires IsVector(v) && MatchesUpTo(elems, v, 6)
    ensures f in frontier && InRange(t, f) && Walk(t, t[0][root], v) == At(t, f)
  {
    f := Reach(t, (0, root), v, 6);
    ReachWalk(t, kinds, (0, root), v, 6);
    ReachRank(t, kinds, (0, root), v, 6);
  }
}
