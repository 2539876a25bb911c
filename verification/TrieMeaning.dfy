/**
 * How the meaning of a pattern list changes when one pattern is added.
 */
module TrieMeaning {
  import opened Options
  import opened OpcodeTrie
  import opened TrieShape
  import opened TrieFrontier

  ghost predicate NoConflicts(ps: seq<Pattern>)
    requires ValidPatterns(ps)
  {
    forall i, j :: 0 <= i < j < |ps| ==> !Conflict(ps[i], ps[j])
  }

  /** Every root slot of the trie walks to what the patterns select. */
  ghost predicate Means(tables: seq<seq<Entry>>, ps: seq<Pattern>)
    requires ValidPatterns(ps)
  {
    && |tables| > 0
    && forall r: nat, v: seq<nat> {:trigger Selected(ps, r, v)} :: r < |tables[0]| && IsVector(v) ==>
         Walk(tables, tables[0][r], v) == Selected(ps, r, v)
  }

  lemma {:induction false} LastMatchSnoc(ps: seq<Pattern>, p: Pattern, r: nat, v: seq<nat>, weak: bool)
    requires ValidPatterns(ps) && ValidElems(p.elems) && |v| == 6
    ensures LastMatch(ps + [p], r, v, weak) == if p.weak == weak && Matches(p, r, v) then Some(|ps|) else LastMatch(ps, r, v, weak)
  {
    assert (ps + [p])[..|ps|] == ps;
  }

  /** Adding a pattern updates the selection exactly where it matches, as long as no strong pattern is met by a strong one. */
  lemma SelectedSnoc(ps: seq<Pattern>, p: Pattern, r: nat, v: seq<nat>)
    requires ValidPatterns(ps) && ValidElems(p.elems) && IsVector(v)
    requires Matches(p, r, v) && !p.weak ==> LastMatch(ps, r, v, false).None?
    ensures Selected(ps + [p], r, v) ==
      if Matches(p, r, v) then Updated(Selected(ps, r, v), p.desc, p.weak) else Selected(ps, r, v)
  {
    LastMatchSnoc(ps, p, r, v, false);
    LastMatchSnoc(ps, p, r, v, true);
  }

  lemma MeansSnoc(t: seq<seq<Entry>>, t': seq<seq<Entry>>, ps: seq<Pattern>, p: Pattern)
    requires ValidPatterns(ps) && ValidElems(p.elems) && Means(t, ps)
    requires |t'| > 0 && |t'[0]| == |t[0]|
    requires forall i :: 0 <= i < |ps| ==> !Conflict(ps[i], p)
    requires forall r: nat, v: seq<nat> :: r < |t[0]| && IsVector(v) ==>
      Walk(t', t'[0][r], v) == if Matches(p, r, v) then Updated(Walk(t, t[0][r], v), p.desc, p.weak) else Walk(t, t[0][r], v)
    ensures Means(t', ps + [p])
  {
    forall r: nat, v: seq<nat> | r < |t'[0]| && IsVector(v)
      ensures Walk(t', t'[0][r], v) == Selected(ps + [p], r, v)
    {
      SelectedSnoc(ps, p, r, v);
      assert Walk(t, t[0][r], v) == Selected(ps, r, v);
    }
  }

  lemma MeansKept(t: seq<seq<Entry>>, t': seq<seq<Entry>>, ps: seq<Pattern>)
    requires ValidPatterns(ps) && Means(t, ps) && RootsKept(t, t')
    ensures Means(t', ps)
  {
    forall r: nat, v: seq<nat> | r < |t'[0]| && IsVector(v) ensures Walk(t', t'[0][r], v) == Selected(ps, r, v) {
      assert SameMeaning(t', t'[0][r], t, t[0][r]);
    }
  }

  /** Writing the complete frontier of a pattern that conflicts with none adds it to the meaning. */
  lemma MeansWritten(t: seq<seq<Entry>>, kinds: seq<int>, parent: seq<Slot>, t': seq<seq<Entry>>, frontier: seq<Slot>,
      ps: seq<Pattern>, p: Pattern)
    requires WellFormed(t, kinds) && Unshared(t, parent, 0, None) && ValidPatterns(ps) && ValidElems(p.elems) && Means(t, ps)
    requires Frontier(t, frontier, p.root, p.elems, 6) && Written(t, t', frontier, p.desc, p.weak)
    requires NoConflicts(ps) && forall i :: 0 <= i < |ps| ==> !Conflict(ps[i], p)
    ensures Means(t', ps + [p]) && NoConflicts(ps + [p])
  {
    forall r: nat, v: seq<nat> | r < |t[0]| && IsVector(v)
      ensures Walk(t', t'[0][r], v) == if Matches(p, r, v) then Updated(Walk(t, t[0][r], v), p.desc, p.weak) else Walk(t, t[0][r], v)
    {
      WrittenWalk(t, kinds, parent, t', frontier, p.desc, p.weak, p.root, p.elems, r, v);
    }
    MeansSnoc(t, t', ps, p);
  }

  /** A strong entry is in the way exactly if some earlier strong pattern shares a vector. */
  lemma ClashIffConflict(t: seq<seq<Entry>>, kinds: seq<int>, frontier: seq<Slot>, ps: seq<Pattern>, p: Pattern)
    requires WellFormed(t, kinds) && ValidPatterns(ps) && ValidElems(p.elems) && Means(t, ps) && !p.weak
    requires Frontier(t, frontier, p.root, p.elems, 6)
    ensures (exists f :: f in frontier && InRange(t, f) && At(t, f).Instr? && !At(t, f).weak)
        <==> (exists i :: 0 <= i < |ps| && Conflict(ps[i], p))
  {
    if f :| f in frontier && InRange(t, f) && At(t, f).Instr? && !At(t, f).weak {
      var v := LeafWitness(t, kinds, frontier, p.root, p.elems, f);
      assert Walk(t, t[0][p.root], v) == Selected(ps, p.root, v);
      var i := LastMatch(ps, p.root, v, false).value;
      assert Matches(ps[i], ps[i].root, v) && Matches(p, ps[i].root, v);
      assert Conflict(ps[i], p);
    }
    if i :| 0 <= i < |ps| && Conflict(ps[i], p) {
      var v: seq<nat> :| IsVector(v) && Matches(ps[i], ps[i].root, v) && Matches(p, ps[i].root, v);
      var f := LeafFound(t, kinds, frontier, p.root, p.elems, v);
      assert Walk(t, t[0][p.root], v) == Selected(ps, p.root, v);
    }
  }

  lemma StartFrontier(t: seq<seq<Entry>>, root: nat, elems: seq<Option<seq<nat>>>)
    requires |t| > 0 && root < |t[0]| && |elems| == 6
    ensures Frontier(t, [(0, root)], root, elems, 0)
  {
    var zero: seq<nat> := [0, 0, 0, 0, 0, 0];
    assert Witness(t, root, (0, root), 0, zero);
  }
}
