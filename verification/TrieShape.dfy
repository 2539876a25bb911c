/**
 * The shape that the trie keeps while opcodes are added: kinds increase on
 * every reference, and no two slots refer to the same table.
 */
module TrieShape {
  import opened Options
  import opened OpcodeTrie

  /** An entry may refer to a table that exists, has the stated kind, and ranks after `above`. */
  ghost predicate RefOk(kinds: seq<int>, above: int, e: Entry) {
    e.Table? ==> 1 <= e.num < |kinds| && kinds[e.num] == e.kind && e.kind > above
  }

  /** `kinds` gives the kind of each table; table 0 (one slot per decode mode) ranks before all kinds. */
  ghost predicate WellFormed(tables: seq<seq<Entry>>, kinds: seq<int>) {
    && |tables| == |kinds| >= 1
    && kinds[0] == -1
    && (forall n :: 1 <= n < |tables| ==> 0 <= kinds[n] < 6 && |tables[n]| == TableLength(kinds[n]))
    && (forall n, i :: 0 <= n < |tables| && 0 <= i < |tables[n]| ==> RefOk(kinds, kinds[n], tables[n][i]))
  }

  /** Every slot from table `lo` on, except `hole`, is the recorded parent of the table it refers to. */
  ghost predicate Unshared(tables: seq<seq<Entry>>, parent: seq<Slot>, lo: nat, hole: Option<Slot>) {
    && |parent| == |tables|
    && forall n: nat, i: nat :: lo <= n < |tables| && i < |tables[n]| && tables[n][i].Table? && hole != Some((n, i)) ==>
         lo <= tables[n][i].num < |parent| && parent[tables[n][i].num] == (n, i)
  }

  /** The tree invariant of the builder. */
  ghost predicate IsTree(tables: seq<seq<Entry>>, kinds: seq<int>, parent: seq<Slot>) {
    && WellFormed(tables, kinds)
    && Unshared(tables, parent, 0, None)
  }

  /** Filling one slot. */
  lemma SlotFilled(t: seq<seq<Entry>>, kinds: seq<int>, parent: seq<Slot>, s: Slot, e: Entry, hole: Option<Slot>)
    requires WellFormed(t, kinds) && Unshared(t, parent, 0, hole)
    requires InRange(t, s) && RefOk(kinds, kinds[s.0], e)
    requires e.Table? ==> parent[e.num] == s
    ensures var t' := t[s.0 := t[s.0][s.1 := e]]; WellFormed(t', kinds) && Unshared(t', parent, 0, hole)
  {
  }

  /** `b` is `a` with more elements behind. */
  ghost predicate Extends<T>(a: seq<T>, b: seq<T>) {
    |b| >= |a| && forall n :: 0 <= n < |a| ==> b[n] == a[n]
  }

  /** Tables that are unshared among themselves, followed by further ones. */
  lemma UnsharedJoin(t: seq<seq<Entry>>, parent: seq<Slot>, t': seq<seq<Entry>>, parent': seq<Slot>, lo: nat, hole: Option<Slot>)
    requires Unshared(t, parent, lo, hole) && Unshared(t', parent', |t|, None)
    requires Extends(t, t') && Extends(parent, parent') && lo <= |t|
    ensures Unshared(t', parent', lo, hole)
  {
    forall n: nat, i: nat | lo <= n < |t'| && i < |t'[n]| && t'[n][i].Table? && hole != Some((n, i))
      ensures lo <= t'[n][i].num < |parent'| && parent'[t'[n][i].num] == (n, i)
    {
      if n < |t| { assert t[n][i] == t'[n][i]; }
    }
  }

  /** Filling in the rows of one table. */
  lemma RowFilled(t: seq<seq<Entry>>, kinds: seq<int>, parent: seq<Slot>, lo: nat, num: nat, row: seq<Entry>, hole: Option<Slot>)
    requires WellFormed(t, kinds) && Unshared(t, parent, lo, hole)
    requires 1 <= num < |t| && lo <= num && |row| == |t[num]|
    requires forall j :: 0 <= j < |row| ==> RefOk(kinds, kinds[num], row[j])
    requires forall j: nat :: j < |row| && row[j].Table? ==> lo <= row[j].num < |parent| && parent[row[j].num] == (num, j)
    ensures WellFormed(t[num := row], kinds) && Unshared(t[num := row], parent, lo, hole)
  {
    var t': seq<seq<Entry>> := t[num := row];
    forall n: nat, i: nat | lo <= n < |t'| && i < |t'[n]| && t'[n][i].Table? && hole != Some((n, i))
      ensures lo <= t'[n][i].num < |parent| && parent[t'[n][i].num] == (n, i)
    {
      if n != num { assert t[n][i] == t'[n][i]; } else { assert RefOk(kinds, kinds[num], row[i]); }
    }
  }

  ghost predicate SameMeaning(t1: seq<seq<Entry>>, e1: Entry, t2: seq<seq<Entry>>, e2: Entry) {
    forall v: seq<nat> :: IsVector(v) ==> Walk(t1, e1, v) == Walk(t2, e2, v)
  }

  lemma MeaningSelf(t: seq<seq<Entry>>, e: Entry)
    ensures SameMeaning(t, e, t, e)
  {
  }

  lemma MeaningTrans(t1: seq<seq<Entry>>, e1: Entry, t2: seq<seq<Entry>>, e2: Entry, t3: seq<seq<Entry>>, e3: Entry)
    requires SameMeaning(t1, e1, t2, e2) && SameMeaning(t2, e2, t3, e3)
    ensures SameMeaning(t1, e1, t3, e3)
  {
  }

  lemma ChildRanks(t: seq<seq<Entry>>, kinds: seq<int>, e: Entry)
    requires WellFormed(t, kinds) && e.Table? && RefOk(kinds, -1, e)
    ensures |t[e.num]| == TableLength(e.kind) && forall j :: 0 <= j < |t[e.num]| ==> RankOf(t[e.num][j]) > e.kind
  {
    forall j | 0 <= j < |t[e.num]| ensures RankOf(t[e.num][j]) > e.kind {
      assert RefOk(kinds, kinds[e.num], t[e.num][j]);
    }
  }

  /** A walk only sees tables of its own rank or later. */
  lemma {:induction false} WalkSame(t: seq<seq<Entry>>, kinds: seq<int>, t': seq<seq<Entry>>, lo: int, e: Entry, v: seq<nat>)
    requires WellFormed(t, kinds) && |t'| >= |t| && lo >= 0
    requires forall n :: 1 <= n < |t| && kinds[n] >= lo ==> t'[n] == t[n]
    requires RefOk(kinds, lo - 1, e) && IsVector(v)
    ensures Walk(t', e, v) == Walk(t, e, v)
    decreases 6 - RankOf(e)
  {
    if e.Table? {
      var child := t[e.num][v[e.kind]];
      assert RefOk(kinds, kinds[e.num], child);
      WalkSame(t, kinds, t', e.kind + 1, child, v);
    }
  }

  lemma SameAbove(t: seq<seq<Entry>>, kinds: seq<int>, t': seq<seq<Entry>>, lo: int, e: Entry)
    requires WellFormed(t, kinds) && |t'| >= |t| && lo >= 0
    requires forall n :: 1 <= n < |t| && kinds[n] >= lo ==> t'[n] == t[n]
    requires RefOk(kinds, lo - 1, e)
    ensures SameMeaning(t', e, t, e)
  {
    forall v: seq<nat> | IsVector(v) ensures Walk(t', e, v) == Walk(t, e, v) {
      WalkSame(t, kinds, t', lo, e, v);
    }
  }

  /** The entries of `row` mean, in `t`, what the first entries of table `src` meant in `t0`. */
  ghost predicate CopyOf(t: seq<seq<Entry>>, kinds: seq<int>, above: int, row: seq<Entry>, t0: seq<seq<Entry>>, src: seq<Entry>) {
    |row| <= |src| && forall j :: 0 <= j < |row| ==> RefOk(kinds, above, row[j]) && SameMeaning(t, row[j], t0, src[j])
  }

  lemma CopyKept(t: seq<seq<Entry>>, kinds: seq<int>, t': seq<seq<Entry>>, kinds': seq<int>, above: int, row: seq<Entry>,
                 t0: seq<seq<Entry>>, src: seq<Entry>)
    requires WellFormed(t, kinds) && Extends(t, t') && Extends(kinds, kinds') && above >= -1
    requires CopyOf(t, kinds, above, row, t0, src)
    ensures CopyOf(t', kinds', above, row, t0, src)
  {
    forall j | 0 <= j < |row| ensures RefOk(kinds', above, row[j]) && SameMeaning(t', row[j], t0, src[j]) {
      SameAbove(t, kinds, t', 0, row[j]);
    }
  }

  /** One more entry of the row is copied. */
  lemma CopySnoc(t0: seq<seq<Entry>>, k0: seq<int>, t: seq<seq<Entry>>, kinds: seq<int>, t': seq<seq<Entry>>, kinds': seq<int>, above: int,
                 row: seq<Entry>, src: seq<Entry>, x: Entry)
    requires WellFormed(t0, k0) && WellFormed(t, kinds) && above >= -1
    requires Extends(t0, t) && Extends(t, t') && Extends(kinds, kinds')
    requires CopyOf(t, kinds, above, row, t0, src) && |row| < |src| && RefOk(k0, -1, src[|row|])
    requires RefOk(kinds', above, x) && SameMeaning(t', x, t, src[|row|])
    ensures CopyOf(t', kinds', above, row + [x], t0, src)
  {
    CopyKept(t, kinds, t', kinds', above, row, t0, src);
    SameAbove(t0, k0, t, 0, src[|row|]);
  }

  lemma CopyDone(t: seq<seq<Entry>>, kinds: seq<int>, num: nat, kind: Kind, row: seq<Entry>, t0: seq<seq<Entry>>, e: Entry)
    requires WellFormed(t, kinds) && 1 <= num < |t| && kinds[num] == kind && |row| == TableLength(kind)
    requires e.Table? && e.kind == kind && 1 <= e.num < |t0| && |t0[e.num]| == TableLength(kind)
    requires forall j :: 0 <= j < |row| ==> RankOf(t0[e.num][j]) > kind
    requires CopyOf(t, kinds, kind, row, t0, t0[e.num])
    ensures SameMeaning(t[num := row], Table(kind, num), t0, e)
  {
    var t' := t[num := row];
    forall v: seq<nat> | IsVector(v) ensures Walk(t', Table(kind, num), v) == Walk(t0, e, v) {
      var j := v[kind];
      WalkSame(t, kinds, t', kind + 1, row[j], v);
      assert SameMeaning(t, row[j], t0, t0[e.num][j]);
    }
  }

  /** The first entries of table `num` all mean what `e` meant in `t0`. */
  ghost predicate Copies(t: seq<seq<Entry>>, kinds: seq<int>, num: nat, count: nat, t0: seq<seq<Entry>>, e: Entry) {
    && 1 <= num < |t| && |kinds| == |t| && count <= |t[num]|
    && forall j :: 0 <= j < count ==> RefOk(kinds, kinds[num], t[num][j]) && SameMeaning(t, t[num][j], t0, e)
  }

  /** One more copy `c` is made in `t'`, an extension of `t`, and stored. */
  lemma CopiesAdd(t: seq<seq<Entry>>, kinds: seq<int>, t': seq<seq<Entry>>, kinds': seq<int>, num: nat, count: nat, c: Entry,
                  t0: seq<seq<Entry>>, e: Entry)
    requires WellFormed(t, kinds) && WellFormed(t', kinds') && Extends(t, t') && Extends(kinds, kinds')
    requires Copies(t, kinds, num, count, t0, e) && count < |t[num]|
    requires RefOk(kinds', kinds'[num], c) && SameMeaning(t', c, t0, e)
    ensures Copies(t'[num := t'[num][count := c]], kinds', num, count + 1, t0, e)
  {
    var t'': seq<seq<Entry>> := t'[num := t'[num][count := c]];
    forall j | 0 <= j < count + 1
      ensures RefOk(kinds', kinds'[num], t''[num][j]) && SameMeaning(t'', t''[num][j], t0, e)
    {
      if j < count {
        assert t''[num][j] == t[num][j];
        SameAbove(t, kinds, t', 0, t[num][j]);
      }
      SameAbove(t', kinds', t'', kinds'[num] + 1, t''[num][j]);
    }
  }

  /** A table whose entries all mean the same means that itself. */
  lemma CopiesMean(t: seq<seq<Entry>>, kinds: seq<int>, num: nat, kind: Kind, t0: seq<seq<Entry>>, e: Entry)
    requires WellFormed(t, kinds) && Copies(t, kinds, num, TableLength(kind), t0, e) && kinds[num] == kind
    ensures SameMeaning(t, Table(kind, num), t0, e)
  {
    forall v: seq<nat> | IsVector(v) ensures Walk(t, Table(kind, num), v) == Walk(t0, e, v) {
      assert SameMeaning(t, t[num][v[kind]], t0, e);
      assert RefOk(kinds, kinds[num], t[num][v[kind]]);
    }
  }

  /** `t'` is `t` with slot `p` replaced by an entry of the same meaning, and more tables. */
  ghost predicate Replaced(t: seq<seq<Entry>>, t': seq<seq<Entry>>, p: Slot) {
    && InRange(t, p)
    && |t'| >= |t|
    && (forall n :: 0 <= n < |t| ==> |t'[n]| == |t[n]|)
    && (forall n: nat, i: nat :: n < |t| && i < |t[n]| && (n, i) != p ==> t'[n][i] == t[n][i])
  }

  lemma {:induction false} WalkReplaced(t: seq<seq<Entry>>, kinds: seq<int>, t': seq<seq<Entry>>, p: Slot, e: Entry, v: seq<nat>)
    requires WellFormed(t, kinds) && Replaced(t, t', p)
    requires RankOf(At(t', p)) > kinds[p.0]
    requires IsVector(v) && Walk(t', At(t', p), v) == Walk(t, At(t, p), v)
    requires RefOk(kinds, -1, e)
    ensures Walk(t', e, v) == Walk(t, e, v)
    decreases 6 - RankOf(e)
  {
    if e.Table? {
      var s: Slot := (e.num, v[e.kind]);
      assert RefOk(kinds, kinds[e.num], At(t, s));
      if s != p {
        assert t'[s.0][s.1] == t[s.0][s.1];
        WalkReplaced(t, kinds, t', p, At(t, s), v);
      }
    }
  }

  ghost predicate RootsKept(t: seq<seq<Entry>>, t': seq<seq<Entry>>) {
    && |t| > 0 && |t'| > 0 && |t'[0]| == |t[0]|
    && forall r :: 0 <= r < |t[0]| ==> SameMeaning(t', t'[0][r], t, t[0][r])
  }

  /** Redirecting slot `p` to an entry of equal meaning keeps the tree and every meaning. */
  lemma Redirected(t0: seq<seq<Entry>>, k0: seq<int>, t: seq<seq<Entry>>, kinds: seq<int>, parent: seq<Slot>, p: Slot, e: Entry)
    requires WellFormed(t0, k0) && WellFormed(t, kinds) && Extends(t0, t) && Extends(k0, kinds)
    requires InRange(t0, p) && Unshared(t, parent, 0, Some(p))
    requires e.Table? && RefOk(kinds, kinds[p.0], e) && parent[e.num] == p
    requires SameMeaning(t, e, t0, At(t0, p))
    ensures var t' := t[p.0 := t[p.0][p.1 := e]];
      && WellFormed(t', kinds) && Unshared(t', parent, 0, None)
      && Replaced(t0, t', p) && At(t', p) == e
      && RootsKept(t0, t')
  {
    var t': seq<seq<Entry>> := t[p.0 := t[p.0][p.1 := e]];
    SameAbove(t, kinds, t', kinds[p.0] + 1, e);
    SameReplaced(t0, k0, t', p);
  }

  lemma SameReplaced(t: seq<seq<Entry>>, kinds: seq<int>, t': seq<seq<Entry>>, p: Slot)
    requires WellFormed(t, kinds) && Replaced(t, t', p)
    requires RankOf(At(t', p)) > kinds[p.0]
    requires SameMeaning(t', At(t', p), t, At(t, p))
    ensures RootsKept(t, t')
  {
    forall r: nat, v: seq<nat> | r < |t[0]| && IsVector(v) ensures Walk(t', t'[0][r], v) == Walk(t, t[0][r], v) {
      assert RefOk(kinds, kinds[0], t[0][r]);
      if (0, r) != p {
        assert t'[0][r] == t[0][r];
        WalkReplaced(t, kinds, t', p, t[0][r], v);
      }
    }
  }

  /** Table 0 refers to root tables only, and to each of them. */
  ghost predicate RootSlots(t: seq<seq<Entry>>, kinds: seq<int>) {
    && |t| > 0
    && (forall r :: 0 <= r < |t[0]| ==> t[0][r].Empty? || (t[0][r].Table? && t[0][r].kind == ROOT))
    && (forall n: nat :: 1 <= n < |kinds| && kinds[n] == ROOT ==> Table(ROOT, n) in t[0])
  }

  ghost predicate NewAbove(kinds: seq<int>, from: nat, above: int) {
    forall n :: from <= n < |kinds| ==> kinds[n] > above
  }

  lemma RootSlotsKept(t0: seq<seq<Entry>>, k0: seq<int>, t: seq<seq<Entry>>, kinds: seq<int>, p: Slot, kind: Kind)
    requires RootSlots(t0, k0) && Replaced(t0, t, p) && Extends(k0, kinds) && |k0| < |kinds|
    requires kinds[|k0|] == kind && NewAbove(kinds, |k0| + 1, kind) && At(t, p) == Table(kind, |k0|)
    requires if kind == ROOT then p.0 == 0 && At(t0, p).Empty? else p.0 >= 1
    ensures RootSlots(t, kinds)
  {
    forall n: nat | 1 <= n < |kinds| && kinds[n] == ROOT ensures Table(ROOT, n) in t[0] {
      if n < |k0| {
        var r :| 0 <= r < |t0[0]| && t0[0][r] == Table(ROOT, n);
        assert t[0][r] == t0[0][r];
      } else {
        assert n == |k0|;
        assert t[0][p.1] == Table(ROOT, n);
      }
    }
  }

  // ------------------------------------------------------- slots on a path

  /** The slot that `v` has reached from `p` once all kinds before `stage` are consumed. */
  ghost function Reach(tables: seq<seq<Entry>>, p: Slot, v: seq<nat>, stage: nat): Slot
    requires |v| == 6 && stage <= 6
  {
    if stage == 0 then p else
      Step(tables, Reach(tables, p, v, stage - 1), v, stage - 1)
  }

  ghost function Step(tables: seq<seq<Entry>>, q: Slot, v: seq<nat>, kind: Kind): Slot
    requires |v| == 6
  {
    if InRange(tables, q) && At(tables, q).Table? && At(tables, q).kind == kind then (At(tables, q).num, v[kind])
    else q
  }

  /** The reached slot lies in a table before `stage`, and leads on with kind `stage` or later. */
  lemma {:induction false} ReachRank(t: seq<seq<Entry>>, kinds: seq<int>, p: Slot, v: seq<nat>, stage: nat)
    requires WellFormed(t, kinds) && IsVector(v) && stage <= 6
    requires p.0 == 0 && InRange(t, p)
    ensures var q := Reach(t, p, v, stage); InRange(t, q) && kinds[q.0] < stage && RankOf(At(t, q)) >= stage
  {
    if stage > 0 {
      ReachRank(t, kinds, p, v, stage - 1);
      var q := Reach(t, p, v, stage - 1);
      var k: Kind := stage - 1;
      assert RefOk(kinds, kinds[q.0], At(t, q));
      if At(t, q).Table? && At(t, q).kind == k {
        var q' := (At(t, q).num, v[k]);
        assert RefOk(kinds, kinds[q'.0], At(t, q'));
      }
    }
  }

  /** Walking on from the reached slot gives the same answer. */
  lemma {:induction false} ReachWalk(t: seq<seq<Entry>>, kinds: seq<int>, p: Slot, v: seq<nat>, stage: nat)
    requires WellFormed(t, kinds) && IsVector(v) && stage <= 6
    requires p.0 == 0 && InRange(t, p)
    ensures var q := Reach(t, p, v, stage); InRange(t, q) && Walk(t, At(t, q), v) == Walk(t, At(t, p), v)
  {
    if stage > 0 {
      ReachWalk(t, kinds, p, v, stage - 1);
      ReachRank(t, kinds, p, v, stage - 1);
      ReachRank(t, kinds, p, v, stage);
      var q := Reach(t, p, v, stage - 1);
      assert RefOk(kinds, kinds[q.0], At(t, q));
    }
  }

  /** Only the indices before `stage` matter. */
  lemma {:induction false} ReachPrefix(t: seq<seq<Entry>>, p: Slot, v: seq<nat>, w: seq<nat>, stage: nat)
    requires |v| == 6 && |w| == 6 && stage <= 6
    requires forall k: Kind :: k < stage ==> v[k] == w[k]
    ensures Reach(t, p, v, stage) == Reach(t, p, w, stage)
  {
    if stage > 0 {
      ReachPrefix(t, p, v, w, stage - 1);
    }
  }

  /** Changing a slot that is reached at `stage` to any entry of rank `stage` or later moves no slot reached so far. */
  lemma {:induction false} ReachReplaced(t: seq<seq<Entry>>, kinds: seq<int>, t': seq<seq<Entry>>, q: Slot, p: Slot,
      v: seq<nat>, stage: nat, upto: nat)
    requires WellFormed(t, kinds) && IsVector(v) && stage <= upto <= 6
    requires Replaced(t, t', q) && RankOf(At(t, q)) >= upto && RankOf(At(t', q)) >= upto
    requires p.0 == 0 && InRange(t, p)
    ensures Reach(t', p, v, stage) == Reach(t, p, v, stage)
  {
    if stage > 0 {
      ReachReplaced(t, kinds, t', q, p, v, stage - 1, upto);
      ReachRank(t, kinds, p, v, stage - 1);
      var r := Reach(t, p, v, stage - 1);
      if r != q {
        assert t'[r.0][r.1] == t[r.0][r.1];
      }
    }
  }
}
