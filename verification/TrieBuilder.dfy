/**
 * Adding opcodes to the trie.
 */
module TrieBuilder {
  import opened Options
  import opened OpcodeTrie
  import opened TrieShape
  import opened TrieFrontier
  import opened TrieMeaning
  import opened Opcodes
  import opened TrieReduce
  import opened TrieCanonical
  import opened TriePack

  /** The tables of one kind, in order of creation. */
  ghost function NumsOf(kinds: seq<int>, kind: int): seq<nat> {
    if |kinds| <= 1 then []
    else
      var before := NumsOf(kinds[..|kinds| - 1], kind);
      if kinds[|kinds| - 1] == kind then before + [|kinds| - 1] else before
  }

  ghost function KindLists(kinds: seq<int>): (r: seq<seq<nat>>)
    ensures |r| == 6
  {
    [NumsOf(kinds, 0), NumsOf(kinds, 1), NumsOf(kinds, 2), NumsOf(kinds, 3), NumsOf(kinds, 4), NumsOf(kinds, 5)]
  }

  lemma NumsOfSnoc(kinds: seq<int>, kind: int, k: int)
    requires |kinds| >= 1
    ensures NumsOf(kinds + [kind], k) == if k == kind then NumsOf(kinds, k) + [|kinds|] else NumsOf(kinds, k)
  {
    assert (kinds + [kind])[..|kinds|] == kinds;
  }

  lemma KindListsSnoc(kinds: seq<int>, kind: Kind)
    requires |kinds| >= 1
    ensures KindLists(kinds + [kind as int]) == KindLists(kinds)[kind := NumsOf(kinds, kind) + [|kinds|]]
  {
    hide NumsOf;
    var kinds' := kinds + [kind as int];
    forall k | 0 <= k < 6 ensures KindLists(kinds')[k] == if k == kind then NumsOf(kinds, k) + [|kinds|] else NumsOf(kinds, k) {
      KindListsAt(kinds', k);
      NumsOfSnoc(kinds, kind, k);
    }
    forall k | 0 <= k < 6 ensures KindLists(kinds)[k] == NumsOf(kinds, k) {
      KindListsAt(kinds, k);
    }
    hide KindLists;
  }

  lemma {:induction false} NumsOfMember(kinds: seq<int>, kind: int, n: nat)
    ensures n in NumsOf(kinds, kind) <==> 1 <= n < |kinds| && kinds[n] == kind
  {
    if |kinds| > 1 {
      NumsOfMember(kinds[..|kinds| - 1], kind, n);
    }
  }

  lemma {:induction false} NumsOfAscends(kinds: seq<int>, kind: int)
    ensures var s := NumsOf(kinds, kind); forall i, j :: 0 <= i < j < |s| ==> s[i] < s[j]
  {
    if |kinds| <= 1 {
      assert NumsOf(kinds, kind) == [];
    } else {
      NumsOfAscends(kinds[..|kinds| - 1], kind);
      var before := NumsOf(kinds[..|kinds| - 1], kind);
      forall i | 0 <= i < |before| ensures before[i] < |kinds| - 1 {
        NumsOfMember(kinds[..|kinds| - 1], kind, before[i]);
      }
      assert NumsOf(kinds, kind) == before || NumsOf(kinds, kind) == before + [|kinds| - 1];
    }
  }

  /** The tables finished when `j` tables of `kind` and all of later kinds are. */
  ghost predicate Progress(kinds: seq<int>, kind: int, j: nat, done: set<nat>) {
    && j <= |NumsOf(kinds, kind)|
    && forall n: nat :: n in done <==> 1 <= n < |kinds| && (kinds[n] > kind || n in NumsOf(kinds, kind)[..j])
  }

  lemma ProgressNext(kinds: seq<int>, kind: int, j: nat, done: set<nat>)
    requires Progress(kinds, kind, j, done) && j < |NumsOf(kinds, kind)|
    ensures var n := NumsOf(kinds, kind)[j];
      Next(kinds, done, n) && kinds[n] == kind && Progress(kinds, kind, j + 1, done + {n})
  {
    var nums := NumsOf(kinds, kind);
    NumsOfMember(kinds, kind, nums[j]);
    NumsOfAscends(kinds, kind);
    assert nums[..j + 1] == nums[..j] + [nums[j]];
  }

  lemma ProgressKind(kinds: seq<int>, kind: Kind, done: set<nat>)
    requires Progress(kinds, kind, |NumsOf(kinds, kind)|, done)
    ensures Progress(kinds, kind - 1, 0, done)
  {
    var nums := NumsOf(kinds, kind);
    assert nums[..|nums|] == nums;
    forall n: nat ensures n in nums <==> 1 <= n < |kinds| && kinds[n] == kind { NumsOfMember(kinds, kind, n); }
  }

  /** The tables of the current kind that are kept, indexed by their content. */
  ghost predicate Entries(kinds: seq<int>, t: seq<seq<Entry>>, done: set<nat>, synonyms: map<nat, Entry>, kind: int,
      entries: map<seq<Entry>, nat>)
  {
    && |t| == |kinds| && (forall n :: n in done ==> n < |kinds|)
    && (forall row :: row in entries ==>
          entries[row] in done && entries[row] !in synonyms && kinds[entries[row]] == kind && t[entries[row]] == row)
    && (forall n: nat :: n in done && n !in synonyms && kinds[n] == kind ==> t[n] in entries)
  }

  /** What deduplication does to the tables of `t0`. */
  ghost predicate Deduplicated(t0: seq<seq<Entry>>, kinds: seq<int>, t: seq<seq<Entry>>) {
    && Reduced(t, kinds) && |t| == |t0| && t[0] == t0[0]
    && (forall n: nat :: Live(t, n) ==> SameMeaning(t, Table(kinds[n], n), t0, Table(kinds[n], n)))
    && (forall n: nat :: 1 <= n < |t| && t[n] == [] ==> 0 <= kinds[n] < 6 && Replaceable(t0, kinds, t, n))
  }

  /** Some kept entry stands for the removed table `n`. */
  ghost predicate Replaceable(t0: seq<seq<Entry>>, kinds: seq<int>, t: seq<seq<Entry>>, n: nat)
    requires 1 <= n < |kinds| && 0 <= kinds[n] < 6
  {
    exists s: Entry :: LiveRef(t, kinds, -1, s) && RankOf(s) >= kinds[n] && SameMeaning(t, s, t0, Table(kinds[n], n))
  }

  lemma FinishedIsDeduplicated(t0: seq<seq<Entry>>, kinds: seq<int>, t: seq<seq<Entry>>, done: set<nat>, synonyms: map<nat, Entry>)
    requires Reducing(t0, kinds, t, done, synonyms) && AllTables(t, done)
    ensures Deduplicated(t0, kinds, t)
  {
    FinishedIsReduced(t0, kinds, t, done, synonyms);
    forall n: nat | 1 <= n < |t| && t[n] == [] ensures 0 <= kinds[n] < 6 && Replaceable(t0, kinds, t, n) {
      var s := synonyms[n];
      assert LiveRef(t, kinds, -1, s);
    }
  }

  lemma NothingReplaced(t: seq<seq<Entry>>, kinds: seq<int>, p: Slot)
    requires WellFormed(t, kinds) && InRange(t, p)
    ensures Replaced(t, t, p) && RootsKept(t, t) && Extends(kinds, kinds)
  {
    hide Walk;
  }

  /** Only table 0 ranks before the root tables, and it refers to nothing else. */
  lemma SlotKind(t: seq<seq<Entry>>, kinds: seq<int>, p: Slot)
    requires WellFormed(t, kinds) && RootSlots(t, kinds) && InRange(t, p)
    ensures kinds[p.0] < 0 ==> p.0 == 0 && (At(t, p).Empty? || (At(t, p).Table? && At(t, p).kind == ROOT))
  {
  }

  /** A fresh table for slot `p`, which does not refer to it yet. */
  lemma TableAdded(t0: seq<seq<Entry>>, k0: seq<int>, p0: seq<Slot>, t: seq<seq<Entry>>, kinds: seq<int>,
      parent: seq<Slot>, p: Slot, kind: Kind)
    requires WellFormed(t0, k0) && Unshared(t0, p0, 0, None) && InRange(t0, p)
    requires t == t0 + [seq(TableLength(kind), _ => Empty)] && kinds == k0 + [kind as int] && parent == p0 + [p]
    ensures Extends(t0, t) && Extends(k0, kinds) && Unshared(t, parent, 0, Some(p)) && NewAbove(kinds, |t0| + 1, kind)
    ensures |kinds| == |t| && kinds[|t0|] == kind && parent[|t0|] == p
    ensures At(t0, p).Table? && At(t0, p).num < |parent| ==> parent[At(t0, p).num] == p
    ensures At(t0, p).Empty? ==> Copies(t, kinds, |t0|, TableLength(kind), t0, Empty)
  {
    hide TableLength;
    if At(t0, p).Table? {
      assert RefOk(k0, k0[p.0], At(t0, p));
      assert t0[p.0][p.1].Table?;
    }
  }

  lemma KindListsAt(kinds: seq<int>, kind: Kind)
    ensures |KindLists(kinds)| == 6 && KindLists(kinds)[kind] == NumsOf(kinds, kind)
  {
    hide NumsOf;
  }

  lemma NoEntries(kinds: seq<int>, t: seq<seq<Entry>>, done: set<nat>, synonyms: map<nat, Entry>, kind: int)
    requires Progress(kinds, kind, 0, done) && |t| == |kinds|
    ensures Entries(kinds, t, done, synonyms, kind, map[])
  {
    hide NumsOf;
  }

  /** A table that goes away leaves the index of the kept ones as it is. */
  lemma EntriesDropped(kinds: seq<int>, t: seq<seq<Entry>>, done: set<nat>, synonyms: map<nat, Entry>, kind: int,
      entries: map<seq<Entry>, nat>, num: nat, s: Entry)
    requires Entries(kinds, t, done, synonyms, kind, entries) && num < |t| && num !in done
    ensures Entries(kinds, t[num := []], done + {num}, synonyms[num := s], kind, entries)
  {
  }

  lemma EntriesStored(kinds: seq<int>, t: seq<seq<Entry>>, done: set<nat>, synonyms: map<nat, Entry>, kind: int,
      entries: map<seq<Entry>, nat>, num: nat, row: seq<Entry>)
    requires Entries(kinds, t, done, synonyms, kind, entries) && num < |t| && num !in done && num !in synonyms && kinds[num] == kind
    requires row !in entries
    ensures Entries(kinds, t[num := row], done + {num}, synonyms, kind, entries[row := num])
  {
  }

  lemma ReducingBasics(t0: seq<seq<Entry>>, kinds: seq<int>, t: seq<seq<Entry>>, done: set<nat>, synonyms: map<nat, Entry>, num: nat)
    requires Reducing(t0, kinds, t, done, synonyms) && Next(kinds, done, num)
    ensures num < |t| == |kinds| && num !in done && num !in synonyms
  {
  }

  /** Only the slot of one mode may have changed in table 0. */
  ghost predicate SameRoots(t: seq<seq<Entry>>, t': seq<seq<Entry>>, root: nat) {
    && |t| > 0 && |t'| > 0 && |t'[0]| == |t[0]|
    && forall r :: 0 <= r < |t[0]| && r != root ==> t'[0][r] == t[0][r]
  }

  lemma ReplacedRoots(t: seq<seq<Entry>>, t': seq<seq<Entry>>, p: Slot, root: nat)
    requires Replaced(t, t', p) && (p.0 == 0 ==> p.1 == root)
    ensures SameRoots(t, t', root)
  {
    forall r: nat | r < |t[0]| && r != root ensures t'[0][r] == t[0][r] {
      assert (0, r) != p;
    }
  }

  lemma WrittenRoots(t: seq<seq<Entry>>, t': seq<seq<Entry>>, written: seq<Slot>, desc: nat, weak: bool, root: nat)
    requires Written(t, t', written, desc, weak) && BelowTop(written) && |t| > 0
    ensures SameRoots(t, t', root)
  {
    forall r: nat | r < |t[0]| && r != root ensures t'[0][r] == t[0][r] {
      assert (0, r) !in written;
    }
  }

  lemma RootsTrans(t: seq<seq<Entry>>, t': seq<seq<Entry>>, t'': seq<seq<Entry>>, root: nat)
    requires SameRoots(t, t', root) && SameRoots(t', t'', root)
    ensures SameRoots(t, t'', root)
  {
  }

  lemma FirstSlot(t: seq<seq<Entry>>, root: nat, f: Slot)
    requires Reached(t, root, f, 0)
    ensures f == (0, root)
  {
  }

  /** Some pattern is for this mode. */
  ghost predicate Mentions(ps: seq<Pattern>, r: nat) {
    exists i :: 0 <= i < |ps| && ps[i].root == r
  }

  /** A mode has a root table only if some pattern is for it. */
  ghost predicate RootsUsed(t: seq<seq<Entry>>, ps: seq<Pattern>) {
    |t| > 0 && forall r: nat :: r < |t[0]| && t[0][r].Table? ==> Mentions(ps, r)
  }

  lemma RootsUsedMore(t: seq<seq<Entry>>, t': seq<seq<Entry>>, ps: seq<Pattern>, p: Pattern)
    requires RootsUsed(t, ps) && SameRoots(t, t', p.root)
    ensures RootsUsed(t', ps + [p])
  {
    forall r: nat | r < |t'[0]| && t'[0][r].Table? ensures Mentions(ps + [p], r) {
      if r == p.root {
        assert (ps + [p])[|ps|].root == r;
      } else {
        var i :| 0 <= i < |ps| && ps[i].root == r;
        assert (ps + [p])[i].root == r;
      }
    }
  }

  /** A strong entry is in the way of a strong pattern exactly if the pattern conflicts with an earlier one. */
  lemma InTheWayIff(t: seq<seq<Entry>>, kinds: seq<int>, frontier: seq<Slot>, ps: seq<Pattern>, p: Pattern)
    requires WellFormed(t, kinds) && ValidPatterns(ps) && ValidElems(p.elems) && Means(t, ps)
    requires Frontier(t, frontier, p.root, p.elems, 6)
    ensures (p.weak || !exists f :: f in frontier && InRange(t, f) && At(t, f).Instr? && !At(t, f).weak)
        <==> forall i :: 0 <= i < |ps| ==> !Conflict(ps[i], p)
  {
    hide WellFormed, Means, Frontier;
    if !p.weak { ClashIffConflict(t, kinds, frontier, ps, p); }
  }

  lemma OpcodeAdded(t0: seq<seq<Entry>>, t: seq<seq<Entry>>, kinds: seq<int>, parent: seq<Slot>, t': seq<seq<Entry>>,
      frontier: seq<Slot>, ps: seq<Pattern>, p: Pattern)
    requires WellFormed(t, kinds) && Unshared(t, parent, 0, None) && ValidPatterns(ps) && ValidElems(p.elems) && Means(t, ps)
    requires Frontier(t, frontier, p.root, p.elems, 6) && Written(t, t', frontier, p.desc, p.weak)
    requires NoConflicts(ps) && forall i :: 0 <= i < |ps| ==> !Conflict(ps[i], p)
    requires SameRoots(t0, t, p.root) && SameRoots(t, t', p.root)
    ensures ValidPatterns(ps + [p]) && NoConflicts(ps + [p]) && Means(t', ps + [p])
    ensures RootsUsed(t0, ps) ==> RootsUsed(t', ps + [p])
  {
    hide WellFormed, Unshared, Means, Frontier, Written, NoConflicts, Conflict, SameRoots, RootsUsed;
    MeansWritten(t, kinds, parent, t', frontier, ps, p);
    RootsTrans(t0, t, t', p.root);
    if RootsUsed(t0, ps) { RootsUsedMore(t0, t', ps, p); }
  }

  lemma SameLength(t0: seq<seq<Entry>>, kinds: seq<int>, t: seq<seq<Entry>>, done: set<nat>, synonyms: map<nat, Entry>)
    requires Reducing(t0, kinds, t, done, synonyms)
    ensures |t| == |kinds|
  {
  }

  class Trie {
    var trie: seq<seq<Entry>>
    var kindmap: seq<seq<nat>>
    // Kind and parent slot of each table.
    ghost var kinds: seq<int>
    ghost var parent: seq<Slot>
    // What has been added so far.
    ghost var added: seq<Pattern>

    ghost predicate Shaped()
      reads this
    {
      && WellFormed(trie, kinds)
      && |parent| == |trie|
      && kindmap == KindLists(kinds)
    }

    /** The state between calls of AddOpcode. */
    ghost predicate Valid()
      reads this
    {
      && Shaped() && Unshared(trie, parent, 0, None) && RootSlots(trie, kinds)
      && ValidPatterns(added) && NoConflicts(added) && Means(trie, added)
    }

    constructor (rootCount: nat)
      ensures Valid() && added == [] && |trie| == 1 && |trie[0]| == rootCount && RootsUsed(trie, added)
    {
      trie := [seq(rootCount, _ => Empty)];
      kindmap := [[], [], [], [], [], []];
      kinds := [-1];
      parent := [(0, 0)];
      added := [];
    }

    /** A new table full of empty entries. */
    method AddTable(kind: Kind, ghost at: Slot) returns (num: nat)
      requires Shaped()
      modifies `trie, `kindmap, `kinds, `parent
      ensures Shaped()
      ensures num == old(|trie|)
      ensures trie == old(trie) + [seq(TableLength(kind), _ => Empty)]
      ensures kinds == old(kinds) + [kind as int]
      ensures parent == old(parent) + [at]
    {
      KindListsSnoc(kinds, kind);
      num := |trie|;
      trie := trie + [seq(TableLength(kind), _ => Empty)];
      kindmap := kindmap[kind := kindmap[kind] + [num]];
      kinds := kinds + [kind as int];
      parent := parent + [at];
    }

    /** Copy an entry together with everything below it into tables of its own. */
    method Clone(e: Entry, ghost at: Slot) returns (c: Entry)
      requires Shaped() && RefOk(kinds, -1, e)
      modifies `trie, `kindmap, `kinds, `parent
      ensures Shaped()
      ensures Extends(old(trie), trie) && Extends(old(kinds), kinds) && Extends(old(parent), parent)
      ensures Unshared(trie, parent, old(|trie|), None)
      ensures RefOk(kinds, RankOf(e) - 1, c) && RankOf(c) == RankOf(e) && NewAbove(kinds, old(|kinds|), RankOf(e) - 1)
      ensures if e.Table? then c.num >= old(|trie|) && parent[c.num] == at else c == e
      ensures SameMeaning(trie, c, old(trie), e)
      decreases 6 - RankOf(e), 1
    {
      hide SameMeaning, KindLists;
      MeaningSelf(trie, e);
      if !e.Table? {
        return e;
      }
      ghost var t0, k0 := trie, kinds;
      var num := AddTable(e.kind, at);
      SameAbove(t0, k0, trie, 0, e);
      ghost var t1, k1 := trie, kinds;
      var row := CloneRow(e, num);
      RowFilled(trie, kinds, parent, num, num, row, None);
      ChildRanks(t1, k1, e);
      CopyDone(trie, kinds, num, e.kind, row, t1, e);
      trie := trie[num := row];
      c := Table(e.kind, num);
      MeaningTrans(trie, c, t1, e, t0, e);
    }

    /** Clone every entry of the table that `e` refers to, on behalf of the fresh table `num`. */
    method CloneRow(e: Entry, num: nat) returns (row: seq<Entry>)
      requires Shaped() && e.Table? && RefOk(kinds, -1, e) && e.num < num
      requires num == |trie| - 1 && kinds[num] == e.kind && Unshared(trie, parent, num, None)
      modifies `trie, `kindmap, `kinds, `parent
      ensures Shaped()
      ensures Extends(old(trie), trie) && Extends(old(kinds), kinds) && Extends(old(parent), parent)
      ensures Unshared(trie, parent, num, None)
      ensures NewAbove(kinds, old(|kinds|), e.kind)
      ensures |row| == TableLength(e.kind) && CopyOf(trie, kinds, e.kind, row, old(trie), old(trie)[e.num])
      ensures forall j: nat :: j < |row| && row[j].Table? ==> row[j].num > num && parent[row[j].num] == (num, j)
      decreases 6 - RankOf(e), 0
    {
      ghost var t0, k0, p0 := trie, kinds, parent;
      row := [];
      for i := 0 to TableLength(e.kind)
        invariant Shaped()
        invariant Extends(t0, trie) && Extends(k0, kinds) && Extends(p0, parent)
        invariant Unshared(trie, parent, num, None) && NewAbove(kinds, |k0|, e.kind)
        invariant |row| == i && CopyOf(trie, kinds, e.kind, row, t0, t0[e.num])
        invariant forall j: nat :: j < i && row[j].Table? ==> row[j].num > num && parent[row[j].num] == (num, j)
      {
        ghost var t1, k1, p1 := trie, kinds, parent;
        var child := trie[e.num][i];
        assert RefOk(k0, k0[e.num], t0[e.num][i]);
        var x := Clone(child, (num, i));
        UnsharedJoin(t1, p1, trie, parent, num, None);
        CopySnoc(t0, k0, t1, k1, trie, kinds, e.kind, row, t0[e.num], x);
        row := row + [x];
      }
    }

    /** Make slot `p` refer to a table of the given kind without changing any meaning. */
    method Expand(p: Slot, kind: Kind)
      requires Shaped() && Unshared(trie, parent, 0, None)
      requires InRange(trie, p) && kinds[p.0] < kind <= RankOf(At(trie, p))
      requires RootSlots(trie, kinds) && (kind != ROOT ==> p.0 >= 1)
      modifies `trie, `kindmap, `kinds, `parent
      ensures Shaped() && Unshared(trie, parent, 0, None)
      ensures Replaced(old(trie), trie, p) && Extends(old(kinds), kinds)
      ensures At(trie, p).Table? && At(trie, p).kind == kind
      ensures RootsKept(old(trie), trie) && RootSlots(trie, kinds)
    {
      hide WellFormed, Unshared, Extends, Copies, NewAbove, RootsKept, RootSlots, Replaced, KindLists;
      var e := trie[p.0][p.1];
      ghost var t0, k0, p0 := trie, kinds, parent;
      NothingReplaced(t0, k0, p);
      SlotKind(t0, k0, p);
      if e.Table? && e.kind == kind {
        return;
      }
      var num := AddTable(kind, p);
      TableAdded(t0, k0, p0, trie, kinds, parent, p, kind);
      if !e.Empty? {
        Multiply(p, kind, num, t0, k0);
      }
      Redirect(p, kind, num, t0, k0);
    }

    /** Let slot `p` refer to table `num`, whose entries all mean what `p` meant. */
    method Redirect(p: Slot, kind: Kind, num: nat, ghost t0: seq<seq<Entry>>, ghost k0: seq<int>)
      requires Shaped() && Unshared(trie, parent, 0, Some(p))
      requires WellFormed(t0, k0) && Extends(t0, trie) && Extends(k0, kinds)
      requires InRange(t0, p) && k0[p.0] < kind && num == |t0| < |trie| && kinds[num] == kind && parent[num] == p
      requires Copies(trie, kinds, num, TableLength(kind), t0, At(t0, p)) && NewAbove(kinds, num + 1, kind)
      requires RootSlots(t0, k0) && if kind == ROOT then p.0 == 0 && At(t0, p).Empty? else p.0 >= 1
      modifies `trie
      ensures Shaped() && Unshared(trie, parent, 0, None)
      ensures Replaced(t0, trie, p) && At(trie, p) == Table(kind, num)
      ensures RootsKept(t0, trie) && RootSlots(trie, kinds)
    {
      CopiesMean(trie, kinds, num, kind, t0, t0[p.0][p.1]);
      Redirected(t0, k0, trie, kinds, parent, p, Table(kind, num));
      trie := trie[p.0 := trie[p.0][p.1 := Table(kind, num)]];
      RootSlotsKept(t0, k0, trie, kinds, p, kind);
    }

    /** Move the entry of slot `p` to the first slot of the fresh table `num` and clone it into the others. */
    method Multiply(p: Slot, kind: Kind, num: nat, ghost t0: seq<seq<Entry>>, ghost k0: seq<int>)
      requires Shaped() && Unshared(trie, parent, 0, Some(p))
      requires WellFormed(t0, k0) && Extends(t0, trie) && Extends(k0, kinds)
      requires InRange(t0, p) && k0[p.0] < kind < RankOf(At(t0, p))
      requires num == |t0| == |trie| - 1 && kinds[num] == kind && parent[num] == p
      requires At(t0, p).Table? && At(t0, p).num < |parent| ==> parent[At(t0, p).num] == p
      requires forall j :: 0 <= j < |trie[num]| ==> trie[num][j] == Empty
      modifies `trie, `kindmap, `kinds, `parent
      ensures Shaped() && Unshared(trie, parent, 0, Some(p))
      ensures |trie| > num && Extends(t0, trie) && Extends(k0, kinds) && kinds[num] == kind && parent[num] == p
      ensures Copies(trie, kinds, num, TableLength(kind), t0, At(t0, p)) && NewAbove(kinds, num + 1, kind)
    {
      hide KindLists, SameMeaning;
      var e := trie[p.0][p.1];
      assert RefOk(k0, k0[p.0], e);
      Adopt(e, num, p, t0, k0);
      for i := 1 to TableLength(kind)
        invariant Shaped() && Unshared(trie, parent, 0, Some(p))
        invariant Extends(t0, trie) && Extends(k0, kinds) && |trie| > num
        invariant kinds[num] == kind && parent[num] == p
        invariant Copies(trie, kinds, num, i, t0, e) && NewAbove(kinds, num + 1, kind)
      {
        ghost var t1, k1, p1 := trie, kinds, parent;
        var c := Clone(e, (num, i));
        SameAbove(t0, k0, t1, 0, e);
        MeaningTrans(trie, c, t1, e, t0, e);
        UnsharedJoin(t1, p1, trie, parent, 0, Some(p));
        CopiesAdd(t1, k1, trie, kinds, num, i, c, t0, e);
        SlotFilled(trie, kinds, parent, (num, i), c, Some(p));
        trie := trie[num := trie[num][i := c]];
      }
    }

    /** The first slot of the fresh table `num` takes over the tables below `e`. */
    method Adopt(e: Entry, num: nat, ghost p: Slot, ghost t0: seq<seq<Entry>>, ghost k0: seq<int>)
      requires Shaped() && Unshared(trie, parent, 0, Some(p))
      requires WellFormed(t0, k0) && Extends(t0, trie) && Extends(k0, kinds)
      requires InRange(t0, p) && e == At(t0, p)
      requires num == |t0| == |trie| - 1 && 0 <= kinds[num] < RankOf(e) && parent[num] == p
      requires e.Table? && e.num < |parent| ==> parent[e.num] == p
      modifies `trie, `kindmap, `kinds, `parent
      ensures Shaped() && Unshared(trie, parent, 0, Some(p))
      ensures Extends(t0, trie) && kinds == old(kinds) && |trie| == old(|trie|) && parent[num] == p
      ensures Copies(trie, kinds, num, 1, t0, e)
    {
      assert RefOk(k0, k0[p.0], e);
      ghost var t1: seq<seq<Entry>>, p1 := trie, parent;
      trie := trie[num := trie[num][0 := e]];
      if e.Table? {
        parent := parent[e.num := (num, 0)];
        forall n: nat, i: nat | n < |t1| && i < |t1[n]| && t1[n][i].Table? && (n, i) != p
          ensures t1[n][i].num != e.num
        {
          assert p1[t1[n][i].num] == (n, i);
        }
      }
      SameAbove(t0, k0, trie, 0, e);
    }

    /** Consume one kind: replace each frontier slot by the slots it leads to. */
    method ExpandLevel(frontier: seq<Slot>, kind: Kind, elem: Option<seq<nat>>, ghost root: nat, ghost elems: seq<Option<seq<nat>>>)
      returns (next: seq<Slot>)
      requires Shaped() && Unshared(trie, parent, 0, None)
      requires |elems| == 6 && elems[kind] == elem && ValidElem(elem, kind)
      requires Frontier(trie, frontier, root, elems, kind)
      requires RootSlots(trie, kinds) && if kind == ROOT then elem.Some? else BelowTop(frontier)
      modifies `trie, `kindmap, `kinds, `parent
      ensures Shaped() && Unshared(trie, parent, 0, None)
      ensures Frontier(trie, next, root, elems, kind + 1)
      ensures RootSlots(trie, kinds) && BelowTop(next)
      ensures RootsKept(old(trie), trie) && SameRoots(old(trie), trie, root)
    {
      var cur := elem;
      next := [];
      ghost var t0 := trie;
      for j := 0 to |frontier|
        invariant Shaped()
        invariant RootsKept(t0, trie) && RootSlots(trie, kinds) && SameRoots(t0, trie, root)
        invariant Round(trie, kinds, parent, kind, elems, frontier, root, j, next)
        invariant cur == elem || (elem.None? && cur == Some(AllIndices(kind)))
      {
        var f := frontier[j];
        FrontierRank(trie, kinds, root, f, kind);
        if cur.None? {
          if !trie[f.0][f.1].Table? || trie[f.0][f.1].kind != kind {
            RoundDone(trie, kinds, parent, kind, elems, frontier, root, j, next, [f]);
            next := next + [f];
            continue;
          }
          // The list also stands for the remaining frontier slots of this level.
          cur := Some(AllIndices(kind));
        }
        if kind == ROOT { FirstSlot(trie, root, f); }
        var batch := ConsumeSlot(f, kind, cur.value, root, elems, frontier, j, next);
        next := next + batch;
      }
      assert frontier[..|frontier|] == frontier;
      StaysBelowTop(trie, kinds, kind, elem, frontier, next);
      FrontierStep(trie, kinds, parent, kind, elems, frontier, next, root);
    }

    method ConsumeSlot(f: Slot, kind: Kind, indices: seq<nat>, ghost root: nat, ghost elems: seq<Option<seq<nat>>>,
                       ghost frontier: seq<Slot>, ghost j: nat, ghost next: seq<Slot>)
      returns (batch: seq<Slot>)
      requires Shaped() && Round(trie, kinds, parent, kind, elems, frontier, root, j, next)
      requires j < |frontier| && f == frontier[j] && InRange(trie, f) && kinds[f.0] < kind <= RankOf(At(trie, f))
      requires ValidElem(elems[kind], kind) && indices == if elems[kind].Some? then elems[kind].value else AllIndices(kind)
      requires RootSlots(trie, kinds) && if kind == ROOT then f == (0, root) else f.0 >= 1
      modifies `trie, `kindmap, `kinds, `parent
      ensures SameRoots(old(trie), trie, root)
      ensures Shaped() && Round(trie, kinds, parent, kind, elems, frontier, root, j + 1, next + batch)
      ensures RootSlots(trie, kinds) && RootsKept(old(trie), trie)
    {
      ghost var t1, k1, p1 := trie, kinds, parent;
      Expand(f, kind);
      ReplacedRoots(t1, trie, f, root);
      RoundExpanded(t1, k1, p1, trie, kinds, parent, kind, elems, frontier, root, j, next);
      ChildrenFrom(trie, kind, elems[kind], f, indices);
      batch := Children(trie[f.0][f.1].num, indices);
      RoundDone(trie, kinds, parent, kind, elems, frontier, root, j, next, batch);
    }

    /** Store the instruction in every slot of the complete frontier, unless a strong one is in the way. */
    method WriteLeaves(frontier: seq<Slot>, desc: nat, weak: bool, ghost root: nat, ghost elems: seq<Option<seq<nat>>>)
      returns (ok: bool)
      requires Shaped() && Unshared(trie, parent, 0, None) && RootSlots(trie, kinds)
      requires |elems| == 6 && Frontier(trie, frontier, root, elems, 6) && BelowTop(frontier)
      modifies `trie, `kindmap, `kinds, `parent
      ensures Shaped() && Unshared(trie, parent, 0, None) && RootSlots(trie, kinds)
      ensures ok ==> Written(old(trie), trie, frontier, desc, weak)
      ensures ok <==> weak || !exists f :: f in frontier && InRange(old(trie), f) && At(old(trie), f).Instr? && !At(old(trie), f).weak
      ensures |trie| > 0 && |trie[0]| == old(|trie[0]|) && (ok ==> SameRoots(old(trie), trie, root))
    {
      hide WellFormed, Unshared, RootSlots, Covers, Reached;
      ghost var t0 := trie;
      for j := 0 to |frontier|
        invariant kinds == old(kinds) && parent == old(parent) && kindmap == old(kindmap)
        invariant Written(t0, trie, frontier[..j], desc, weak)
        invariant weak || !exists f :: f in frontier[..j] && InRange(t0, f) && At(t0, f).Instr? && !At(t0, f).weak
      {
        var f := frontier[j];
        FrontierRank(t0, kinds, root, f, 6);
        assert f !in frontier[..j];
        var e := trie[f.0][f.1];
        assert e == t0[f.0][f.1];
        if e.Empty? || (e.Instr? && e.weak) {
          trie := trie[f.0 := trie[f.0][f.1 := Instr(desc, weak)]];
        } else if !weak {
          WrittenTree(t0, kinds, parent, trie, frontier[..j], desc, weak);
          return false;
        }
        assert frontier[..j + 1] == frontier[..j] + [f];
      }
      assert frontier[..|frontier|] == frontier;
      WrittenTree(t0, kinds, parent, trie, frontier, desc, weak);
      WrittenRoots(t0, trie, frontier, desc, weak, root);
      return true;
    }

    /**
     * Add one opcode for one decode mode. The result is false where the
     * generator stops with "redundant non-weak": two strong opcodes share a vector.
     */
    method AddOpcode(opcode: Opcode, desc: nat, root: nat, weak: bool) returns (ok: bool)
      requires Valid() && ValidOpcode(opcode) && root < |trie[0]|
      modifies this
      ensures var p := Pattern(root, TransformOpcode(opcode), desc, weak);
        && ValidElems(p.elems)
        && (ok <==> forall i :: 0 <= i < |old(added)| ==> !Conflict(old(added)[i], p))
        && (ok ==> Valid() && added == old(added) + [p])
      ensures |trie| > 0 && |trie[0]| == old(|trie[0]|)
      ensures ok && old(RootsUsed(trie, added)) ==> RootsUsed(trie, added)
    {
      var elems := TransformOpcode(opcode);
      TransformValid(opcode);
      hide TransformOpcode, RootsUsed, SameRoots, KindLists, WellFormed, Unshared, RootSlots, Frontier, BelowTop, Means,
        Conflict, NoConflicts, Written, ValidElems;
      var frontier := SplitLevels(root, elems);
      ghost var t, p := trie, Pattern(root, elems, desc, weak);
      InTheWayIff(trie, kinds, frontier, added, p);
      ghost var k0, p0 := kinds, parent;
      ok := WriteLeaves(frontier, desc, weak, root, elems);
      if ok {
        OpcodeAdded(old(trie), t, k0, p0, trie, frontier, added, p);
        added := added + [p];
      }
    }

    /** Split the trie along a pattern; the frontier is where its vectors end. */
    method SplitLevels(root: nat, elems: seq<Option<seq<nat>>>) returns (frontier: seq<Slot>)
      requires Valid() && ValidElems(elems) && root < |trie[0]|
      modifies `trie, `kindmap, `kinds, `parent
      ensures Valid() && |trie[0]| == old(|trie[0]|) && SameRoots(old(trie), trie, root)
      ensures Frontier(trie, frontier, root, elems, 6) && BelowTop(frontier)
    {
      frontier := [(0, root)];
      StartFrontier(trie, root, elems);
      for kind := 0 to 6
        invariant Shaped() && Unshared(trie, parent, 0, None) && RootSlots(trie, kinds)
        invariant |trie[0]| == old(|trie[0]|) && Means(trie, added) && SameRoots(old(trie), trie, root)
        invariant Frontier(trie, frontier, root, elems, kind) && (kind > 0 ==> BelowTop(frontier))
      {
        ghost var t := trie;
        frontier := ExpandLevel(frontier, kind, elems[kind], root, elems);
        MeansKept(t, trie, added);
      }
    }

    /** Skip tables with equal entries and share equal tables, from the innermost kind outwards. */
    method Deduplicate()
      requires Shaped()
      modifies `trie
      ensures Deduplicated(old(trie), kinds, trie)
    {
      var synonyms: map<nat, Entry> := map[];
      ghost var t0, done: set<nat> := trie, {};
      assert Progress(kinds, 5, 0, done);
      for kind := 6 downto 0
        invariant kinds == old(kinds) && kindmap == old(kindmap) && WellFormed(t0, kinds)
        invariant Reducing(t0, kinds, trie, done, synonyms)
        invariant Progress(kinds, kind - 1, 0, done)
      {
        synonyms, done := ReduceKind(kind, synonyms, t0, done);
      }
      assert NumsOf(kinds, -1)[..0] == [];
      FinishedIsDeduplicated(t0, kinds, trie, done, synonyms);
    }

    /** Process the tables of one kind; all tables of later kinds are finished. */
    method ReduceKind(kind: Kind, synonyms: map<nat, Entry>, ghost t0: seq<seq<Entry>>, ghost done: set<nat>)
      returns (synonyms': map<nat, Entry>, ghost done': set<nat>)
      requires kindmap == KindLists(kinds) && Reducing(t0, kinds, trie, done, synonyms) && Progress(kinds, kind, 0, done)
      modifies `trie
      ensures Reducing(t0, kinds, trie, done', synonyms') && Progress(kinds, kind - 1, 0, done')
    {
      hide Reducing, Progress, Entries, NumsOf, KindLists;
      KindListsAt(kinds, kind);
      var entries: map<seq<Entry>, nat> := map[];
      synonyms', done' := synonyms, done;
      SameLength(t0, kinds, trie, done, synonyms);
      NoEntries(kinds, trie, done, synonyms, kind);
      for j := 0 to |kindmap[kind]|
        invariant Reducing(t0, kinds, trie, done', synonyms')
        invariant Progress(kinds, kind, j, done')
        invariant Entries(kinds, trie, done', synonyms', kind, entries)
      {
        ProgressNext(kinds, kind, j, done');
        var num := kindmap[kind][j];
        synonyms', entries := ReduceTable(num, kind, synonyms', entries, t0, done');
        done' := done' + {num};
      }
      ProgressKind(kinds, kind, done');
    }

    /** Resolve the entries of one table, then skip it, share it or keep it. */
    method ReduceTable(num: nat, kind: Kind, synonyms: map<nat, Entry>, entries: map<seq<Entry>, nat>,
                       ghost t0: seq<seq<Entry>>, ghost done: set<nat>)
      returns (synonyms': map<nat, Entry>, entries': map<seq<Entry>, nat>)
      requires Reducing(t0, kinds, trie, done, synonyms) && Entries(kinds, trie, done, synonyms, kind, entries)
      requires Next(kinds, done, num) && kinds[num] == kind
      modifies `trie
      ensures Reducing(t0, kinds, trie, done + {num}, synonyms')
      ensures Entries(kinds, trie, done + {num}, synonyms', kind, entries')
    {
      ReducingBasics(t0, kinds, trie, done, synonyms, num);
      hide Reducing, Next, SameMeaning, Resolved;
      var row := Resolved(synonyms, trie[num]);
      synonyms', entries' := synonyms, entries;
      if Uniform(row) {
        hide Entries;
        UniformSynonym(t0, kinds, trie, done, synonyms, num);
        Dropped(t0, kinds, trie, done, synonyms, num, row[0]);
        EntriesDropped(kinds, trie, done, synonyms, kind, entries, num, row[0]);
        synonyms' := synonyms[num := row[0]];
        trie := trie[num := []];
      } else if row in entries {
        SharedSynonym(t0, kinds, trie, done, synonyms, num, entries[row]);
        Dropped(t0, kinds, trie, done, synonyms, num, Table(kind, entries[row]));
        EntriesDropped(kinds, trie, done, synonyms, kind, entries, num, Table(kind, entries[row]));
        hide Entries;
        synonyms' := synonyms[num := Table(kind, entries[row])];
        trie := trie[num := []];
      } else {
        Stored(t0, kinds, trie, done, synonyms, num);
        EntriesStored(kinds, trie, done, synonyms, kind, entries, num, row);
        hide Entries;
        entries' := entries[row := num];
        trie := trie[num := row];
      }
    }

    /** Pack the reduced trie into words. */
    method Compile() returns (res: CompileResult)
      requires Reduced(trie, kinds) && RootSlots(trie, kinds) && forall r :: 0 <= r < |trie[0]| ==> RefOk(kinds, -1, trie[0][r])
      ensures CompiledFrom(trie, kinds, res)
    {
      res := CompileTables(trie, kinds);
    }
  }
}
