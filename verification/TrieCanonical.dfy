/**
 * A reduced trie is canonical: entries that mean the same are the same.
 */
module TrieCanonical {
  import opened OpcodeTrie
  import opened TrieShape
  import opened TrieReduce

  ghost predicate Live(t: seq<seq<Entry>>, n: nat) {
    1 <= n < |t| && t[n] != []
  }

  /** A reference to a table that was kept. */
  ghost predicate LiveRef(t: seq<seq<Entry>>, kinds: seq<int>, above: int, e: Entry) {
    e.Table? ==> Live(t, e.num) && e.num < |kinds| && kinds[e.num] == e.kind && e.kind > above
  }

  ghost predicate Reduced(t: seq<seq<Entry>>, kinds: seq<int>) {
    && |t| == |kinds| >= 1
    && (forall n: nat :: Live(t, n) ==> 0 <= kinds[n] < 6 && |t[n]| == TableLength(kinds[n]) && !Uniform(t[n]))
    && (forall n: nat, i: nat :: Live(t, n) && i < |t[n]| ==> LiveRef(t, kinds, kinds[n], t[n][i]))
    && (forall n: nat, m: nat :: Live(t, n) && Live(t, m) && kinds[n] == kinds[m] && t[n] == t[m] ==> n == m)
  }

  ghost predicate AllTables(t: seq<seq<Entry>>, done: set<nat>) {
    forall n: nat :: n in done <==> 1 <= n < |t|
  }

  /** Once every table is finished, the trie is reduced, and a table is gone exactly if it has a synonym. */
  lemma FinishedIsReduced(t0: seq<seq<Entry>>, kinds: seq<int>, t: seq<seq<Entry>>, done: set<nat>, synonyms: map<nat, Entry>)
    requires Reducing(t0, kinds, t, done, synonyms) && AllTables(t, done)
    ensures Reduced(t, kinds)
    ensures forall n: nat :: 1 <= n < |t| ==> (n in synonyms <==> t[n] == [])
    ensures forall e :: Kept(kinds, done, synonyms, e) ==> LiveRef(t, kinds, -1, e)
  {
    forall n: nat | 1 <= n < |t| ensures n in synonyms <==> t[n] == [] {
      if n !in synonyms { assert KeptRow(kinds, done, synonyms, n, t[n]); }
    }
    forall n: nat | Live(t, n)
      ensures KeptRow(kinds, done, synonyms, n, t[n])
      ensures forall i: nat :: i < |t[n]| ==> LiveRef(t, kinds, kinds[n], t[n][i])
    {
    }
  }

  /** A walk looks only at the indices of its own rank and later. */
  lemma {:induction false} WalkLater(t: seq<seq<Entry>>, e: Entry, v: seq<nat>, w: seq<nat>)
    requires |v| == 6 && |w| == 6 && forall k: Kind :: k >= RankOf(e) ==> v[k] == w[k]
    ensures Walk(t, e, v) == Walk(t, e, w)
    decreases 6 - RankOf(e)
  {
    if e.Table? && e.num < |t| && v[e.kind] < |t[e.num]| && RankOf(t[e.num][v[e.kind]]) > e.kind {
      WalkLater(t, t[e.num][v[e.kind]], v, w);
    }
  }

  lemma VectorUpdate(v: seq<nat>, k: Kind, i: nat)
    requires IsVector(v) && i < TableLength(k)
    ensures IsVector(v[k := i])
  {
  }

  function Lower(a: Entry, b: Entry): nat {
    if RankOf(a) < RankOf(b) then RankOf(a) else RankOf(b)
  }

  /** Different entries of a reduced trie are told apart by some vector. */
  lemma {:induction false} Separate(t: seq<seq<Entry>>, kinds: seq<int>, a: Entry, b: Entry) returns (v: seq<nat>)
    requires Reduced(t, kinds) && LiveRef(t, kinds, -1, a) && LiveRef(t, kinds, -1, b) && a != b
    ensures IsVector(v) && Walk(t, a, v) != Walk(t, b, v)
    decreases 6 - Lower(a, b), 1
  {
    if !a.Table? && !b.Table? {
      v := [0, 0, 0, 0, 0, 0];
    } else if RankOf(a) < RankOf(b) {
      v := SeparateRanks(t, kinds, a, b);
    } else if RankOf(b) < RankOf(a) {
      v := SeparateRanks(t, kinds, b, a);
    } else {
      var k, ra, rb := a.kind, t[a.num], t[b.num];
      var i :| 0 <= i < |ra| && ra[i] != rb[i];
      assert LiveRef(t, kinds, kinds[a.num], ra[i]) && LiveRef(t, kinds, kinds[b.num], rb[i]);
      var u := Separate(t, kinds, ra[i], rb[i]);
      VectorUpdate(u, k, i);
      v := u[k := i];
      WalkLater(t, ra[i], u, v);
      WalkLater(t, rb[i], u, v);
    }
  }

  /** The first step of a walk. */
  lemma WalkInto(t: seq<seq<Entry>>, kinds: seq<int>, a: Entry, v: seq<nat>)
    requires Reduced(t, kinds) && LiveRef(t, kinds, -1, a) && a.Table? && IsVector(v)
    ensures v[a.kind] < |t[a.num]| && Walk(t, a, v) == Walk(t, t[a.num][v[a.kind]], v)
  {
    assert LiveRef(t, kinds, kinds[a.num], t[a.num][v[a.kind]]);
  }

  lemma {:induction false} SeparateRanks(t: seq<seq<Entry>>, kinds: seq<int>, a: Entry, b: Entry) returns (v: seq<nat>)
    requires Reduced(t, kinds) && LiveRef(t, kinds, -1, a) && LiveRef(t, kinds, -1, b) && RankOf(a) < RankOf(b)
    ensures IsVector(v) && Walk(t, a, v) != Walk(t, b, v)
    decreases 6 - Lower(a, b), 0
  {
    var k, row := a.kind, t[a.num];
    var i :| 0 <= i < |row| && row[i] != row[0];
    assert LiveRef(t, kinds, kinds[a.num], row[i]) && LiveRef(t, kinds, kinds[a.num], row[0]);
    var u := Separate(t, kinds, row[i], row[0]);
    VectorUpdate(u, k, i);
    VectorUpdate(u, k, 0);
    WalkLater(t, row[i], u, u[k := i]);
    WalkLater(t, row[0], u, u[k := 0]);
    WalkLater(t, b, u, u[k := i]);
    WalkLater(t, b, u, u[k := 0]);
    WalkInto(t, kinds, a, u[k := i]);
    WalkInto(t, kinds, a, u[k := 0]);
    hide Walk, Reduced, LiveRef, IsVector;
    v := if Walk(t, row[i], u) != Walk(t, b, u) then u[k := i] else u[k := 0];
  }

  /** Every kept table is needed: some vector gets another answer when only the index of that kind changes. */
  lemma Sensitive(t: seq<seq<Entry>>, kinds: seq<int>, e: Entry) returns (v: seq<nat>, i: nat)
    requires Reduced(t, kinds) && LiveRef(t, kinds, -1, e) && e.Table?
    ensures IsVector(v) && i < TableLength(e.kind) && IsVector(v[e.kind := i]) && Walk(t, e, v) != Walk(t, e, v[e.kind := i])
  {
    var k, row := e.kind, t[e.num];
    i :| 0 <= i < |row| && row[i] != row[0];
    assert LiveRef(t, kinds, kinds[e.num], row[i]) && LiveRef(t, kinds, kinds[e.num], row[0]);
    var u := Separate(t, kinds, row[i], row[0]);
    VectorUpdate(u, k, i);
    VectorUpdate(u, k, 0);
    v := u[k := 0];
    assert v[k := i] == u[k := i];
    WalkLater(t, row[i], u, u[k := i]);
    WalkLater(t, row[0], u, v);
  }

  /** Entries with the same meaning are the same entry. */
  lemma Canonical(t: seq<seq<Entry>>, kinds: seq<int>, a: Entry, b: Entry)
    requires Reduced(t, kinds) && LiveRef(t, kinds, -1, a) && LiveRef(t, kinds, -1, b)
    ensures SameMeaning(t, a, t, b) <==> a == b
  {
    if a != b {
      var v := Separate(t, kinds, a, b);
    }
  }
}
