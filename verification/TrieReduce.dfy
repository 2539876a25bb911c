/**
 * Deduplication: tables whose entries are all equal are skipped, equal tables
 * are shared. A removed table is left as an empty row.
 */
module TrieReduce {
  import opened OpcodeTrie
  import opened TrieShape

  function Resolve(synonyms: map<nat, Entry>, e: Entry): Entry {
    if e.Table? && e.num in synonyms then synonyms[e.num] else e
  }

  function Resolved(synonyms: map<nat, Entry>, row: seq<Entry>): (r: seq<Entry>)
    ensures |r| == |row| && forall i :: 0 <= i < |r| ==> r[i] == Resolve(synonyms, row[i])
  {
    seq(|row|, i requires 0 <= i < |row| => Resolve(synonyms, row[i]))
  }

  predicate Uniform(row: seq<Entry>) {
    |row| > 0 && forall i :: 0 <= i < |row| ==> row[i] == row[0]
  }

  /** An entry that refers to a finished table which is kept. */
  ghost predicate Kept(kinds: seq<int>, done: set<nat>, synonyms: map<nat, Entry>, e: Entry) {
    e.Table? ==> e.num in done && e.num !in synonyms && e.num < |kinds| && kinds[e.num] == e.kind
  }

  /** A kept table: its entries are kept and of later kinds, and not all the same. */
  ghost predicate KeptRow(kinds: seq<int>, done: set<nat>, synonyms: map<nat, Entry>, n: nat, row: seq<Entry>) {
    && n < |kinds| && 0 <= kinds[n] < 6 && |row| == TableLength(kinds[n])
    && !Uniform(row)
    && forall i :: 0 <= i < |row| ==> Kept(kinds, done, synonyms, row[i]) && RankOf(row[i]) > kinds[n]
  }

  /** The finished tables mean what they meant in `t0`, either as they are or through their synonym. */
  ghost predicate Reducing(t0: seq<seq<Entry>>, kinds: seq<int>, t: seq<seq<Entry>>, done: set<nat>, synonyms: map<nat, Entry>) {
    && WellFormed(t0, kinds) && |t| == |t0|
    && synonyms.Keys <= done
    && (forall n :: n in done ==> 1 <= n < |t|)
    && (forall n :: 0 <= n < |t| && n !in done ==> t[n] == t0[n])
    && (forall n :: n in done && n in synonyms ==>
          && t[n] == []
          && Kept(kinds, done, synonyms, synonyms[n]) && RankOf(synonyms[n]) >= kinds[n]
          && SameMeaning(t, synonyms[n], t0, Table(kinds[n], n)))
    && (forall n :: n in done && n !in synonyms ==>
          && KeptRow(kinds, done, synonyms, n, t[n])
          && SameMeaning(t, Table(kinds[n], n), t0, Table(kinds[n], n)))
    && (forall n, m :: n in done && m in done && n !in synonyms && m !in synonyms && kinds[n] == kinds[m] && t[n] == t[m] ==> n == m)
  }

  /** The walk from a kept entry stays among kept tables. */
  lemma {:induction false} KeptWalk(t0: seq<seq<Entry>>, kinds: seq<int>, t: seq<seq<Entry>>, done: set<nat>, synonyms: map<nat, Entry>,
                                    t': seq<seq<Entry>>, e: Entry, v: seq<nat>)
    requires Reducing(t0, kinds, t, done, synonyms) && |t'| == |t|
    requires forall n :: n in done && n !in synonyms ==> t'[n] == t[n]
    requires Kept(kinds, done, synonyms, e) && IsVector(v)
    ensures Walk(t', e, v) == Walk(t, e, v)
    decreases 6 - RankOf(e)
  {
    if e.Table? {
      assert KeptRow(kinds, done, synonyms, e.num, t[e.num]);
      KeptWalk(t0, kinds, t, done, synonyms, t', t[e.num][v[e.kind]], v);
    }
  }

  lemma KeptMeaning(t0: seq<seq<Entry>>, kinds: seq<int>, t: seq<seq<Entry>>, done: set<nat>, synonyms: map<nat, Entry>,
                    t': seq<seq<Entry>>, e: Entry)
    requires Reducing(t0, kinds, t, done, synonyms) && |t'| == |t|
    requires forall n :: n in done && n !in synonyms ==> t'[n] == t[n]
    requires Kept(kinds, done, synonyms, e)
    ensures SameMeaning(t', e, t, e)
  {
    forall v: seq<nat> | IsVector(v) ensures Walk(t', e, v) == Walk(t, e, v) {
      KeptWalk(t0, kinds, t, done, synonyms, t', e, v);
    }
  }

  /** Table `n` is the next one, and everything below it is finished. */
  ghost predicate Next(kinds: seq<int>, done: set<nat>, n: nat) {
    && 1 <= n < |kinds| && n !in done
    && forall m :: 1 <= m < |kinds| && kinds[m] > kinds[n] ==> m in done
  }

  /** Replacing the entries by their synonyms yields kept entries of the same meaning. */
  lemma ResolvedRow(t0: seq<seq<Entry>>, kinds: seq<int>, t: seq<seq<Entry>>, done: set<nat>, synonyms: map<nat, Entry>, n: nat)
    requires Reducing(t0, kinds, t, done, synonyms) && Next(kinds, done, n)
    ensures var row := Resolved(synonyms, t[n]);
      forall i :: 0 <= i < |row| ==>
        Kept(kinds, done, synonyms, row[i]) && RankOf(row[i]) > kinds[n] && SameMeaning(t, row[i], t0, t0[n][i])
  {
    forall i | 0 <= i < |t[n]|
      ensures var x := Resolve(synonyms, t[n][i]);
        Kept(kinds, done, synonyms, x) && RankOf(x) > kinds[n] && SameMeaning(t, x, t0, t0[n][i])
    {
      assert RefOk(kinds, kinds[n], t0[n][i]);
    }
  }

  /** Table `n` of `t0` means, for each vector, what the resolved entry means. */
  lemma RowMeaning(t0: seq<seq<Entry>>, kinds: seq<int>, t: seq<seq<Entry>>, n: nat, row: seq<Entry>, v: seq<nat>)
    requires WellFormed(t0, kinds) && 1 <= n < |t0| && |row| == TableLength(kinds[n]) && IsVector(v)
    requires forall i :: 0 <= i < |row| ==> SameMeaning(t, row[i], t0, t0[n][i])
    ensures Walk(t0, Table(kinds[n], n), v) == Walk(t, row[v[kinds[n]]], v)
  {
    assert RefOk(kinds, kinds[n], t0[n][v[kinds[n]]]);
  }

  ghost predicate SynonymOk(t0: seq<seq<Entry>>, kinds: seq<int>, t: seq<seq<Entry>>, done: set<nat>,
      synonyms: map<nat, Entry>, n: nat, s: Entry)
    requires n < |kinds| && 0 <= kinds[n] < 6
  {
    Kept(kinds, done, synonyms, s) && RankOf(s) >= kinds[n] && SameMeaning(t, s, t0, Table(kinds[n], n))
  }

  ghost predicate RowOk(t0: seq<seq<Entry>>, kinds: seq<int>, t: seq<seq<Entry>>, done: set<nat>, synonyms: map<nat, Entry>, n: nat)
    requires n < |kinds| == |t| && 0 <= kinds[n] < 6
  {
    KeptRow(kinds, done, synonyms, n, t[n]) && SameMeaning(t, Table(kinds[n], n), t0, Table(kinds[n], n))
  }

  /** One more table is finished: what was kept is still kept and means the same. */
  ghost predicate Carries(kinds: seq<int>, t: seq<seq<Entry>>, done: set<nat>, synonyms: map<nat, Entry>,
                          t': seq<seq<Entry>>, done': set<nat>, synonyms': map<nat, Entry>) {
    forall e :: Kept(kinds, done, synonyms, e) ==> Kept(kinds, done', synonyms', e) && SameMeaning(t', e, t, e)
  }

  lemma CarriesOver(t0: seq<seq<Entry>>, kinds: seq<int>, t: seq<seq<Entry>>, done: set<nat>, synonyms: map<nat, Entry>, n: nat,
                    t': seq<seq<Entry>>, synonyms': map<nat, Entry>)
    requires Reducing(t0, kinds, t, done, synonyms) && Next(kinds, done, n)
    requires |t'| == |t| && (forall m :: 0 <= m < |t| && m != n ==> t'[m] == t[m])
    requires forall m :: m != n ==> (m in synonyms' <==> m in synonyms)
    ensures Carries(kinds, t, done, synonyms, t', done + {n}, synonyms')
  {
    forall e | Kept(kinds, done, synonyms, e) ensures Kept(kinds, done + {n}, synonyms', e) && SameMeaning(t', e, t, e) {
      KeptMeaning(t0, kinds, t, done, synonyms, t', e);
    }
  }

  lemma SynonymCarried(t0: seq<seq<Entry>>, kinds: seq<int>, t: seq<seq<Entry>>, done: set<nat>, synonyms: map<nat, Entry>,
                       t': seq<seq<Entry>>, done': set<nat>, synonyms': map<nat, Entry>, n: nat, s: Entry)
    requires Carries(kinds, t, done, synonyms, t', done', synonyms')
    requires n < |kinds| && 0 <= kinds[n] < 6 && SynonymOk(t0, kinds, t, done, synonyms, n, s)
    ensures SynonymOk(t0, kinds, t', done', synonyms', n, s)
  {
    hide Walk;
  }

  lemma RowCarried(t0: seq<seq<Entry>>, kinds: seq<int>, t: seq<seq<Entry>>, done: set<nat>, synonyms: map<nat, Entry>,
                   t': seq<seq<Entry>>, done': set<nat>, synonyms': map<nat, Entry>, n: nat)
    requires Carries(kinds, t, done, synonyms, t', done', synonyms')
    requires n < |kinds| == |t| == |t'| && 0 <= kinds[n] < 6 && n in done && n !in synonyms && t'[n] == t[n]
    requires RowOk(t0, kinds, t, done, synonyms, n)
    ensures RowOk(t0, kinds, t', done', synonyms', n)
  {
    hide Walk, Uniform;
    var e := Table(kinds[n], n);
    assert Kept(kinds, done, synonyms, e);
    hide Kept;
  }

  /** Skipping or sharing table `n`: `s` is the entry that replaces it. */
  lemma Dropped(t0: seq<seq<Entry>>, kinds: seq<int>, t: seq<seq<Entry>>, done: set<nat>, synonyms: map<nat, Entry>, n: nat, s: Entry)
    requires Reducing(t0, kinds, t, done, synonyms) && Next(kinds, done, n)
    requires Kept(kinds, done, synonyms, s) && RankOf(s) >= kinds[n]
    requires SameMeaning(t, s, t0, Table(kinds[n], n))
    ensures Reducing(t0, kinds, t[n := []], done + {n}, synonyms[n := s])
  {
    hide SameMeaning, Kept, KeptRow;
    var t', done', syn': map<nat, Entry> := t[n := []], done + {n}, synonyms[n := s];
    CarriesOver(t0, kinds, t, done, synonyms, n, t', syn');
    forall m | m in done && m !in synonyms ensures RowOk(t0, kinds, t', done', syn', m) {
      RowCarried(t0, kinds, t, done, synonyms, t', done', syn', m);
    }
    forall m | m in done' && m in syn' ensures SynonymOk(t0, kinds, t', done', syn', m, syn'[m]) {
      SynonymCarried(t0, kinds, t, done, synonyms, t', done', syn', m, syn'[m]);
    }
  }

  /** The resolved row means what the table meant. */
  lemma StoredMeaning(t0: seq<seq<Entry>>, kinds: seq<int>, t: seq<seq<Entry>>, done: set<nat>, synonyms: map<nat, Entry>, n: nat)
    requires Reducing(t0, kinds, t, done, synonyms) && Next(kinds, done, n)
    requires !Uniform(Resolved(synonyms, t[n]))
    ensures RowOk(t0, kinds, t[n := Resolved(synonyms, t[n])], done + {n}, synonyms, n)
  {
    var row := Resolved(synonyms, t[n]);
    var t' := t[n := row];
    ResolvedRow(t0, kinds, t, done, synonyms, n);
    CarriesOver(t0, kinds, t, done, synonyms, n, t', synonyms);
    hide Reducing, Resolved, Kept;
    forall v: seq<nat> | IsVector(v) ensures Walk(t', Table(kinds[n], n), v) == Walk(t0, Table(kinds[n], n), v) {
      RowMeaning(t0, kinds, t, n, row, v);
      var x := row[v[kinds[n]]];
      assert SameMeaning(t', x, t, x);
    }
  }

  /** Keeping table `n` with its entries resolved. */
  lemma Stored(t0: seq<seq<Entry>>, kinds: seq<int>, t: seq<seq<Entry>>, done: set<nat>, synonyms: map<nat, Entry>, n: nat)
    requires Reducing(t0, kinds, t, done, synonyms) && Next(kinds, done, n)
    requires !Uniform(Resolved(synonyms, t[n]))
    requires forall m :: m in done && m !in synonyms && kinds[m] == kinds[n] ==> t[m] != Resolved(synonyms, t[n])
    ensures Reducing(t0, kinds, t[n := Resolved(synonyms, t[n])], done + {n}, synonyms)
  {
    StoredMeaning(t0, kinds, t, done, synonyms, n);
    hide SameMeaning, Kept, KeptRow, Resolved, Uniform;
    var t', done' := t[n := Resolved(synonyms, t[n])], done + {n};
    CarriesOver(t0, kinds, t, done, synonyms, n, t', synonyms);
    forall m | m in done && m !in synonyms ensures RowOk(t0, kinds, t', done', synonyms, m) {
      RowCarried(t0, kinds, t, done, synonyms, t', done', synonyms, m);
    }
    forall m | m in done && m in synonyms ensures SynonymOk(t0, kinds, t', done', synonyms, m, synonyms[m]) {
      SynonymCarried(t0, kinds, t, done, synonyms, t', done', synonyms, m, synonyms[m]);
    }
  }

  /** A table with equal entries can be skipped. */
  lemma UniformSynonym(t0: seq<seq<Entry>>, kinds: seq<int>, t: seq<seq<Entry>>, done: set<nat>, synonyms: map<nat, Entry>, n: nat)
    requires Reducing(t0, kinds, t, done, synonyms) && Next(kinds, done, n)
    requires Uniform(Resolved(synonyms, t[n]))
    ensures var s := Resolved(synonyms, t[n])[0];
      Kept(kinds, done, synonyms, s) && RankOf(s) >= kinds[n] && SameMeaning(t, s, t0, Table(kinds[n], n))
  {
    var row := Resolved(synonyms, t[n]);
    ResolvedRow(t0, kinds, t, done, synonyms, n);
    forall v: seq<nat> | IsVector(v) ensures Walk(t, row[0], v) == Walk(t0, Table(kinds[n], n), v) {
      RowMeaning(t0, kinds, t, n, row, v);
    }
  }

  /** A table equal to a kept one can be shared. */
  lemma SharedSynonym(t0: seq<seq<Entry>>, kinds: seq<int>, t: seq<seq<Entry>>, done: set<nat>, synonyms: map<nat, Entry>, n: nat, m: nat)
    requires Reducing(t0, kinds, t, done, synonyms) && Next(kinds, done, n)
    requires m in done && m !in synonyms && kinds[m] == kinds[n] && t[m] == Resolved(synonyms, t[n])
    ensures SameMeaning(t, Table(kinds[n], m), t0, Table(kinds[n], n))
  {
    var row := Resolved(synonyms, t[n]);
    ResolvedRow(t0, kinds, t, done, synonyms, n);
    forall v: seq<nat> | IsVector(v) ensures Walk(t, Table(kinds[n], m), v) == Walk(t0, Table(kinds[n], n), v) {
      RowMeaning(t0, kinds, t, n, row, v);
      assert RankOf(row[v[kinds[n]]]) > kinds[n];
    }
  }
}
