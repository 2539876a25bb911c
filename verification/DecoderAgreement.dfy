/**
 * The lifter's decoder and the server's decoder recover the same blocks,
 * although they queue in different orders and mark blocks differently.
 */
module DecoderAgreement {
  import opened InstrFlow
  import opened CodeReach
  import B = BlockDecoder
  import P = Predecoder

  /** An instruction that is no leader is run into by the same instruction in both. */
  lemma OnlyOneRunsInto(p: Program, s: P.Stream, b: Addr, c: Addr)
    requires P.Predecoded(p, s) && RunsInto(p, b, c) && Reached(p, c) && !Leader(p, c)
    ensures b in s.at && c in s.at && s.at[c] == s.at[b] + 1
  {
    hide Reached, Leader, Entered, Joined;
    var i := s.at[c];
    assert !P.Flagged(s, c);
    var before := s.insts[i - 1].addr;
    assert before in s.at && RunsInto(p, before, c);
    if before != b {
      BothRunInto(p, b, before, c);
    }
  }

  lemma BothRunInto(p: Program, b: Addr, b': Addr, c: Addr)
    requires b != b' && RunsInto(p, b, c) && RunsInto(p, b', c) && Reached(p, c)
    ensures Leader(p, c)
  {
  }

  /** Inside a block of the lifter, the instruction `t + 1` is the successor of `t` for the server too. */
  lemma StepsTogether(p: Program, d: B.Layout, s: P.Stream, k: nat, j: nat)
    requires B.Recovered(p, d) && P.Predecoded(p, s)
    requires B.InBlock(d, k, j) && j + 1 < d.blocks[k].1
    ensures d.blocks[k].1 <= |d.insts| && d.insts[j] in s.at && d.insts[j + 1] in s.at
    ensures s.at[d.insts[j + 1]] == s.at[d.insts[j]] + 1 && !Leader(p, d.insts[j + 1])
  {
    hide Reached, Leader, P.Predecoded;
    var b, c := d.insts[j], d.insts[j + 1];
    assert b in d.at && c in d.at;
    assert B.InBlock(d, k, j + 1);
    assert !B.IsStart(d, c);
    assert RunsInto(p, b, c);
    OnlyOneRunsInto(p, s, b, c);
  }

  ghost function Start(d: B.Layout, s: P.Stream, k: nat): nat
    requires k < |d.blocks| && d.blocks[k].0 < |d.insts| && d.insts[d.blocks[k].0] in s.at
  {
    s.at[d.insts[d.blocks[k].0]]
  }

  lemma StartKnown(p: Program, d: B.Layout, s: P.Stream, k: nat)
    requires B.Recovered(p, d) && P.Predecoded(p, s) && k < |d.blocks|
    ensures d.blocks[k].0 < d.blocks[k].1 <= |d.insts| && d.insts[d.blocks[k].0] in s.at
    ensures Leader(p, d.insts[d.blocks[k].0]) && P.Flagged(s, d.insts[d.blocks[k].0])
  {
    hide Reached, Leader;
    assert B.InBlock(d, k, d.blocks[k].0);
    assert B.IsStart(d, d.insts[d.blocks[k].0]);
  }

  lemma {:induction false} SameRun(p: Program, d: B.Layout, s: P.Stream, k: nat, j: nat)
    requires B.Recovered(p, d) && P.Predecoded(p, s) && B.InBlock(d, k, j)
    ensures d.blocks[k].1 <= |d.insts| && d.insts[d.blocks[k].0] in s.at && d.insts[j] in s.at
    ensures s.at[d.insts[j]] == Start(d, s, k) + (j - d.blocks[k].0)
    ensures P.Flagged(s, d.insts[j]) <==> j == d.blocks[k].0
    decreases j
  {
    hide Reached, Leader, B.Recovered, P.Predecoded, P.Flagged;
    StartKnown(p, d, s, k);
    if j > d.blocks[k].0 {
      SameRun(p, d, s, k, j - 1);
      StepsTogether(p, d, s, k, j - 1);
      NotFlagged(p, s, d.insts[j]);
    }
  }

  lemma NotFlagged(p: Program, s: P.Stream, a: Addr)
    requires P.Predecoded(p, s) && !Leader(p, a)
    ensures !P.Flagged(s, a)
  {
  }

  ghost predicate SameInst(d: B.Layout, s: P.Stream, lo: nat, i: nat, j: nat)
    requires lo <= j < |d.insts| && i + (j - lo) < |s.insts|
  {
    s.insts[i + (j - lo)].addr == d.insts[j] && (s.insts[i + (j - lo)].newBlock <==> j == lo)
  }

  /** The server's list has, from `i` on, exactly the instructions of block `k`, with a flag on the first alone. */
  ghost predicate SameBlock(d: B.Layout, s: P.Stream, k: nat, i: nat)
    requires k < |d.blocks| && d.blocks[k].0 <= d.blocks[k].1 <= |d.insts|
  {
    var (lo, hi) := d.blocks[k];
    && i + (hi - lo) <= |s.insts|
    && (forall j: nat :: lo <= j < hi ==> SameInst(d, s, lo, i, j))
    && (i + (hi - lo) == |s.insts| || s.insts[i + (hi - lo)].newBlock)
  }

  /** After the last instruction of a block the server's list ends or has a flag. */
  lemma SameEnd(p: Program, d: B.Layout, s: P.Stream, k: nat)
    requires B.Recovered(p, d) && P.Predecoded(p, s) && k < |d.blocks|
    ensures d.blocks[k].0 < d.blocks[k].1 <= |d.insts| && d.insts[d.blocks[k].0] in s.at
    ensures var e := Start(d, s, k) + d.blocks[k].1 - d.blocks[k].0; e == |s.insts| || (e < |s.insts| && s.insts[e].newBlock)
  {
    hide Reached, Leader, B.IndexOk, B.BlocksOk, B.Straight;
    StartKnown(p, d, s, k);
    var last := d.insts[d.blocks[k].1 - 1];
    SameRun(p, d, s, k, d.blocks[k].1 - 1);
    var e := s.at[last] + 1;
    assert s.insts[e - 1].addr == last;
    if e < |s.insts| {
      var c := s.insts[e].addr;
      assert Reached(p, c) by { assert c in s.at; }
      ReachedDecodable(p, c);
      B.EndAt(p, d, k);
    }
  }

  /** The main result: same instructions, same leaders, and block by block the same runs. */
  lemma DecodersAgree(p: Program, d: B.Layout, s: P.Stream)
    requires B.Recovered(p, d) && P.Predecoded(p, s)
    ensures d.at.Keys == s.at.Keys
    ensures forall a: Addr :: B.IsStart(d, a) <==> P.Flagged(s, a)
    ensures forall k: nat :: k < |d.blocks| ==> BlocksMatch(d, s, k)
  {
    SameAddresses(p, d, s);
    hide *;
    forall k: nat | k < |d.blocks| ensures BlocksMatch(d, s, k) {
      BlockAgrees(p, d, s, k);
    }
  }

  lemma SameAddresses(p: Program, d: B.Layout, s: P.Stream)
    requires B.Recovered(p, d) && P.Predecoded(p, s)
    ensures d.at.Keys == s.at.Keys
    ensures forall a: Addr :: B.IsStart(d, a) <==> P.Flagged(s, a)
  {
    hide Reached, Leader, B.IndexOk, B.BlocksOk, B.Straight, B.EndsOk, B.IsStart, P.IndexOk, P.Straight, P.NextsOk, P.Flagged;
  }

  ghost predicate BlocksMatch(d: B.Layout, s: P.Stream, k: nat) {
    && k < |d.blocks| && d.blocks[k].0 < d.blocks[k].1 <= |d.insts| && d.insts[d.blocks[k].0] in s.at
    && SameBlock(d, s, k, Start(d, s, k))
  }

  lemma BlockAgrees(p: Program, d: B.Layout, s: P.Stream, k: nat)
    requires B.Recovered(p, d) && P.Predecoded(p, s) && k < |d.blocks|
    ensures BlocksMatch(d, s, k)
  {
    hide B.Recovered, P.Straight, P.NextsOk, Reached, Leader;
    SameEnd(p, d, s, k);
    var (lo, hi) := d.blocks[k];
    var i := Start(d, s, k);
    forall j: nat | lo <= j < hi ensures i + (j - lo) < |s.insts| && SameInst(d, s, lo, i, j) {
      SameRun(p, d, s, k, j);
      assert s.insts[s.at[d.insts[j]]].addr == d.insts[j];
    }
    assert i + (hi - 1 - lo) < |s.insts|;
  }
}
