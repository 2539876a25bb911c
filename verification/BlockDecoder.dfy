/**
 * Function::Decode: a queue of addresses, straight runs of instructions, and
 * blocks that are split when control turns out to enter their middle.
 */
module BlockDecoder {
  import opened Options
  import opened InstrFlow
  import opened CodeReach

  /** Instructions in order of decoding, blocks as index ranges, and where each address is: (block, index). */
  datatype Layout = Layout(insts: seq<Addr>, blocks: seq<(nat, nat)>, at: map<Addr, (nat, nat)>)

  ghost predicate InBlock(d: Layout, k: nat, j: nat) {
    k < |d.blocks| && d.blocks[k].0 <= j < d.blocks[k].1
  }

  /** Each address is decoded once, and the map knows its index. */
  ghost predicate IndexOk(d: Layout) {
    && (forall j :: 0 <= j < |d.insts| ==> d.insts[j] in d.at && d.at[d.insts[j]].1 == j)
    && (forall a :: a in d.at ==> d.at[a].1 < |d.insts| && d.insts[d.at[a].1] == a)
  }

  /** The blocks partition the first `n` instructions into non-empty ranges, and the map names the block of each. */
  ghost predicate BlocksOk(d: Layout, n: nat) {
    && n <= |d.insts|
    && (forall j :: 0 <= j < |d.insts| ==> d.insts[j] in d.at)
    && (forall k :: 0 <= k < |d.blocks| ==> d.blocks[k].0 < d.blocks[k].1 <= n)
    && (forall k: nat, j: nat :: InBlock(d, k, j) ==> d.at[d.insts[j]].0 == k)
    && (forall j: nat :: j < n ==> InBlock(d, d.at[d.insts[j]].0, j))
  }

  /** Inside a block every instruction runs on into the next one. */
  ghost predicate Straight(p: Program, d: Layout) {
    && (forall k :: 0 <= k < |d.blocks| ==> d.blocks[k].1 <= |d.insts|)
    && (forall k: nat, j: nat :: InBlock(d, k, j) && j + 1 < d.blocks[k].1 ==>
          RunsOn(p, d.insts[j]) && After(p, d.insts[j]) == d.insts[j + 1])
  }

  ghost predicate IsStart(d: Layout, a: Addr) {
    a in d.at && d.at[a].0 < |d.blocks| && d.blocks[d.at[a].0].0 == d.at[a].1
  }

  /**
   * If the last instruction of a block runs on, then into the start of a block
   * or into nothing, or to an `open` address where a block is about to be cut.
   */
  ghost predicate EndOk(p: Program, d: Layout, last: Addr, open: set<Addr>) {
    RunsOn(p, last) ==> !Decodable(p, After(p, last)) || IsStart(d, After(p, last)) || After(p, last) in open
  }

  ghost predicate EndsOk(p: Program, d: Layout, open: set<Addr>) {
    && (forall k :: 0 <= k < |d.blocks| ==> 0 < d.blocks[k].1 <= |d.insts|)
    && forall k :: 0 <= k < |d.blocks| ==> EndOk(p, d, d.insts[d.blocks[k].1 - 1], open)
  }

  /** Every block starts where control enters, or where two instructions run into. */
  ghost predicate Justified(f: Facts, d: Layout) {
    && (forall k :: 0 <= k < |d.blocks| ==> d.blocks[k].0 < |d.insts|)
    && forall k :: 0 <= k < |d.blocks| ==> d.insts[d.blocks[k].0] in f.entered || d.insts[d.blocks[k].0] in f.joined
  }

  ghost predicate Sound(f: Facts, d: Layout) {
    forall j :: 0 <= j < |d.insts| ==> d.insts[j] in f.reached
  }

  /** The layout is consistent, with the blocks covering the first `n` instructions. */
  ghost predicate LayoutOk(p: Program, f: Facts, d: Layout, n: nat, open: set<Addr>) {
    IndexOk(d) && BlocksOk(d, n) && Straight(p, d) && EndsOk(p, d, open) && Justified(f, d) && Sound(f, d)
  }

  /** Whatever was queued is still waiting, is no instruction, or starts a block. */
  ghost predicate QueueOk(p: Program, f: Facts, d: Layout, queue: seq<Addr>) {
    && (forall a :: a in queue ==> a in f.entered)
    && Handled(p, d, queue, p.entry)
    && (forall j :: 0 <= j < |d.insts| ==> forall a :: a in JumpsTo(p, d.insts[j]) ==> Handled(p, d, queue, a))
  }

  ghost predicate Handled(p: Program, d: Layout, queue: seq<Addr>, a: Addr) {
    a in queue || !Decodable(p, a) || IsStart(d, a)
  }

  // ------------------------------------------------------------- splitting

  /** The layout after block `k` is cut in front of instruction `s`. */
  ghost predicate Cut(d: Layout, d': Layout, k: nat, s: nat) {
    && k < |d.blocks| && d.blocks[k].0 < s < d.blocks[k].1 <= |d.insts|
    && d'.insts == d.insts
    && d'.blocks == d.blocks[k := (d.blocks[k].0, s)] + [(s, d.blocks[k].1)]
    && d'.at.Keys == d.at.Keys
    && forall a :: a in d.at ==>
         d'.at[a] == if s <= d.at[a].1 < d.blocks[k].1 then (|d.blocks|, d.at[a].1) else d.at[a]
  }

  lemma CutBlocks(d: Layout, d': Layout, k: nat, s: nat)
    requires IndexOk(d) && BlocksOk(d, |d.insts|) && Cut(d, d', k, s)
    ensures IndexOk(d') && BlocksOk(d', |d'.insts|)
  {
    forall k': nat, j: nat | InBlock(d', k', j) ensures d'.at[d'.insts[j]].0 == k' {
      assert InBlock(d, if k' == |d.blocks| then k else k', j);
      if s <= j < d.blocks[k].1 { assert InBlock(d, k, j); }
    }
    forall j: nat | j < |d'.insts| ensures InBlock(d', d'.at[d'.insts[j]].0, j) {
      assert InBlock(d, d.at[d.insts[j]].0, j);
      if s <= j < d.blocks[k].1 { assert InBlock(d, k, j); }
    }
  }

  /** Block starts remain block starts. */
  lemma CutStarts(d: Layout, d': Layout, k: nat, s: nat)
    requires IndexOk(d) && BlocksOk(d, |d.insts|) && Cut(d, d', k, s)
    ensures StartsKept(d, d') && IsStart(d', d.insts[s])
  {
    forall a | IsStart(d, a) ensures IsStart(d', a) {
      var b := d.at[a].0;
      assert InBlock(d, b, d.blocks[b].0);
      if s <= d.at[a].1 < d.blocks[k].1 { assert InBlock(d, k, d.at[a].1); }
    }
  }

  lemma CutStraight(p: Program, d: Layout, d': Layout, k: nat, s: nat)
    requires Straight(p, d) && Cut(d, d', k, s)
    ensures Straight(p, d')
  {
    forall k': nat, j: nat | InBlock(d', k', j) && j + 1 < d'.blocks[k'].1
      ensures RunsOn(p, d'.insts[j]) && After(p, d'.insts[j]) == d'.insts[j + 1]
    {
      assert InBlock(d, if k' == |d.blocks| then k else k', j);
    }
  }

  ghost predicate StartsKept(d: Layout, d': Layout) {
    forall a :: IsStart(d, a) ==> IsStart(d', a)
  }

  lemma CutEnds(p: Program, d: Layout, d': Layout, k: nat, s: nat, open: set<Addr>)
    requires Straight(p, d) && EndsOk(p, d, open) && Cut(d, d', k, s)
    requires StartsKept(d, d') && IsStart(d', d.insts[s])
    ensures EndsOk(p, d', open - {d.insts[s]})
  {
    assert InBlock(d, k, s - 1);
    assert EndOk(p, d, d.insts[d.blocks[k].1 - 1], open);
    forall k' | 0 <= k' < |d'.blocks|
      ensures 0 < d'.blocks[k'].1 <= |d'.insts| && EndOk(p, d', d'.insts[d'.blocks[k'].1 - 1], open - {d.insts[s]})
    {
      if k' != k && k' < |d.blocks| {
        assert d'.blocks[k'] == d.blocks[k'];
        assert EndOk(p, d, d.insts[d.blocks[k'].1 - 1], open);
      }
    }
  }

  lemma CutOk(p: Program, f: Facts, d: Layout, d': Layout, k: nat, s: nat, open: set<Addr>)
    requires LayoutOk(p, f, d, |d.insts|, open) && Cut(d, d', k, s)
    requires d.insts[s] in f.entered || d.insts[s] in f.joined
    ensures LayoutOk(p, f, d', |d'.insts|, open - {d.insts[s]})
  {
    CutBlocks(d, d', k, s);
    CutStraight(p, d, d', k, s);
    CutStarts(d, d', k, s);
    CutEnds(p, d, d', k, s, open);
    CutJustified(f, d, d', k, s);
  }

  lemma CutJustified(f: Facts, d: Layout, d': Layout, k: nat, s: nat)
    requires Justified(f, d) && Cut(d, d', k, s)
    requires d.insts[s] in f.entered || d.insts[s] in f.joined
    ensures Justified(f, d')
  {
    forall k' | 0 <= k' < |d'.blocks| ensures d'.insts[d'.blocks[k'].0] in f.entered || d'.insts[d'.blocks[k'].0] in f.joined {
      if k' < |d.blocks| { assert d'.blocks[k'].0 == d.blocks[k'].0; }
    }
  }

  // ------------------------------------------------------------ straight runs

  /** The instructions from `start` on form a run that is not yet a block. */
  ghost predicate Running(p: Program, d: Layout, start: nat) {
    && (forall j :: start <= j < |d.insts| ==> d.insts[j] in d.at && d.at[d.insts[j]].0 == |d.blocks|)
    && (forall j :: start <= j < |d.insts| - 1 ==> RunsOn(p, d.insts[j]) && After(p, d.insts[j]) == d.insts[j + 1])
  }

  ghost predicate RunOk(p: Program, f: Facts, d: Layout, start: nat) {
    LayoutOk(p, f, d, start, {}) && Running(p, d, start)
  }

  /** Where decoding continues: at the queued address, or behind the last instruction of the run. */
  ghost predicate ContinuesAt(p: Program, d: Layout, start: nat, from: Addr, cur: Addr) {
    if |d.insts| <= start then cur == from
    else d.insts[start] == from && RunsOn(p, d.insts[|d.insts| - 1]) && After(p, d.insts[|d.insts| - 1]) == cur
  }

  function Appended(d: Layout, a: Addr): Layout {
    Layout(d.insts + [a], d.blocks, d.at[a := (|d.blocks|, |d.insts|)])
  }

  lemma AppendedStarts(d: Layout, a: Addr)
    requires a !in d.at
    ensures StartsKept(d, Appended(d, a))
  {
  }

  lemma AppendedBlocks(d: Layout, start: nat, a: Addr)
    requires IndexOk(d) && BlocksOk(d, start) && a !in d.at
    ensures IndexOk(Appended(d, a)) && BlocksOk(Appended(d, a), start)
  {
    var d' := Appended(d, a);
    forall k: nat, j: nat | InBlock(d', k, j) ensures d'.at[d'.insts[j]].0 == k {
      assert InBlock(d, k, j) && d'.insts[j] == d.insts[j];
    }
    forall j: nat | j < start ensures InBlock(d', d'.at[d'.insts[j]].0, j) {
      assert InBlock(d, d.at[d.insts[j]].0, j);
    }
  }

  lemma AppendedStraight(p: Program, d: Layout, a: Addr)
    requires Straight(p, d)
    ensures Straight(p, Appended(d, a))
  {
    var d' := Appended(d, a);
    forall k: nat, j: nat | InBlock(d', k, j) && j + 1 < d'.blocks[k].1
      ensures RunsOn(p, d'.insts[j]) && After(p, d'.insts[j]) == d'.insts[j + 1]
    {
      assert InBlock(d, k, j);
    }
  }

  lemma AppendedEnds(p: Program, d: Layout, a: Addr)
    requires EndsOk(p, d, {}) && a !in d.at
    ensures EndsOk(p, Appended(d, a), {})
  {
    var d' := Appended(d, a);
    AppendedStarts(d, a);
    forall k | 0 <= k < |d'.blocks| ensures EndOk(p, d', d'.insts[d'.blocks[k].1 - 1], {}) {
      assert EndOk(p, d, d.insts[d.blocks[k].1 - 1], {});
    }
  }

  lemma AppendedLayout(p: Program, f: Facts, d: Layout, start: nat, a: Addr)
    requires LayoutOk(p, f, d, start, {}) && a !in d.at && a in f.reached
    ensures LayoutOk(p, f, Appended(d, a), start, {})
  {
    AppendedBlocks(d, start, a);
    AppendedStraight(p, d, a);
    AppendedEnds(p, d, a);
    AppendedJustified(f, d, a);
  }

  lemma AppendedJustified(f: Facts, d: Layout, a: Addr)
    requires Justified(f, d) && Sound(f, d) && a in f.reached
    ensures Justified(f, Appended(d, a)) && Sound(f, Appended(d, a))
  {
    var d' := Appended(d, a);
    forall k | 0 <= k < |d'.blocks| ensures d'.insts[d'.blocks[k].0] in f.entered || d'.insts[d'.blocks[k].0] in f.joined {
      assert d'.insts[d'.blocks[k].0] == d.insts[d.blocks[k].0];
    }
  }

  lemma AppendedRun(p: Program, d: Layout, start: nat, from: Addr, a: Addr)
    requires start <= |d.insts| && Running(p, d, start) && ContinuesAt(p, d, start, from, a) && a !in d.at
    ensures Running(p, Appended(d, a), start) && Appended(d, a).insts[start] == from
  {
  }

  /** The instruction at the point of continuation is reached. */
  lemma ContinuesReached(p: Program, f: Facts, d: Layout, start: nat, from: Addr, cur: Addr)
    requires Laws(p, f) && Sound(f, d) && ContinuesAt(p, d, start, from, cur) && from in f.entered && Decodable(p, cur)
    ensures cur in f.reached
  {
    if |d.insts| <= start {
      assert EnterRule(p, f, from);
    } else {
      assert RunRule(p, f, d.insts[|d.insts| - 1]);
    }
  }

  lemma QueueKept(p: Program, f: Facts, d: Layout, d': Layout, queue: seq<Addr>, more: seq<Addr>)
    requires QueueOk(p, f, d, queue) && StartsKept(d, d')
    requires forall a :: a in more ==> a in f.entered
    requires forall j :: 0 <= j < |d'.insts| ==>
      (j < |d.insts| && d'.insts[j] == d.insts[j]) || forall a :: a in JumpsTo(p, d'.insts[j]) ==> a in more
    ensures QueueOk(p, f, d', queue + more)
  {
    forall a | Handled(p, d, queue, a) ensures Handled(p, d', queue + more, a) {
    }
  }

  /** What the switch in the decode loop pushes for an instruction, in order. */
  function Pushes(a: Addr, i: Insn, followCalls: bool): (r: seq<Addr>)
    ensures forall x :: x in r <==> x in Targets(a, i, followCalls)
  {
    var target := if JumpTarget(a, i).Some? then [JumpTarget(a, i).value] else [];
    match KindOf(i.op)
    case COND_BRANCH => [Plus(a, i.len)] + target
    case BRANCH => target
    case CALL => if followCalls then [Plus(a, i.len)] else []
    case UNKNOWN => []
    case OTHER => []
  }

  /** How a run ends when it does not meet a known address. */
  ghost predicate EndsThere(p: Program, d: Layout, start: nat, from: Addr) {
    if |d.insts| <= start then !Decodable(p, from)
    else d.insts[start] == from && (RunsOn(p, d.insts[|d.insts| - 1]) ==> !Decodable(p, After(p, d.insts[|d.insts| - 1])))
  }

  ghost predicate Grown(d0: Layout, d: Layout) {
    d.blocks == d0.blocks && |d.insts| >= |d0.insts| && d.insts[..|d0.insts|] == d0.insts && StartsKept(d0, d)
  }

  lemma SizeBound(d: Layout)
    requires IndexOk(d)
    ensures |d.at| <= SPACE
  {
    var keys: set<nat> := set a | a in d.at :: a;
    assert |d.at| == |d.at.Keys|;
    assert keys == d.at.Keys;
    Bounded(keys, SPACE);
  }

  /** The state of the inner loop. */
  ghost predicate InRun(p: Program, f: Facts, d0: Layout, d: Layout, queue: seq<Addr>, from: Addr) {
    RunOk(p, f, d, |d0.insts|) && Grown(d0, d) && QueueOk(p, f, d, [from] + queue)
  }

  /** One more instruction of a run. */
  lemma RunStep(p: Program, f: Facts, d0: Layout, d: Layout, queue: seq<Addr>, from: Addr, cur: Addr)
    requires InRun(p, f, d0, d, queue, from) && ContinuesAt(p, d, |d0.insts|, from, cur)
    requires Laws(p, f) && from in f.entered && Decodable(p, cur) && cur !in d.at
    ensures var d' := Appended(d, cur);
      && InRun(p, f, d0, d', queue + Pushes(cur, (p.code)(cur).value, p.followCalls), from)
      && d'.insts[|d0.insts|] == from && |d'.at| == |d.at| + 1 <= SPACE
  {
    hide IndexOk, BlocksOk, Straight, EndsOk, Justified, QueueOk, Running;
    var d' := Appended(d, cur);
    var more := Pushes(cur, (p.code)(cur).value, p.followCalls);
    ContinuesReached(p, f, d, |d0.insts|, from, cur);
    AppendedLayout(p, f, d, |d0.insts|, cur);
    AppendedRun(p, d, |d0.insts|, from, cur);
    AppendedQueue(p, f, d, [from] + queue, cur);
    assert [from] + (queue + more) == [from] + queue + more;
    AppendedStarts(d, cur);
    SizeBound(d');
    assert |d'.at| == |d.at| + 1 by { assert d'.at.Keys == d.at.Keys + {cur}; assert |d'.at| == |d'.at.Keys| && |d.at| == |d.at.Keys|; }
  }

  /** Decode from `from` until control leaves the straight line, nothing can be decoded, or a known address is met. */
  method DecodeRun(p: Program, d0: Layout, queue0: seq<Addr>, from: Addr, ghost f: Facts)
    returns (d: Layout, queue: seq<Addr>, cur: Addr, found: bool)
    requires LayoutOk(p, f, d0, |d0.insts|, {}) && QueueOk(p, f, d0, [from] + queue0) && from in f.entered && Laws(p, f)
    ensures InRun(p, f, d0, d, queue, from)
    ensures found ==> cur in d.at && ContinuesAt(p, d, |d0.insts|, from, cur)
    ensures !found ==> EndsThere(p, d, |d0.insts|, from)
    ensures (d == d0 && queue == queue0) || |d.at| > |d0.at|
  {
    hide IndexOk, BlocksOk, Straight, EndsOk, Justified, Sound, QueueOk, Laws;
    ghost var start := |d0.insts|;
    d, queue, cur := d0, queue0, from;
    found := cur in d.at;
    while !found
      invariant InRun(p, f, d0, d, queue, from)
      invariant ContinuesAt(p, d, start, from, cur) && found == (cur in d.at)
      invariant (d == d0 && queue == queue0) || |d.at| > |d0.at|
      decreases SPACE - |d.at|
    {
      var insn := (p.code)(cur);
      if insn.None? {
        return;
      }
      RunStep(p, f, d0, d, queue, from, cur);
      d := Appended(d, cur);
      queue := queue + Pushes(cur, insn.value, p.followCalls);
      if KindOf(insn.value.op) != OTHER {
        return;
      }
      cur := Plus(cur, insn.value.len);
      found := cur in d.at;
    }
  }

  lemma AppendedQueue(p: Program, f: Facts, d: Layout, queue: seq<Addr>, a: Addr)
    requires Laws(p, f) && QueueOk(p, f, d, queue) && a !in d.at && a in f.reached && Decodable(p, a)
    ensures QueueOk(p, f, Appended(d, a), queue + Pushes(a, (p.code)(a).value, p.followCalls))
  {
    var more := Pushes(a, (p.code)(a).value, p.followCalls);
    AppendedStarts(d, a);
    assert JumpRule(p, f, a);
    QueueKept(p, f, d, Appended(d, a), queue, more);
  }

  // ----------------------------------------------------------- closing a run

  function Closed(d: Layout, start: nat): Layout {
    if |d.insts| != start then d.(blocks := d.blocks + [(start, |d.insts|)]) else d
  }

  lemma ClosedStarts(d: Layout, start: nat)
    ensures StartsKept(d, Closed(d, start))
  {
  }

  lemma ClosedBlocks(p: Program, d: Layout, start: nat)
    requires IndexOk(d) && BlocksOk(d, start) && Running(p, d, start) && start < |d.insts|
    ensures IndexOk(Closed(d, start)) && BlocksOk(Closed(d, start), |d.insts|)
  {
    var d' := Closed(d, start);
    forall k: nat, j: nat | InBlock(d', k, j) ensures d'.at[d'.insts[j]].0 == k {
      if k < |d.blocks| { assert InBlock(d, k, j); }
    }
    forall j: nat | j < |d.insts| ensures InBlock(d', d'.at[d'.insts[j]].0, j) {
      if j < start { assert InBlock(d, d.at[d.insts[j]].0, j); }
    }
  }

  lemma ClosedStraight(p: Program, d: Layout, start: nat)
    requires Straight(p, d) && Running(p, d, start) && start < |d.insts|
    ensures Straight(p, Closed(d, start))
  {
    var d' := Closed(d, start);
    forall k: nat, j: nat | InBlock(d', k, j) && j + 1 < d'.blocks[k].1
      ensures RunsOn(p, d'.insts[j]) && After(p, d'.insts[j]) == d'.insts[j + 1]
    {
      if k < |d.blocks| { assert InBlock(d, k, j); }
    }
  }

  lemma ClosedEnds(p: Program, d: Layout, start: nat, open: set<Addr>)
    requires EndsOk(p, d, {}) && start < |d.insts|
    requires EndOk(p, d, d.insts[|d.insts| - 1], open)
    ensures EndsOk(p, Closed(d, start), open)
  {
    var d' := Closed(d, start);
    ClosedStarts(d, start);
    forall k | 0 <= k < |d'.blocks| ensures EndOk(p, d', d'.insts[d'.blocks[k].1 - 1], open) {
      if k < |d.blocks| { assert EndOk(p, d, d.insts[d.blocks[k].1 - 1], {}); }
    }
  }

  /** The run becomes a block; it may still run on into the `open` address. */
  lemma ClosedOk(p: Program, f: Facts, d: Layout, start: nat, open: set<Addr>)
    requires RunOk(p, f, d, start) && start < |d.insts| && d.insts[start] in f.entered
    requires EndOk(p, d, d.insts[|d.insts| - 1], open)
    ensures LayoutOk(p, f, Closed(d, start), |d.insts|, open) && IsStart(Closed(d, start), d.insts[start])
  {
    hide IndexOk, BlocksOk, Straight, EndsOk, EndOk, Justified, Sound, IsStart;
    ClosedBlocks(p, d, start);
    ClosedStraight(p, d, start);
    ClosedEnds(p, d, start, open);
    ClosedJustified(f, d, start);
    ClosedStart(d, start);
  }

  lemma ClosedStart(d: Layout, start: nat)
    requires start < |d.insts| && IndexOk(Closed(d, start)) && BlocksOk(Closed(d, start), |d.insts|)
    ensures IsStart(Closed(d, start), d.insts[start])
  {
    assert InBlock(Closed(d, start), |d.blocks|, start);
  }

  lemma ClosedJustified(f: Facts, d: Layout, start: nat)
    requires Justified(f, d) && Sound(f, d) && start < |d.insts| && d.insts[start] in f.entered
    ensures Justified(f, Closed(d, start)) && Sound(f, Closed(d, start))
  {
    var d' := Closed(d, start);
    forall k | 0 <= k < |d'.blocks| ensures d'.insts[d'.blocks[k].0] in f.entered || d'.insts[d'.blocks[k].0] in f.joined {
      if k < |d.blocks| { assert d'.blocks[k] == d.blocks[k]; }
    }
  }

  // ------------------------------------------------------------- cutting in code

  /** The loop that moves the instructions behind the cut to the new block. */
  method CutAt(d: Layout, k: nat, s: nat) returns (d': Layout)
    requires IndexOk(d) && k < |d.blocks| && d.blocks[k].0 < s < d.blocks[k].1 <= |d.insts|
    ensures Cut(d, d', k, s)
  {
    var end := d.blocks[k].1;
    var blocks := d.blocks[k := (d.blocks[k].0, s)] + [(s, end)];
    var at := d.at;
    for j := s to end
      invariant at.Keys == d.at.Keys
      invariant forall a :: a in d.at ==> at[a] == if s <= d.at[a].1 < j then (|d.blocks|, d.at[a].1) else d.at[a]
    {
      at := at[d.insts[j] := (|d.blocks|, j)];
    }
    d' := Layout(d.insts, blocks, at);
  }

  /** Where the split is for: control enters there, or a second instruction runs into it. */
  lemma CutReason(p: Program, f: Facts, d: Layout, start: nat, from: Addr, cur: Addr)
    requires Laws(p, f) && IndexOk(d) && BlocksOk(d, |d.insts|) && Straight(p, d) && Sound(f, d)
    requires from in f.entered && ContinuesAt(p, d, start, from, cur) && cur in d.at && !IsStart(d, cur)
    ensures cur in f.entered || cur in f.joined
  {
    var s := d.at[cur].1;
    var k := d.at[cur].0;
    assert InBlock(d, k, s);
    assert InBlock(d, k, s - 1);
    if |d.insts| > start {
      var last := d.insts[|d.insts| - 1];
      assert d.at[d.insts[s - 1]].1 == s - 1 && d.at[last].1 == |d.insts| - 1;
      assert JoinRule(p, f, d.insts[s - 1], last);
    }
  }

  /** Make `cur` the start of a block. */
  method SplitAt(p: Program, d: Layout, cur: Addr, ghost f: Facts, ghost start: nat, ghost from: Addr) returns (d': Layout)
    requires Laws(p, f) && LayoutOk(p, f, d, |d.insts|, {cur})
    requires from in f.entered && ContinuesAt(p, d, start, from, cur) && cur in d.at
    ensures LayoutOk(p, f, d', |d'.insts|, {}) && IsStart(d', cur) && StartsKept(d, d')
    ensures d'.insts == d.insts && d'.at.Keys == d.at.Keys
  {
    var k, s := d.at[cur].0, d.at[cur].1;
    assert InBlock(d, k, s);
    if d.blocks[k].0 == s {
      NothingOpen(p, d, cur);
      return d;
    }
    CutReason(p, f, d, start, from, cur);
    d' := CutAt(d, k, s);
    CutOk(p, f, d, d', k, s, {cur});
    CutStarts(d, d', k, s);
    assert {cur} - {d.insts[s]} == {};
  }

  lemma NothingOpen(p: Program, d: Layout, cur: Addr)
    requires EndsOk(p, d, {cur}) && IsStart(d, cur)
    ensures EndsOk(p, d, {})
  {
    forall k | 0 <= k < |d.blocks| ensures EndOk(p, d, d.insts[d.blocks[k].1 - 1], {}) {
      assert EndOk(p, d, d.insts[d.blocks[k].1 - 1], {cur});
    }
  }

  // ------------------------------------------------------------ the whole loop

  lemma OpenMore(p: Program, d: Layout, open: set<Addr>)
    requires EndsOk(p, d, {})
    ensures EndsOk(p, d, open)
  {
    forall k | 0 <= k < |d.blocks| ensures EndOk(p, d, d.insts[d.blocks[k].1 - 1], open) {
      assert EndOk(p, d, d.insts[d.blocks[k].1 - 1], {});
    }
  }

  /** After a run: its block is closed, and the queued address starts it if it was decoded. */
  lemma AfterRun(p: Program, f: Facts, d0: Layout, d: Layout, queue: seq<Addr>, from: Addr, cur: Addr, found: bool)
    requires InRun(p, f, d0, d, queue, from) && from in f.entered
    requires if found then ContinuesAt(p, d, |d0.insts|, from, cur) else EndsThere(p, d, |d0.insts|, from)
    ensures var d' := Closed(d, |d0.insts|);
      && LayoutOk(p, f, d', |d'.insts|, if found then {cur} else {}) && StartsKept(d, d')
      && (|d.insts| > |d0.insts| ==> IsStart(d', from))
  {
    hide IndexOk, BlocksOk, Straight, EndsOk, Justified, Sound, QueueOk;
    var open := if found then {cur} else {};
    ClosedStarts(d, |d0.insts|);
    if |d.insts| > |d0.insts| {
      assert EndOk(p, d, d.insts[|d.insts| - 1], open);
      ClosedOk(p, f, d, |d0.insts|, open);
    } else {
      OpenMore(p, d, open);
    }
  }

  lemma QueueDone(p: Program, f: Facts, d: Layout, d': Layout, queue: seq<Addr>, from: Addr)
    requires QueueOk(p, f, d, [from] + queue) && StartsKept(d, d') && d'.insts == d.insts
    requires !Decodable(p, from) || IsStart(d', from)
    ensures QueueOk(p, f, d', queue)
  {
    assert forall a :: a in [from] + queue <==> a == from || a in queue;
    forall a | Handled(p, d, [from] + queue, a) ensures Handled(p, d', queue, a) {
    }
  }

  /** One round of the outer loop. */
  method Process(p: Program, d0: Layout, queue0: seq<Addr>, from: Addr, ghost f: Facts) returns (d: Layout, queue: seq<Addr>)
    requires LayoutOk(p, f, d0, |d0.insts|, {}) && QueueOk(p, f, d0, [from] + queue0) && from in f.entered && Laws(p, f)
    ensures LayoutOk(p, f, d, |d.insts|, {}) && QueueOk(p, f, d, queue)
    ensures |d.at| <= SPACE && (|d.at| > |d0.at| || (|d.at| == |d0.at| && queue == queue0))
  {
    hide IndexOk, BlocksOk, Straight, EndsOk, Justified, Sound, QueueOk, Laws, StartsKept;
    var start := |d0.insts|;
    var d1, cur, found;
    d1, queue, cur, found := DecodeRun(p, d0, queue0, from, f);
    AfterRun(p, f, d0, d1, queue, from, cur, found);
    d := Closed(d1, start);
    if found {
      ghost var d2 := d;
      d := SplitAt(p, d, cur, f, start, from);
      StartsTrans(d1, d2, d);
      StartsOf(d2, d, from);
      SizeOf(d2, d);
    }
    QueueDone(p, f, d1, d, queue, from);
    SizeBound(d);
  }

  lemma StartsTrans(a: Layout, b: Layout, c: Layout)
    requires StartsKept(a, b) && StartsKept(b, c)
    ensures StartsKept(a, c)
  {
  }

  lemma StartsOf(a: Layout, b: Layout, x: Addr)
    requires StartsKept(a, b)
    ensures IsStart(a, x) ==> IsStart(b, x)
  {
  }

  lemma SizeOf(a: Layout, b: Layout)
    requires a.at.Keys == b.at.Keys
    ensures |a.at| == |b.at|
  {
    assert |a.at| == |a.at.Keys| && |b.at| == |b.at.Keys|;
  }

  /** What Function::Decode promises about its blocks. */
  ghost predicate Recovered(p: Program, d: Layout) {
    && IndexOk(d) && BlocksOk(d, |d.insts|) && Straight(p, d) && EndsOk(p, d, {})
    && (forall a: Addr :: a in d.at <==> Reached(p, a))
    && (forall a: Addr :: IsStart(d, a) <==> Leader(p, a))
  }

  /** Function::Decode with stop at ALL: decode everything that is reached, each instruction once, in blocks. */
  method Decode(p: Program) returns (d: Layout)
    ensures Recovered(p, d)
  {
    hide *;
    ghost var f := FactsOf(p);
    FactsLaws(p);
    d := Layout([], [], map[]);
    var queue := [p.entry];
    NothingDecoded(p, f);
    while queue != []
      invariant LayoutOk(p, f, d, |d.insts|, {}) && QueueOk(p, f, d, queue) && |d.at| <= SPACE
      decreases SPACE - |d.at|, |queue|
    {
      var from := queue[0];
      assert [from] + queue[1..] == queue;
      QueueEntered(p, f, d, queue);
      d, queue := Process(p, d, queue[1..], from, f);
    }
    Finished(p, f, d);
  }

  lemma NothingDecoded(p: Program, f: Facts)
    requires Laws(p, f)
    ensures LayoutOk(p, f, Layout([], [], map[]), 0, {}) && QueueOk(p, f, Layout([], [], map[]), [p.entry])
  {
  }

  lemma Finished(p: Program, f: Facts, d: Layout)
    requires LayoutOk(p, f, d, |d.insts|, {}) && QueueOk(p, f, d, []) && f == FactsOf(p)
    ensures Recovered(p, d)
  {
    hide IndexOk, BlocksOk, Straight, EndsOk, Justified, Sound, QueueOk, Reached, Leader, IsStart;
    DecodedAll(p, f, d);
    StartsAreLeaders(p, f, d);
  }

  lemma QueueEntered(p: Program, f: Facts, d: Layout, queue: seq<Addr>)
    requires QueueOk(p, f, d, queue) && queue != []
    ensures queue[0] in f.entered
  {
  }

  lemma BlockOf(d: Layout, b: Addr)
    requires IndexOk(d) && BlocksOk(d, |d.insts|) && b in d.at
    ensures InBlock(d, d.at[b].0, d.at[b].1) && d.at[b].1 < |d.insts| && d.insts[d.at[b].1] == b
  {
  }

  /** Where a decoded instruction runs on to: the next one of its block, or the start of a block. */
  lemma RunsWhere(p: Program, d: Layout, b: Addr)
    requires IndexOk(d) && BlocksOk(d, |d.insts|) && Straight(p, d) && EndsOk(p, d, {})
    requires b in d.at && RunsOn(p, b) && Decodable(p, After(p, b))
    ensures var c := After(p, b); IsStart(d, c) || (c in d.at && d.at[c].1 == d.at[b].1 + 1)
  {
    hide IndexOk, BlocksOk, Straight, EndsOk, IsStart;
    BlockOf(d, b);
    var j, k := d.at[b].1, d.at[b].0;
    if j + 1 < d.blocks[k].1 {
      StraightAt(p, d, k, j);
    } else {
      EndAt(p, d, k);
    }
  }

  lemma StraightAt(p: Program, d: Layout, k: nat, j: nat)
    requires IndexOk(d) && Straight(p, d) && InBlock(d, k, j) && j + 1 < d.blocks[k].1
    ensures RunsOn(p, d.insts[j]) && After(p, d.insts[j]) in d.at && d.at[After(p, d.insts[j])].1 == j + 1
  {
    assert After(p, d.insts[j]) == d.insts[j + 1];
  }

  lemma EndAt(p: Program, d: Layout, k: nat)
    requires EndsOk(p, d, {}) && k < |d.blocks|
    ensures 0 < d.blocks[k].1 <= |d.insts| && EndOk(p, d, d.insts[d.blocks[k].1 - 1], {})
  {
  }

  lemma JumpsWhere(p: Program, f: Facts, d: Layout, b: Addr, c: Addr)
    requires IndexOk(d) && QueueOk(p, f, d, []) && b in d.at && c in JumpsTo(p, b) && Decodable(p, c)
    ensures IsStart(d, c)
  {
    assert d.insts[d.at[b].1] == b;
    assert Handled(p, d, [], c);
  }

  /** With nothing left in the queue, the successors of every decoded instruction are decoded. */
  lemma ClosedUnder(p: Program, f: Facts, d: Layout, b: Addr, c: Addr)
    requires LayoutOk(p, f, d, |d.insts|, {}) && QueueOk(p, f, d, []) && b in d.at && Follows(p, b, c) && Decodable(p, c)
    ensures c in d.at
  {
    hide IndexOk, BlocksOk, Straight, EndsOk, Justified, Sound, QueueOk;
    if c in JumpsTo(p, b) {
      JumpsWhere(p, f, d, b, c);
    } else {
      RunsWhere(p, d, b);
    }
  }

  lemma DecodedAll(p: Program, f: Facts, d: Layout)
    requires LayoutOk(p, f, d, |d.insts|, {}) && QueueOk(p, f, d, []) && f == FactsOf(p)
    ensures forall a: Addr :: a in d.at <==> Reached(p, a)
  {
    hide BlocksOk, Straight, EndsOk, Justified;
    forall b: Addr, c: Addr | b in d.at.Keys && Follows(p, b, c) && Decodable(p, c) ensures c in d.at.Keys {
      ClosedUnder(p, f, d, b, c);
    }
    assert Handled(p, d, [], p.entry);
    forall a: Addr | Reached(p, a) ensures a in d.at {
      var trace: seq<Addr> :| IsTrace(p, trace, a);
      ClosedContains(p, d.at.Keys, trace, a);
    }
    forall a: Addr | a in d.at ensures Reached(p, a) {
      assert d.insts[d.at[a].1] in f.reached;
    }
  }

  lemma LeaderStarts(p: Program, f: Facts, d: Layout, a: Addr)
    requires LayoutOk(p, f, d, |d.insts|, {}) && QueueOk(p, f, d, [])
    requires (forall b: Addr :: b in d.at <==> Reached(p, b)) && Leader(p, a) && Decodable(p, a)
    ensures IsStart(d, a)
  {
    hide BlocksOk, Straight, EndsOk, Justified, Sound, IsTrace;
    if a == p.entry {
      assert Handled(p, d, [], a);
    } else if Entered(p, a) {
      var b: Addr :| Reached(p, b) && a in JumpsTo(p, b);
      JumpsWhere(p, f, d, b, a);
    } else {
      var b: Addr, c: Addr :| b != c && RunsInto(p, b, a) && RunsInto(p, c, a);
      RunsWhere(p, d, b);
      RunsWhere(p, d, c);
      assert d.insts[d.at[b].1] == b && d.insts[d.at[c].1] == c;
    }
  }

  lemma StartsAreLeaders(p: Program, f: Facts, d: Layout)
    requires LayoutOk(p, f, d, |d.insts|, {}) && QueueOk(p, f, d, []) && f == FactsOf(p)
    requires forall b: Addr :: b in d.at <==> Reached(p, b)
    ensures forall a: Addr :: IsStart(d, a) <==> Leader(p, a)
  {
    hide Straight, EndsOk, QueueOk, IsTrace;
    forall a: Addr ensures IsStart(d, a) <==> Leader(p, a) {
      if Leader(p, a) {
        ReachedDecodable(p, a);
        LeaderStarts(p, f, d, a);
      }
      if IsStart(d, a) {
        assert d.insts[d.blocks[d.at[a].0].0] == a;
      }
    }
  }
}
