/**
 * The dirty-register analysis behind OptimizePacks: a worklist over the basic
 * blocks, with sets of register bits.
 */
module PackFlow {

  type RegSet = set<nat>

  /** Blocks are numbered; `dirty` and `cleaned` are the sets of each block's register file at its end. */
  datatype Graph = Graph(succ: seq<seq<nat>>, pred: seq<seq<nat>>, dirty: seq<RegSet>, cleaned: seq<RegSet>, entry: nat)

  /** All registers that any block makes dirty. */
  ghost function AllOf(sets: seq<RegSet>): (u: RegSet)
    ensures forall i :: 0 <= i < |sets| ==> sets[i] <= u
  {
    if sets == [] then {} else
      assert forall i :: 1 <= i < |sets| ==> sets[i] == sets[1..][i - 1];
      sets[0] + AllOf(sets[1..])
  }

  ghost predicate ValidGraph(g: Graph) {
    && |g.succ| == |g.pred| == |g.dirty| == |g.cleaned| && g.entry < |g.succ|
    && (forall b: nat, s: nat :: b < |g.succ| && s in g.succ[b] ==> s < |g.succ|)
    && (forall b: nat, p: nat :: b < |g.succ| && p in g.pred[b] ==> p < |g.succ|)
    && (forall b: nat, s: nat :: b < |g.succ| && s < |g.succ| ==> (s in g.succ[b] <==> b in g.pred[s]))
  }

  // ----------------------------------------------------------------- paths

  ghost predicate IsPath(g: Graph, path: seq<nat>)
    requires ValidGraph(g)
  {
    && |path| > 0 && path[0] == g.entry
    && (forall i :: 0 <= i < |path| ==> path[i] < |g.succ|)
    && (forall i :: 0 <= i < |path| - 1 ==> path[i + 1] in g.succ[path[i]])
  }

  ghost predicate PathTo(g: Graph, path: seq<nat>, b: nat)
    requires ValidGraph(g)
  {
    IsPath(g, path) && path[|path| - 1] == b
  }

  ghost predicate Reachable(g: Graph, b: nat)
    requires ValidGraph(g)
  {
    exists path: seq<nat> :: PathTo(g, path, b)
  }

  /** Dirty registers when block `b` is left, given those when it is entered. */
  function Transfer(g: Graph, b: nat, pre: RegSet): RegSet
    requires b < |g.dirty| && b < |g.cleaned|
  {
    (pre - g.cleaned[b]) + g.dirty[b]
  }

  /** Dirty registers at the end of a path, register by register along it. */
  ghost function PathDirty(g: Graph, path: seq<nat>): RegSet
    requires ValidGraph(g) && forall i :: 0 <= i < |path| ==> path[i] < |g.succ|
  {
    if path == [] then {} else Transfer(g, path[|path| - 1], PathDirty(g, path[..|path| - 1]))
  }

  ghost predicate DirtyVia(g: Graph, path: seq<nat>, b: nat, r: nat)
    requires ValidGraph(g)
  {
    PathTo(g, path, b) && r in PathDirty(g, path)
  }

  lemma PathSnoc(g: Graph, path: seq<nat>, p: nat, b: nat)
    requires ValidGraph(g) && PathTo(g, path, p) && b < |g.succ| && p in g.pred[b]
    ensures PathTo(g, path + [b], b) && PathDirty(g, path + [b]) == Transfer(g, b, PathDirty(g, path))
  {
    assert (path + [b])[..|path|] == path;
  }

  // -------------------------------------------------------------- analysis

  /** bb_map: for each visited block the dirty registers at its beginning and end. */
  type BlockMap = map<nat, (RegSet, RegSet)>

  function PostOf(m: BlockMap, b: nat): RegSet {
    if b in m then m[b].1 else {}
  }

  /** Union of the ends of the predecessors. */
  function PreOf(g: Graph, m: BlockMap, b: nat): RegSet
    requires b < |g.pred|
  {
    UnionOf(m, g.pred[b])
  }

  function UnionOf(m: BlockMap, ps: seq<nat>): RegSet {
    if ps == [] then {} else PostOf(m, ps[0]) + UnionOf(m, ps[1..])
  }

  lemma {:induction false} UnionHas(m: BlockMap, ps: seq<nat>, p: nat)
    requires p in ps
    ensures PostOf(m, p) <= UnionOf(m, ps)
  {
    if p != ps[0] {
      UnionHas(m, ps[1..], p);
    }
  }

  lemma {:induction false} UnionFrom(m: BlockMap, ps: seq<nat>, r: nat) returns (p: nat)
    requires r in UnionOf(m, ps)
    ensures p in ps && r in PostOf(m, p)
  {
    if r in PostOf(m, ps[0]) {
      p := ps[0];
    } else {
      p := UnionFrom(m, ps[1..], r);
    }
  }

  lemma {:induction false} UnionSame(m: BlockMap, m': BlockMap, ps: seq<nat>)
    requires forall p :: p in ps ==> PostOf(m, p) == PostOf(m', p)
    ensures UnionOf(m, ps) == UnionOf(m', ps)
  {
    if ps != [] {
      UnionSame(m, m', ps[1..]);
    }
  }

  lemma {:induction false} UnionGrows(m: BlockMap, m': BlockMap, ps: seq<nat>)
    requires forall p :: p in ps ==> PostOf(m, p) <= PostOf(m', p)
    ensures UnionOf(m, ps) <= UnionOf(m', ps)
  {
    if ps != [] {
      UnionGrows(m, m', ps[1..]);
    }
  }

  ghost predicate MapOk(g: Graph, m: BlockMap)
    requires ValidGraph(g)
  {
    forall b :: b in m ==>
      && b < |g.succ|
      && m[b].1 == Transfer(g, b, m[b].0)
      && m[b].0 <= PreOf(g, m, b)
      && m[b].1 <= AllOf(g.dirty)
  }

  /** Only registers that are dirty along some path are recorded, and only blocks that are reached. */
  ghost predicate Precise(g: Graph, m: BlockMap)
    requires ValidGraph(g)
  {
    && (forall b :: b in m ==> Reachable(g, b))
    && (forall b, r :: b in m && r in m[b].1 ==> exists path: seq<nat> :: DirtyVia(g, path, b, r))
  }

  /** Blocks outside the queue are up to date, and their successors are known or queued. */
  ghost predicate Settled(g: Graph, m: BlockMap, queue: set<nat>)
    requires ValidGraph(g)
  {
    && (g.entry in m || g.entry in queue)
    && (forall b :: b in m && b < |g.succ| && b !in queue ==> m[b].0 == PreOf(g, m, b))
    && (forall b, s :: b in m && b < |g.succ| && s in g.succ[b] ==> s in m || s in queue)
    && (forall b :: b in queue ==> b < |g.succ| && Reachable(g, b))
  }

  /** The fixpoint that the worklist ends with. */
  ghost predicate Solution(g: Graph, m: BlockMap)
    requires ValidGraph(g)
  {
    && (forall b: nat :: b in m <==> b < |g.succ| && Reachable(g, b))
    && (forall b :: b in m ==> m[b].0 == PreOf(g, m, b) && m[b].1 == Transfer(g, b, m[b].0))
    && (forall b, r :: b in m ==> (r in m[b].1 <==> exists path: seq<nat> :: DirtyVia(g, path, b, r)))
  }

  // -------------------------------------------------------------- one visit

  /** The map after block `b` is looked at. */
  function Visited(g: Graph, m: BlockMap, b: nat): BlockMap
    requires b < |g.pred| && b < |g.dirty| && b < |g.cleaned|
  {
    m[b := (PreOf(g, m, b), Transfer(g, b, PreOf(g, m, b)))]
  }

  predicate Changes(g: Graph, m: BlockMap, b: nat)
    requires b < |g.pred| && b < |g.dirty| && b < |g.cleaned|
  {
    b !in m || m[b].1 != Transfer(g, b, PreOf(g, m, b))
  }

  /** Ends only grow. */
  lemma VisitGrows(g: Graph, m: BlockMap, b: nat)
    requires ValidGraph(g) && MapOk(g, m) && b < |g.succ|
    ensures forall p :: PostOf(m, p) <= PostOf(Visited(g, m, b), p)
  {
    if b in m {
      assert m[b].0 <= PreOf(g, m, b);
    }
  }

  lemma VisitMapOk(g: Graph, m: BlockMap, b: nat)
    requires ValidGraph(g) && MapOk(g, m) && b < |g.succ|
    ensures MapOk(g, Visited(g, m, b))
  {
    var m' := Visited(g, m, b);
    VisitGrows(g, m, b);
    forall p | p in m' ensures m'[p].0 <= PreOf(g, m', p) {
      UnionGrows(m, m', g.pred[p]);
    }
    forall r | r in PreOf(g, m, b) ensures r in AllOf(g.dirty) {
      var p := UnionFrom(m, g.pred[b], r);
    }
  }

  /** Whatever is recorded for `b` is dirty along a path to it. */
  lemma VisitWitness(g: Graph, m: BlockMap, b: nat, r: nat) returns (path: seq<nat>)
    requires ValidGraph(g) && MapOk(g, m) && Precise(g, m) && b < |g.succ| && Reachable(g, b)
    requires r in Transfer(g, b, PreOf(g, m, b))
    ensures DirtyVia(g, path, b, r)
  {
    if r in g.dirty[b] {
      path :| PathTo(g, path, b);
    } else {
      var p := UnionFrom(m, g.pred[b], r);
      var q: seq<nat> :| DirtyVia(g, q, p, r);
      PathSnoc(g, q, p, b);
      path := q + [b];
    }
  }

  lemma VisitPrecise(g: Graph, m: BlockMap, b: nat)
    requires ValidGraph(g) && MapOk(g, m) && Precise(g, m) && b < |g.succ| && Reachable(g, b)
    ensures Precise(g, Visited(g, m, b))
  {
    forall r | r in Transfer(g, b, PreOf(g, m, b)) ensures exists path: seq<nat> :: DirtyVia(g, path, b, r) {
      var path := VisitWitness(g, m, b, r);
    }
  }

  lemma ReachableSucc(g: Graph, b: nat, s: nat)
    requires ValidGraph(g) && b < |g.succ| && Reachable(g, b) && s in g.succ[b]
    ensures s < |g.succ| && Reachable(g, s)
  {
    var path: seq<nat> :| PathTo(g, path, b);
    assert b in g.pred[s];
    PathSnoc(g, path, b, s);
  }

  /** The visit keeps blocks outside the queue up to date, because a changed end queues all successors. */
  lemma VisitSettled(g: Graph, m: BlockMap, queue: set<nat>, b: nat, queue': set<nat>)
    requires ValidGraph(g) && MapOk(g, m) && Settled(g, m, queue) && b in queue
    requires Changes(g, m, b) ==> forall s :: s in g.succ[b] ==> s in queue'
    requires forall s :: s in queue' ==> s in queue || s in g.succ[b]
    requires queue - {b} <= queue'
    ensures Settled(g, Visited(g, m, b), queue')
  {
    var m' := Visited(g, m, b);
    forall p | p in m' && p < |g.succ| && p !in queue' ensures m'[p].0 == PreOf(g, m', p) {
      UnionSame(m, m', g.pred[p]);
    }
    forall s | s in queue' ensures s < |g.succ| && Reachable(g, s) {
      if s in g.succ[b] { ReachableSucc(g, b, s); }
    }
  }

  // ------------------------------------------------------------ termination

  /** How much the ends of the blocks below `n` can still grow. */
  ghost function Room(g: Graph, m: BlockMap, n: nat): nat
    requires ValidGraph(g) && MapOk(g, m) && n <= |g.succ|
  {
    if n == 0 then 0 else Room(g, m, n - 1) + RoomOf(g, m, n - 1)
  }

  ghost function RoomOf(g: Graph, m: BlockMap, b: nat): nat
    requires ValidGraph(g) && MapOk(g, m)
  {
    if b in m then |AllOf(g.dirty) - m[b].1| else |AllOf(g.dirty)| + 1
  }

  lemma RemainderShrinks(u: set<nat>, before: set<nat>, after: set<nat>)
    requires before <= after <= u
    ensures |u - after| <= |u - before| && (before != after ==> |u - after| < |u - before|)
    ensures |u - after| <= |u|
  {
    assert u - before == (u - after) + (after - before);
    assert u == (u - after) + after;
  }

  lemma RoomOfShrinks(g: Graph, m: BlockMap, b: nat, p: nat)
    requires ValidGraph(g) && MapOk(g, m) && b < |g.succ| && MapOk(g, Visited(g, m, b))
    ensures RoomOf(g, Visited(g, m, b), p) <= RoomOf(g, m, p)
    ensures p == b && Changes(g, m, b) ==> RoomOf(g, Visited(g, m, b), p) < RoomOf(g, m, p)
  {
    if p == b {
      VisitGrows(g, m, b);
      RemainderShrinks(AllOf(g.dirty), PostOf(m, b), Transfer(g, b, PreOf(g, m, b)));
    }
  }

  lemma {:induction false} RoomShrinks(g: Graph, m: BlockMap, b: nat, n: nat)
    requires ValidGraph(g) && MapOk(g, m) && b < |g.succ| && n <= |g.succ| && MapOk(g, Visited(g, m, b))
    ensures Room(g, Visited(g, m, b), n) <= Room(g, m, n)
    ensures b < n && Changes(g, m, b) ==> Room(g, Visited(g, m, b), n) < Room(g, m, n)
  {
    if n > 0 {
      RoomShrinks(g, m, b, n - 1);
      RoomOfShrinks(g, m, b, n - 1);
    }
  }

  // ---------------------------------------------------------------- methods

  ghost predicate NoDuplicates(s: seq<nat>) {
    forall i, j :: 0 <= i < j < |s| ==> s[i] != s[j]
  }

  ghost function ElementsOf(s: seq<nat>): set<nat> {
    set x | x in s
  }

  /** Queue the successors that are not queued yet. */
  method PushAll(succ: seq<nat>, queue: set<nat>, vec: seq<nat>, ghost before: seq<nat>) returns (queue': set<nat>, vec': seq<nat>)
    requires NoDuplicates(before + vec) && queue == ElementsOf(before + vec)
    ensures NoDuplicates(before + vec') && queue' == ElementsOf(before + vec')
    ensures queue <= queue' && (forall s :: s in succ ==> s in queue')
    ensures forall s :: s in queue' ==> s in queue || s in succ
  {
    queue', vec' := queue, vec;
    for i := 0 to |succ|
      invariant NoDuplicates(before + vec') && queue' == ElementsOf(before + vec')
      invariant queue <= queue' && (forall s :: s in succ[..i] ==> s in queue')
      invariant forall s :: s in queue' ==> s in queue || s in succ
    {
      if succ[i] !in queue' {
        assert before + (vec' + [succ[i]]) == (before + vec') + [succ[i]];
        assert succ[i] !in before + vec';
        queue' := queue' + {succ[i]};
        vec' := vec' + [succ[i]];
      }
      assert succ[..i + 1] == succ[..i] + [succ[i]];
    }
  }

  ghost predicate Progress(g: Graph, m: BlockMap, queue: set<nat>)
    requires ValidGraph(g)
  {
    MapOk(g, m) && Precise(g, m) && Settled(g, m, queue)
  }

  /** Look at one block that was taken from the queue; `before` is the rest of the current round. */
  method VisitBlock(g: Graph, m: BlockMap, b: nat, queue: set<nat>, vec: seq<nat>, ghost before: seq<nat>)
    returns (m': BlockMap, queue': set<nat>, vec': seq<nat>)
    requires ValidGraph(g) && b < |g.succ| && Progress(g, m, queue + {b}) && b !in queue
    requires NoDuplicates(before + vec) && queue == ElementsOf(before + vec)
    ensures Progress(g, m', queue')
    ensures NoDuplicates(before + vec') && queue' == ElementsOf(before + vec')
    ensures Room(g, m', |g.succ|) < Room(g, m, |g.succ|) || (vec' == vec && Room(g, m', |g.succ|) == Room(g, m, |g.succ|))
  {
    queue', vec' := queue, vec;
    var pre := PreOf(g, m, b);
    var post := Transfer(g, b, pre);
    // Only a new block or a changed end is news for the successors.
    if b !in m || m[b].1 != post {
      queue', vec' := PushAll(g.succ[b], queue', vec', before);
    }
    VisitMapOk(g, m, b);
    VisitPrecise(g, m, b);
    VisitSettled(g, m, queue + {b}, b, queue');
    RoomShrinks(g, m, b, |g.succ|);
    RoomUnchanged(g, m, b, |g.succ|);
    m' := m[b := (pre, post)];
  }

  lemma RoomOfUnchanged(g: Graph, m: BlockMap, b: nat, p: nat)
    requires ValidGraph(g) && MapOk(g, m) && b < |g.succ| && MapOk(g, Visited(g, m, b))
    ensures !Changes(g, m, b) ==> RoomOf(g, Visited(g, m, b), p) == RoomOf(g, m, p)
  {
    hide MapOk, AllOf, Transfer, PreOf;
  }

  lemma {:induction false} RoomUnchanged(g: Graph, m: BlockMap, b: nat, n: nat)
    requires ValidGraph(g) && MapOk(g, m) && b < |g.succ| && n <= |g.succ| && MapOk(g, Visited(g, m, b))
    ensures !Changes(g, m, b) ==> Room(g, Visited(g, m, b), n) == Room(g, m, n)
  {
    hide ValidGraph, MapOk, RoomOf, Visited;
    if n > 0 {
      RoomUnchanged(g, m, b, n - 1);
      RoomOfUnchanged(g, m, b, n - 1);
    }
  }

  /** Either there was room to use up, or nothing new was queued. */
  ghost predicate Less(g: Graph, m: BlockMap, m': BlockMap, vec: seq<nat>)
    requires ValidGraph(g) && MapOk(g, m) && MapOk(g, m')
  {
    Room(g, m', |g.succ|) < Room(g, m, |g.succ|) || (vec == [] && Room(g, m', |g.succ|) == Room(g, m, |g.succ|))
  }

  /** One round over the blocks queued so far. */
  method Round(g: Graph, m: BlockMap, queue: set<nat>, queueVec: seq<nat>) returns (m': BlockMap, queue': set<nat>, newVec: seq<nat>)
    requires ValidGraph(g) && Progress(g, m, queue)
    requires NoDuplicates(queueVec) && queue == ElementsOf(queueVec)
    ensures Progress(g, m', queue')
    ensures NoDuplicates(newVec) && queue' == ElementsOf(newVec)
    ensures Less(g, m, m', newVec)
  {
    hide ValidGraph, MapOk, Precise, Settled, Room, NoDuplicates, ElementsOf;
    m', queue', newVec := m, queue, [];
    assert queueVec[0..] + newVec == queueVec;
    for i := 0 to |queueVec|
      invariant Progress(g, m', queue')
      invariant NoDuplicates(queueVec[i..] + newVec) && queue' == ElementsOf(queueVec[i..] + newVec)
      invariant Less(g, m, m', newVec)
    {
      TakeNext(queueVec, i, newVec, queue');
      QueuedIsBlock(g, m', queue', queueVec[i]);
      m', queue', newVec := VisitBlock(g, m', queueVec[i], queue' - {queueVec[i]}, newVec, queueVec[i + 1..]);
    }
    assert queueVec[|queueVec|..] + newVec == newVec;
  }

  lemma QueuedIsBlock(g: Graph, m: BlockMap, queue: set<nat>, b: nat)
    requires ValidGraph(g) && Settled(g, m, queue) && b in queue
    ensures b < |g.succ|
  {
  }

  lemma TakeNext(queueVec: seq<nat>, i: nat, newVec: seq<nat>, queue: set<nat>)
    requires i < |queueVec| && NoDuplicates(queueVec[i..] + newVec) && queue == ElementsOf(queueVec[i..] + newVec)
    ensures var b, rest := queueVec[i], queueVec[i + 1..] + newVec;
      NoDuplicates(rest) && queue - {b} == ElementsOf(rest) && b in queue && (queue - {b}) + {b} == queue
  {
    assert queueVec[i..] + newVec == [queueVec[i]] + (queueVec[i + 1..] + newVec);
    TakeFirst(queueVec[i..] + newVec, queueVec[i + 1..] + newVec, queueVec[i]);
  }

  lemma TakeFirst(s: seq<nat>, rest: seq<nat>, b: nat)
    requires NoDuplicates(s) && s == [b] + rest
    ensures NoDuplicates(rest) && ElementsOf(rest) == ElementsOf(s) - {b} && b in ElementsOf(s)
  {
    forall x | x in rest ensures x in s && x != b {
      var i :| 0 <= i < |rest| && rest[i] == x;
      assert s[i + 1] == x && s[0] == b;
    }
    forall i, j | 0 <= i < j < |rest| ensures rest[i] != rest[j] {
      assert s[i + 1] == rest[i] && s[j + 1] == rest[j];
    }
  }

  /** The worklist of OptimizePacks. */
  method Analyze(g: Graph) returns (m: BlockMap)
    requires ValidGraph(g)
    ensures Solution(g, m)
  {
    m := map[];
    var queue, queueVec := {g.entry}, [g.entry];
    assert PathTo(g, [g.entry], g.entry);
    while queue != {}
      invariant Progress(g, m, queue)
      invariant NoDuplicates(queueVec) && queue == ElementsOf(queueVec)
      decreases Room(g, m, |g.succ|), |queue|
    {
      m, queue, queueVec := Round(g, m, queue, queueVec);
    }
    DoneIsSolution(g, m);
  }

  /** With an empty queue, what leaves a block is accounted for in its successors. */
  lemma EdgeVisited(g: Graph, m: BlockMap, p: nat, b: nat)
    requires ValidGraph(g) && MapOk(g, m) && Settled(g, m, {}) && p in m && p < |g.succ| && b in g.succ[p]
    ensures b in m && b < |g.succ| && Transfer(g, b, m[p].1) <= m[b].1
  {
    EdgeEnds(g, p, b);
    BlockKnown(g, m, p, b);
    BlockSettled(g, m, b);
    UnionHas(m, g.pred[b], p);
    hide ValidGraph, MapOk, Settled, UnionOf;
  }

  lemma EdgeEnds(g: Graph, p: nat, b: nat)
    requires ValidGraph(g) && p < |g.succ| && b in g.succ[p]
    ensures b < |g.succ| && p in g.pred[b]
  {
  }

  lemma BlockKnown(g: Graph, m: BlockMap, p: nat, b: nat)
    requires ValidGraph(g) && Settled(g, m, {}) && p in m && p < |g.succ| && b in g.succ[p]
    ensures b in m
  {
    hide ValidGraph, Reachable, PreOf;
  }

  lemma BlockSettled(g: Graph, m: BlockMap, b: nat)
    requires ValidGraph(g) && MapOk(g, m) && Settled(g, m, {}) && b in m
    ensures b < |g.succ| && m[b].0 == PreOf(g, m, b) && m[b].1 == Transfer(g, b, m[b].0)
  {
    hide ValidGraph, Reachable, PreOf, Transfer, AllOf;
  }

  lemma EntryVisited(g: Graph, m: BlockMap)
    requires ValidGraph(g) && MapOk(g, m) && Settled(g, m, {})
    ensures g.entry in m && Transfer(g, g.entry, {}) <= m[g.entry].1
  {
    hide AllOf, PreOf;
  }

  lemma TransferGrows(g: Graph, b: nat, x: RegSet, y: RegSet)
    requires b < |g.dirty| && b < |g.cleaned| && x <= y
    ensures Transfer(g, b, x) <= Transfer(g, b, y)
  {
  }

  lemma {:induction false} PathVisited(g: Graph, m: BlockMap, path: seq<nat>)
    requires ValidGraph(g) && MapOk(g, m) && Settled(g, m, {}) && IsPath(g, path)
    ensures path[|path| - 1] in m && PathDirty(g, path) <= m[path[|path| - 1]].1
  {
    hide MapOk, Settled;
    if |path| > 1 {
      var before := path[..|path| - 1];
      PathVisited(g, m, before);
      var p, b := path[|path| - 2], path[|path| - 1];
      assert b in g.succ[p];
      EdgeVisited(g, m, p, b);
      TransferGrows(g, b, PathDirty(g, before), m[p].1);
      hide Transfer;
    } else {
      EntryVisited(g, m);
      assert PathDirty(g, path[..0]) == {};
    }
  }

  lemma DoneIsSolution(g: Graph, m: BlockMap)
    requires ValidGraph(g) && Progress(g, m, {})
    ensures Solution(g, m)
  {
    forall b: nat | b < |g.succ| && Reachable(g, b) ensures b in m {
      var path: seq<nat> :| PathTo(g, path, b);
      PathVisited(g, m, path);
    }
    forall b, r, path: seq<nat> | b in m && DirtyVia(g, path, b, r) ensures r in m[b].1 {
      PathVisited(g, m, path);
    }
  }

  /** The solution is below every assignment that satisfies the flow equations as inclusions. */
  lemma LeastSolution(g: Graph, m: BlockMap, other: seq<RegSet>)
    requires ValidGraph(g) && Solution(g, m) && |other| == |g.succ|
    requires forall b: nat, p: nat :: b < |g.succ| && Reachable(g, b) && p in g.pred[b] && Reachable(g, p) ==>
      Transfer(g, b, other[p]) <= other[b]
    requires forall b: nat :: b < |g.succ| ==> g.dirty[b] <= other[b]
    ensures forall b: nat :: b in m ==> m[b].1 <= other[b]
  {
    forall b, r | b in m && r in m[b].1 ensures r in other[b] {
      var path: seq<nat> :| DirtyVia(g, path, b, r);
      PathBelow(g, path, other);
    }
  }

  lemma {:induction false} PathBelow(g: Graph, path: seq<nat>, other: seq<RegSet>)
    requires ValidGraph(g) && IsPath(g, path) && |other| == |g.succ|
    requires forall b: nat, p: nat :: b < |g.succ| && Reachable(g, b) && p in g.pred[b] && Reachable(g, p) ==>
      Transfer(g, b, other[p]) <= other[b]
    requires forall b: nat :: b < |g.succ| ==> g.dirty[b] <= other[b]
    ensures PathDirty(g, path) <= other[path[|path| - 1]]
  {
    if |path| > 1 {
      var before := path[..|path| - 1];
      PathBelow(g, before, other);
      var p, b := path[|path| - 2], path[|path| - 1];
      assert PathTo(g, before, p) && PathTo(g, path, b);
      assert b in g.succ[p];
      assert Transfer(g, b, PathDirty(g, before)) <= Transfer(g, b, other[p]);
    }
  }
}
