/**
 * IWState::Predecode at full granularity: one list of instructions whose flags
 * say where blocks start, set after the fact when a decoded address is met
 * again.
 */
module Predecoder {
  import opened Options
  import opened InstrFlow
  import opened CodeReach

  datatype Decoded = Decoded(addr: Addr, size: nat, newBlock: bool)

  datatype Stream = Stream(insts: seq<Decoded>, at: map<Addr, nat>)

  /** Each address is decoded once, with its length, and the map knows its index. */
  ghost predicate IndexOk(p: Program, s: Stream) {
    && (forall j :: 0 <= j < |s.insts| ==> s.insts[j].addr in s.at && s.at[s.insts[j].addr] == j)
    && (forall a :: a in s.at ==> s.at[a] < |s.insts| && s.insts[s.at[a]].addr == a)
    && (forall j :: 0 <= j < |s.insts| ==> SizeOk(p, s.insts[j]))
  }

  ghost predicate SizeOk(p: Program, i: Decoded) {
    Decodable(p, i.addr) && (p.code)(i.addr).value.len == i.size
  }

  ghost predicate Flagged(s: Stream, a: Addr) {
    a in s.at && s.at[a] < |s.insts| && s.insts[s.at[a]].newBlock
  }

  /** An instruction without flag continues the one in front of it. */
  ghost predicate Straight(p: Program, s: Stream) {
    forall j :: 0 <= j < |s.insts| && !s.insts[j].newBlock ==>
      0 < j && RunsOn(p, s.insts[j - 1].addr) && After(p, s.insts[j - 1].addr) == s.insts[j].addr
  }

  /** Where instruction `j` runs on to: nothing, a flagged instruction, the next one, or (from the last one) `open`. */
  ghost predicate NextOk(p: Program, s: Stream, j: nat, open: set<Addr>)
    requires j < |s.insts|
  {
    RunsOn(p, s.insts[j].addr) ==>
      var c := After(p, s.insts[j].addr);
      !Decodable(p, c) || Flagged(s, c) || (c in s.at && s.at[c] == j + 1) || (j == |s.insts| - 1 && c in open)
  }

  ghost predicate NextsOk(p: Program, s: Stream, open: set<Addr>) {
    forall j: nat :: j < |s.insts| ==> NextOk(p, s, j, open)
  }

  ghost predicate Justified(f: Facts, s: Stream) {
    forall j :: 0 <= j < |s.insts| && s.insts[j].newBlock ==> s.insts[j].addr in f.entered || s.insts[j].addr in f.joined
  }

  ghost predicate Sound(f: Facts, s: Stream) {
    forall j :: 0 <= j < |s.insts| ==> s.insts[j].addr in f.reached
  }

  ghost predicate StreamOk(p: Program, f: Facts, s: Stream, open: set<Addr>) {
    IndexOk(p, s) && Straight(p, s) && NextsOk(p, s, open) && Justified(f, s) && Sound(f, s)
  }

  ghost predicate Handled(p: Program, s: Stream, queue: seq<Addr>, a: Addr) {
    a in queue || !Decodable(p, a) || Flagged(s, a)
  }

  ghost predicate QueueOk(p: Program, f: Facts, s: Stream, queue: seq<Addr>) {
    && (forall a :: a in queue ==> a in f.entered)
    && Handled(p, s, queue, p.entry)
    && (forall j :: 0 <= j < |s.insts| ==> forall a :: a in JumpsTo(p, s.insts[j].addr) ==> Handled(p, s, queue, a))
  }

  /** The address being looked at: taken from the queue, or the one that the last instruction runs on to. */
  ghost predicate Current(p: Program, f: Facts, s: Stream, cur: Addr, newBlock: bool) {
    if newBlock then cur in f.entered else
      && |s.insts| > 0 && RunsOn(p, s.insts[|s.insts| - 1].addr)
      && After(p, s.insts[|s.insts| - 1].addr) == cur
  }

  ghost function Open(cur: Addr, newBlock: bool): set<Addr> {
    if newBlock then {} else {cur}
  }

  ghost function Waiting(queue: seq<Addr>, cur: Addr, newBlock: bool): seq<Addr> {
    if newBlock then [cur] + queue else queue
  }

  // --------------------------------------------------- meeting it again

  function Flag(s: Stream, a: Addr): Stream
    requires a in s.at && s.at[a] < |s.insts|
  {
    s.(insts := s.insts[s.at[a] := s.insts[s.at[a]].(newBlock := true)])
  }

  lemma FlagIndex(p: Program, s: Stream, a: Addr)
    requires IndexOk(p, s) && a in s.at
    ensures IndexOk(p, Flag(s, a))
  {
  }

  lemma FlagKeeps(s: Stream, a: Addr, b: Addr)
    requires a in s.at && s.at[a] < |s.insts|
    ensures Flagged(Flag(s, a), b) <==> Flagged(s, b) || (b in s.at && s.at[b] == s.at[a])
  {
  }

  lemma FlagNexts(p: Program, s: Stream, cur: Addr, newBlock: bool)
    requires IndexOk(p, s) && NextsOk(p, s, Open(cur, newBlock)) && cur in s.at
    ensures NextsOk(p, Flag(s, cur), {})
  {
    var s' := Flag(s, cur);
    forall j: nat | j < |s'.insts| ensures NextOk(p, s', j, {}) {
      assert NextOk(p, s, j, Open(cur, newBlock));
      if RunsOn(p, s.insts[j].addr) {
        FlagKeeps(s, cur, After(p, s.insts[j].addr));
      }
    }
  }

  /** Two instructions run into an address that is met again without having been queued. */
  lemma FlagJustified(p: Program, f: Facts, s: Stream, cur: Addr, newBlock: bool)
    requires IndexOk(p, s) && Straight(p, s) && Sound(f, s) && Justified(f, s) && Laws(p, f)
    requires cur in s.at && Current(p, f, s, cur, newBlock)
    ensures Justified(f, Flag(s, cur))
  {
    var i, n := s.at[cur], |s.insts|;
    if !newBlock && !s.insts[i].newBlock {
      assert JoinRule(p, f, s.insts[i - 1].addr, s.insts[n - 1].addr);
    }
  }

  lemma FlagQueue(p: Program, f: Facts, s: Stream, queue: seq<Addr>, cur: Addr, newBlock: bool)
    requires cur in s.at && s.at[cur] < |s.insts| && QueueOk(p, f, s, Waiting(queue, cur, newBlock))
    ensures QueueOk(p, f, Flag(s, cur), queue)
  {
    var s', waiting := Flag(s, cur), Waiting(queue, cur, newBlock);
    forall a: Addr | Handled(p, s, waiting, a) ensures Handled(p, s', queue, a) {
      FlagKeeps(s, cur, a);
    }
    forall a | a in queue ensures a in f.entered {
      assert a in waiting;
    }
    forall j, a | 0 <= j < |s'.insts| && a in JumpsTo(p, s'.insts[j].addr) ensures Handled(p, s', queue, a) {
      assert s'.insts[j].addr == s.insts[j].addr;
      assert Handled(p, s, waiting, a);
    }
  }

  lemma FlagOk(p: Program, f: Facts, s: Stream, queue: seq<Addr>, cur: Addr, newBlock: bool)
    requires StreamOk(p, f, s, Open(cur, newBlock)) && QueueOk(p, f, s, Waiting(queue, cur, newBlock)) && Laws(p, f)
    requires cur in s.at && s.at[cur] < |s.insts| && Current(p, f, s, cur, newBlock)
    ensures StreamOk(p, f, Flag(s, cur), {}) && QueueOk(p, f, Flag(s, cur), queue)
  {
    hide IndexOk, NextsOk, Justified, QueueOk, Laws, Waiting, Open;
    FlagIndex(p, s, cur);
    FlagNexts(p, s, cur, newBlock);
    FlagJustified(p, f, s, cur, newBlock);
    FlagQueue(p, f, s, queue, cur, newBlock);
  }

  // ---------------------------------------------------- nothing decodes

  lemma StopOk(p: Program, f: Facts, s: Stream, queue: seq<Addr>, cur: Addr, newBlock: bool)
    requires StreamOk(p, f, s, Open(cur, newBlock)) && QueueOk(p, f, s, Waiting(queue, cur, newBlock)) && !Decodable(p, cur)
    ensures StreamOk(p, f, s, {}) && QueueOk(p, f, s, queue)
  {
    hide IndexOk, Straight, Justified, Sound;
    forall j: nat | j < |s.insts| ensures NextOk(p, s, j, {}) {
      assert NextOk(p, s, j, Open(cur, newBlock));
    }
    var waiting := Waiting(queue, cur, newBlock);
    forall a | a in queue ensures a in f.entered {
      assert a in waiting;
    }
    forall j, a | 0 <= j < |s.insts| && a in JumpsTo(p, s.insts[j].addr) ensures Handled(p, s, queue, a) {
      assert Handled(p, s, waiting, a);
    }
    assert Handled(p, s, waiting, p.entry);
  }

  // --------------------------------------------------------- appending

  function Append(s: Stream, i: Decoded): Stream {
    Stream(s.insts + [i], s.at[i.addr := |s.insts|])
  }

  lemma AppendIndex(p: Program, s: Stream, i: Decoded)
    requires IndexOk(p, s) && i.addr !in s.at && SizeOk(p, i)
    ensures IndexOk(p, Append(s, i))
  {
  }

  lemma AppendKeeps(p: Program, s: Stream, i: Decoded, a: Addr)
    requires IndexOk(p, s) && i.addr !in s.at
    ensures Flagged(Append(s, i), a) <==> Flagged(s, a) || (a == i.addr && i.newBlock)
  {
  }

  lemma AppendNexts(p: Program, s: Stream, i: Decoded)
    requires IndexOk(p, s) && NextsOk(p, s, Open(i.addr, i.newBlock)) && i.addr !in s.at && Decodable(p, i.addr)
    ensures NextsOk(p, Append(s, i), {After(p, i.addr)})
  {
    var s' := Append(s, i);
    forall j: nat | j < |s'.insts| ensures NextOk(p, s', j, {After(p, i.addr)}) {
      if j < |s.insts| {
        assert NextOk(p, s, j, Open(i.addr, i.newBlock));
        if RunsOn(p, s.insts[j].addr) {
          AppendKeeps(p, s, i, After(p, s.insts[j].addr));
        }
      }
    }
  }

  lemma AppendFacts(p: Program, f: Facts, s: Stream, i: Decoded)
    requires Straight(p, s) && Justified(f, s) && Sound(f, s) && Laws(p, f)
    requires Current(p, f, s, i.addr, i.newBlock) && Decodable(p, i.addr)
    ensures Straight(p, Append(s, i)) && Justified(f, Append(s, i)) && Sound(f, Append(s, i))
  {
    assert i.addr in f.reached by {
      if i.newBlock {
        assert EnterRule(p, f, i.addr);
      } else {
        assert RunRule(p, f, s.insts[|s.insts| - 1].addr);
      }
    }
  }

  /** The targets of the new instruction join the queue, in whatever order. */
  lemma AppendQueue(p: Program, f: Facts, s: Stream, i: Decoded, queue: seq<Addr>, queue': seq<Addr>)
    requires IndexOk(p, s) && i.addr !in s.at && Laws(p, f) && i.addr in f.reached && Decodable(p, i.addr)
    requires QueueOk(p, f, s, Waiting(queue, i.addr, i.newBlock))
    requires forall a: Addr :: a in queue' <==> a in queue || a in JumpsTo(p, i.addr)
    ensures QueueOk(p, f, Append(s, i), queue')
  {
    var s', waiting := Append(s, i), Waiting(queue, i.addr, i.newBlock);
    forall a: Addr | Handled(p, s, waiting, a) ensures Handled(p, s', queue', a) {
      AppendKeeps(p, s, i, a);
    }
    forall a | a in queue' ensures a in f.entered {
      if a in queue { assert a in waiting; } else { assert JumpRule(p, f, i.addr); }
    }
    forall j, a | 0 <= j < |s'.insts| && a in JumpsTo(p, s'.insts[j].addr) ensures Handled(p, s', queue', a) {
      if j < |s.insts| { assert Handled(p, s, waiting, a); }
    }
  }

  lemma AppendOk(p: Program, f: Facts, s: Stream, i: Decoded, queue: seq<Addr>, queue': seq<Addr>)
    requires StreamOk(p, f, s, Open(i.addr, i.newBlock)) && QueueOk(p, f, s, Waiting(queue, i.addr, i.newBlock)) && Laws(p, f)
    requires i.addr !in s.at && SizeOk(p, i) && Current(p, f, s, i.addr, i.newBlock)
    requires forall a: Addr :: a in queue' <==> a in queue || a in JumpsTo(p, i.addr)
    ensures StreamOk(p, f, Append(s, i), {After(p, i.addr)}) && QueueOk(p, f, Append(s, i), queue')
    ensures !RunsOn(p, i.addr) ==> StreamOk(p, f, Append(s, i), {})
  {
    hide IndexOk, Straight, NextsOk, Justified, QueueOk, Laws, Waiting, Open, JumpsTo, Current;
    AppendIndex(p, s, i);
    AppendNexts(p, s, i);
    AppendFacts(p, f, s, i);
    assert Append(s, i).insts[|s.insts|] == i;
    AppendQueue(p, f, s, i, queue, queue');
    if !RunsOn(p, i.addr) {
      NoOpen(p, s, i);
    }
  }

  lemma NoOpen(p: Program, s: Stream, i: Decoded)
    requires Decodable(p, i.addr) && !RunsOn(p, i.addr) && NextsOk(p, Append(s, i), {After(p, i.addr)})
    ensures NextsOk(p, Append(s, i), {})
  {
    var s' := Append(s, i);
    forall j: nat | j < |s'.insts| ensures NextOk(p, s', j, {}) {
      assert NextOk(p, s', j, {After(p, i.addr)});
    }
  }

  // ------------------------------------------------------------ the loops

  /** What the switch on the classification does to the queue, and whether the block goes on. */
  method Enqueue(p: Program, r: DecodeResult, queue: seq<Addr>, cur: Addr) returns (queue': seq<Addr>, goesOn: bool)
    requires Decodable(p, cur) && r == Classify(cur, (p.code)(cur).value)
    ensures forall a: Addr :: a in queue' <==> a in queue || a in JumpsTo(p, cur)
    ensures goesOn <==> RunsOn(p, cur)
  {
    ServerTargets(cur, (p.code)(cur).value, p.followCalls);
    var next := Plus(cur, r.size);
    match r.result
    case BRANCH_TO => queue', goesOn := queue + [r.target], false;
    case COND_BRANCH_TO => queue', goesOn := queue + [r.target] + [next], false;
    case CALL_TO => queue', goesOn := if p.followCalls then queue + [next] else queue, false;
    case UNKNOWN_TGT => queue', goesOn := queue, false;
    case NORMAL => queue', goesOn := queue, true;
  }

  lemma RoomLeft(s: Stream, a: Addr)
    requires a !in s.at
    ensures |s.at| < SPACE && |s.at[a := |s.insts|]| == |s.at| + 1
  {
    Bounded(s.at.Keys + {a}, SPACE);
    assert |s.at| == |s.at.Keys|;
    assert |s.at.Keys + {a}| == |s.at.Keys| + 1;
    assert s.at[a := |s.insts|].Keys == s.at.Keys + {a};
  }

  /** The inner loop: from one queued address until the block ends. */
  method DecodeBlock(p: Program, start: Stream, queue0: seq<Addr>, from: Addr, ghost f: Facts) returns (s: Stream, queue: seq<Addr>)
    requires StreamOk(p, f, start, {}) && QueueOk(p, f, start, [from] + queue0) && Laws(p, f) && from in f.entered
    requires |start.at| <= SPACE
    ensures StreamOk(p, f, s, {}) && QueueOk(p, f, s, queue)
    ensures |start.at| < |s.at| <= SPACE || (|start.at| == |s.at| && queue == queue0)
  {
    hide StreamOk, QueueOk, Laws, RunsOn, Decodable, JumpsTo, After;
    s, queue := start, queue0;
    var cur, newBlock := from, true;
    while true
      invariant StreamOk(p, f, s, Open(cur, newBlock)) && QueueOk(p, f, s, Waiting(queue, cur, newBlock))
      invariant Current(p, f, s, cur, newBlock)
      invariant if newBlock then s == start && queue == queue0 else |start.at| < |s.at| <= SPACE
      decreases SPACE - |s.at|
    {
      if cur in s.at {
        IndexOf(p, f, s, Open(cur, newBlock), cur);
        FlagOk(p, f, s, queue, cur, newBlock);
        s := Flag(s, cur);
        return;
      }
      if (p.code)(cur).None? {
        NoCode(p, cur);
        StopOk(p, f, s, queue, cur, newBlock);
        return;
      }
      HasCode(p, cur);
      var r := Classify(cur, (p.code)(cur).value);
      var queue', goesOn := Enqueue(p, r, queue, cur);
      SizeClassified(p, cur);
      AppendOk(p, f, s, Decoded(cur, r.size, newBlock), queue, queue');
      RoomLeft(s, cur);
      s := Append(s, Decoded(cur, r.size, newBlock));
      queue := queue';
      if !goesOn {
        return;
      }
      AfterIs(p, cur);
      cur, newBlock := Plus(cur, r.size), false;
    }
  }

  lemma IndexOf(p: Program, f: Facts, s: Stream, open: set<Addr>, a: Addr)
    requires StreamOk(p, f, s, open) && a in s.at
    ensures s.at[a] < |s.insts|
  {
  }

  lemma NoCode(p: Program, a: Addr)
    requires (p.code)(a).None?
    ensures !Decodable(p, a)
  {
  }

  lemma HasCode(p: Program, a: Addr)
    requires (p.code)(a).Some?
    ensures Decodable(p, a)
  {
  }

  lemma SizeClassified(p: Program, a: Addr)
    requires Decodable(p, a)
    ensures (p.code)(a).Some? && Classify(a, (p.code)(a).value).size == (p.code)(a).value.len
  {
    ServerTargets(a, (p.code)(a).value, p.followCalls);
  }

  lemma AfterIs(p: Program, a: Addr)
    requires Decodable(p, a)
    ensures (p.code)(a).Some? && After(p, a) == Plus(a, (p.code)(a).value.len)
  {
  }

  /** What Predecode promises: everything reached, once, with flags exactly at the leaders. */
  ghost predicate Predecoded(p: Program, s: Stream) {
    && IndexOk(p, s) && Straight(p, s) && NextsOk(p, s, {})
    && (forall a: Addr :: a in s.at <==> Reached(p, a))
    && (forall a: Addr :: Flagged(s, a) <==> Leader(p, a))
  }

  method Predecode(p: Program) returns (s: Stream)
    ensures Predecoded(p, s)
  {
    hide *;
    ghost var f := FactsOf(p);
    FactsLaws(p);
    s := Stream([], map[]);
    var queue := [p.entry];
    NothingDecoded(p, f);
    while queue != []
      invariant StreamOk(p, f, s, {}) && QueueOk(p, f, s, queue) && |s.at| <= SPACE
      decreases SPACE - |s.at|, |queue|
    {
      var from := queue[0];
      assert [from] + queue[1..] == queue;
      QueueEntered(p, f, s, queue);
      s, queue := DecodeBlock(p, s, queue[1..], from, f);
    }
    Finished(p, f, s);
  }

  lemma NothingDecoded(p: Program, f: Facts)
    requires Laws(p, f)
    ensures StreamOk(p, f, Stream([], map[]), {}) && QueueOk(p, f, Stream([], map[]), [p.entry])
  {
  }

  lemma QueueEntered(p: Program, f: Facts, s: Stream, queue: seq<Addr>)
    requires QueueOk(p, f, s, queue) && queue != []
    ensures queue[0] in f.entered
  {
  }

  // --------------------------------------------------------- when it is done

  lemma RunsWhere(p: Program, s: Stream, b: Addr)
    requires IndexOk(p, s) && NextsOk(p, s, {}) && b in s.at && RunsOn(p, b) && Decodable(p, After(p, b))
    ensures var c := After(p, b); Flagged(s, c) || (c in s.at && s.at[c] == s.at[b] + 1)
  {
    assert NextOk(p, s, s.at[b], {});
  }

  lemma JumpsWhere(p: Program, f: Facts, s: Stream, b: Addr, c: Addr)
    requires IndexOk(p, s) && QueueOk(p, f, s, []) && b in s.at && c in JumpsTo(p, b) && Decodable(p, c)
    ensures Flagged(s, c)
  {
    assert s.insts[s.at[b]].addr == b;
    assert Handled(p, s, [], c);
  }

  lemma DecodedAll(p: Program, f: Facts, s: Stream)
    requires StreamOk(p, f, s, {}) && QueueOk(p, f, s, []) && f == FactsOf(p)
    ensures forall a: Addr :: a in s.at <==> Reached(p, a)
  {
    hide Straight, NextsOk, Justified;
    forall b: Addr, c: Addr | b in s.at.Keys && Follows(p, b, c) && Decodable(p, c) ensures c in s.at.Keys {
      if c in JumpsTo(p, b) { JumpsWhere(p, f, s, b, c); } else { RunsWhere(p, s, b); }
    }
    assert Handled(p, s, [], p.entry);
    forall a: Addr | Reached(p, a) ensures a in s.at {
      var trace: seq<Addr> :| IsTrace(p, trace, a);
      ClosedContains(p, s.at.Keys, trace, a);
    }
    forall a: Addr | a in s.at ensures Reached(p, a) {
      assert s.insts[s.at[a]].addr in f.reached;
    }
  }

  lemma LeaderFlagged(p: Program, f: Facts, s: Stream, a: Addr)
    requires StreamOk(p, f, s, {}) && QueueOk(p, f, s, [])
    requires (forall b: Addr :: b in s.at <==> Reached(p, b)) && Leader(p, a) && Decodable(p, a)
    ensures Flagged(s, a)
  {
    hide Straight, NextsOk, Justified, Sound, IsTrace;
    if a == p.entry {
      assert Handled(p, s, [], a);
    } else if Entered(p, a) {
      var b: Addr :| Reached(p, b) && a in JumpsTo(p, b);
      JumpsWhere(p, f, s, b, a);
    } else {
      var b: Addr, c: Addr :| b != c && RunsInto(p, b, a) && RunsInto(p, c, a);
      RunsWhere(p, s, b);
      RunsWhere(p, s, c);
      assert s.insts[s.at[b]].addr == b && s.insts[s.at[c]].addr == c;
    }
  }

  lemma FlagsAreLeaders(p: Program, f: Facts, s: Stream)
    requires StreamOk(p, f, s, {}) && QueueOk(p, f, s, []) && f == FactsOf(p)
    requires forall b: Addr :: b in s.at <==> Reached(p, b)
    ensures forall a: Addr :: Flagged(s, a) <==> Leader(p, a)
  {
    hide Straight, NextsOk, QueueOk, IsTrace;
    forall a: Addr ensures Flagged(s, a) <==> Leader(p, a) {
      if Leader(p, a) {
        ReachedDecodable(p, a);
        LeaderFlagged(p, f, s, a);
      }
      if Flagged(s, a) {
        assert s.insts[s.at[a]].addr == a;
      }
    }
  }

  lemma Finished(p: Program, f: Facts, s: Stream)
    requires StreamOk(p, f, s, {}) && QueueOk(p, f, s, []) && f == FactsOf(p)
    ensures Predecoded(p, s)
  {
    hide IndexOk, Straight, NextsOk, Justified, Sound, QueueOk, Reached, Leader, Flagged;
    DecodedAll(p, f, s);
    FlagsAreLeaders(p, f, s);
  }
}
