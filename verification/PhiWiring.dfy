/**
 * The worklist that wires PHIs through the function, so that each call and
 * return gets the fields that its own block does not store.
 */
module PhiWiring {
  import opened PromoteIR
  import opened PromoteSpec

  type Key = (nat, nat)
  type PhiMap = map<Key, seq<(nat, Src)>>

  ghost predicate Graph(f: Fn) {
    && |f.code| == |f.succ| == |f.pred| && f.entry < |f.code|
    && (forall p: nat, b: nat :: EdgeOk(f, p, b))
    && (forall b: nat :: b < |f.code| && HasLeave(f.code[b]) ==> f.succ[b] == [])
  }

  /** last_producer: the entry block has the parameters, blocks with a call or return have that. */
  ghost predicate Producers(f: Fn, producers: map<nat, bool>) {
    && (forall p: nat :: p < |f.code| ==> (p in producers <==> p == f.entry || HasCall(f.code[p]) || HasLeave(f.code[p])))
    && (forall p: nat :: p in producers ==> (producers[p] <==> p != f.entry))
  }

  ghost function Grid(blocks: nat, fields: nat): set<Key> {
    set b, i | 0 <= b < blocks && 0 <= i < fields :: (b, i)
  }

  ghost predicate Done(f: Fn, phimap: PhiMap, key: Key)
    requires Graph(f)
  {
    key in phimap && Wired(f, phimap, key.0, key.1)
  }

  /** A PHI is there because it was asked for, or because another one needs it. */
  ghost predicate Needed(f: Fn, start: set<Key>, phimap: PhiMap, key: Key)
    requires Graph(f) && key.0 < |f.code|
  {
    key in start || (From(f, key.0, key.1).Phi? && exists b: nat :: b < |f.code| && (b, key.1) in phimap && key.0 in f.pred[b])
  }

  ghost predicate AllNeeded(f: Fn, fields: nat, start: set<Key>, phimap: PhiMap)
    requires Graph(f)
  {
    forall key :: key in phimap ==> key.0 < |f.code| && key.1 < fields && Needed(f, start, phimap, key)
  }

  /** Each PHI is either finished, or waits in the queue, once, without any value. */
  ghost predicate QueueOk(f: Fn, phimap: PhiMap, queue: seq<Key>)
    requires Graph(f)
  {
    && (forall key :: key in phimap ==> key in queue || Done(f, phimap, key))
    && (forall x :: 0 <= x < |queue| ==> queue[x] in phimap && phimap[queue[x]] == [])
    && (forall x, y :: 0 <= x < y < |queue| ==> queue[x] != queue[y])
  }

  /** Other PHIs stay finished when more are added. */
  lemma DoneMore(f: Fn, phimap: PhiMap, phimap': PhiMap, key: Key)
    requires Graph(f) && Done(f, phimap, key) && phimap.Keys <= phimap'.Keys && phimap'[key] == phimap[key]
    ensures Done(f, phimap', key)
  {
    var b, i := key.0, key.1;
    forall y | 0 <= y < |f.pred[b]| ensures Edge(f, phimap', f.pred[b][y], i, phimap'[key][y]) {
      assert Edge(f, phimap, f.pred[b][y], i, phimap[key][y]);
    }
  }

  lemma NeededMore(f: Fn, fields: nat, start: set<Key>, phimap: PhiMap, phimap': PhiMap, p: nat, b: nat, i: nat)
    requires Graph(f) && AllNeeded(f, fields, start, phimap) && phimap'.Keys == phimap.Keys + {(p, i)}
    requires b < |f.code| && p in f.pred[b] && p < |f.code| && i < fields && From(f, p, i).Phi? && (b, i) in phimap
    ensures AllNeeded(f, fields, start, phimap')
  {
    forall key | key in phimap' ensures key.0 < |f.code| && key.1 < fields && Needed(f, start, phimap', key) {
      if key in phimap && key !in start {
        var c: nat :| c < |f.code| && (c, key.1) in phimap && key.0 in f.pred[c];
        assert (c, key.1) in phimap';
      }
    }
  }

  /** What a PHI gets from one predecessor; its own PHI is made if there is none. */
  method FromPred(f: Fn, producers: map<nat, bool>, phimap0: PhiMap, queue0: seq<Key>, p: nat, i: nat)
    returns (src: Src, phimap: PhiMap, queue: seq<Key>)
    requires Graph(f) && Producers(f, producers) && p < |f.code| && !HasLeave(f.code[p])
    ensures src == From(f, p, i) && (src.Phi? ==> (p, i) in phimap)
    ensures if src.Phi? && (p, i) !in phimap0 then phimap == phimap0[(p, i) := []] && queue == queue0 + [(p, i)]
            else phimap == phimap0 && queue == queue0
  {
    phimap, queue := phimap0, queue0;
    if p in producers {
      src := if producers[p] then Result(p, i) else Param(i);
      return;
    }
    src := Phi(p, i);
    if (p, i) !in phimap {
      phimap := phimap[(p, i) := []];
      queue := queue + [(p, i)];
    }
  }

  /** Filling PHI (b, i): the state while its first `y` predecessors are in. */
  ghost predicate Filling(f: Fn, fields: nat, start: set<Key>, phimap: PhiMap, queue: seq<Key>, b: nat, i: nat, y: nat)
    requires Graph(f)
  {
    && AllNeeded(f, fields, start, phimap) && start <= phimap.Keys
    && (b, i) in phimap && b < |f.code| && i < fields && (b, i) !in queue
    && y <= |f.pred[b]| && |phimap[(b, i)]| == y
    && (forall z :: 0 <= z < y ==> Edge(f, phimap, f.pred[b][z], i, phimap[(b, i)][z]))
    && (forall key :: key in phimap && key != (b, i) ==> key in queue || Done(f, phimap, key))
    && (forall x :: 0 <= x < |queue| ==> queue[x] in phimap && phimap[queue[x]] == [])
    && (forall x, y :: 0 <= x < y < |queue| ==> queue[x] != queue[y])
  }

  /** A new PHI is made while (b, i) is being filled. */
  lemma FillNew(f: Fn, fields: nat, start: set<Key>, phimap: PhiMap, queue: seq<Key>, b: nat, i: nat, y: nat, p: nat)
    requires Graph(f) && Filling(f, fields, start, phimap, queue, b, i, y) && y < |f.pred[b]|
    requires p == f.pred[b][y] && p < |f.code| && From(f, p, i).Phi? && (p, i) !in phimap
    ensures Filling(f, fields, start, phimap[(p, i) := []], queue + [(p, i)], b, i, y)
  {
    var phimap', queue' := phimap[(p, i) := []], queue + [(p, i)];
    NeededMore(f, fields, start, phimap, phimap', p, b, i);
    forall key | key in phimap' && key != (b, i) ensures key in queue' || Done(f, phimap', key) {
      if key in phimap {
        if key in queue {
          var x :| 0 <= x < |queue| && queue[x] == key;
          assert queue'[x] == key;
        } else {
          DoneMore(f, phimap, phimap', key);
        }
      } else {
        assert queue'[|queue|] == key;
      }
    }
    forall z | 0 <= z < y ensures Edge(f, phimap', f.pred[b][z], i, phimap'[(b, i)][z]) {
      assert Edge(f, phimap, f.pred[b][z], i, phimap[(b, i)][z]);
    }
  }

  lemma FillNext(f: Fn, fields: nat, start: set<Key>, phimap: PhiMap, queue: seq<Key>, b: nat, i: nat, y: nat, src: Src)
    requires Graph(f) && Filling(f, fields, start, phimap, queue, b, i, y) && y < |f.pred[b]|
    requires f.pred[b][y] < |f.code| && src == From(f, f.pred[b][y], i) && (src.Phi? ==> (f.pred[b][y], i) in phimap)
    ensures Filling(f, fields, start, phimap[(b, i) := phimap[(b, i)] + [(f.pred[b][y], src)]], queue, b, i, y + 1)
  {
    var phimap' := phimap[(b, i) := phimap[(b, i)] + [(f.pred[b][y], src)]];
    assert phimap'.Keys == phimap.Keys;
    forall key | key in phimap' && key != (b, i) ensures key in queue || Done(f, phimap', key) {
      if key !in queue { DoneMore(f, phimap, phimap', key); }
    }
    forall z | 0 <= z < y + 1 ensures Edge(f, phimap', f.pred[b][z], i, phimap'[(b, i)][z]) {
      if z < y { assert Edge(f, phimap, f.pred[b][z], i, phimap[(b, i)][z]); }
    }
    forall key | key in phimap' ensures key.0 < |f.code| && key.1 < fields && Needed(f, start, phimap', key) {
      assert Needed(f, start, phimap, key);
    }
  }

  lemma FillStart(f: Fn, fields: nat, start: set<Key>, phimap: PhiMap, queue: seq<Key>)
    requires Graph(f) && QueueOk(f, phimap, queue) && AllNeeded(f, fields, start, phimap) && start <= phimap.Keys && queue != []
    ensures var key := queue[|queue| - 1]; Filling(f, fields, start, phimap, queue[..|queue| - 1], key.0, key.1, 0)
  {
    var key, rest := queue[|queue| - 1], queue[..|queue| - 1];
    forall k | k in phimap && k != key ensures k in rest || Done(f, phimap, k) {
      if k in queue { var x :| 0 <= x < |queue| && queue[x] == k; assert rest[x] == k; }
    }
  }

  lemma FillDone(f: Fn, fields: nat, start: set<Key>, phimap: PhiMap, queue: seq<Key>, b: nat, i: nat)
    requires Graph(f) && b < |f.code| && Filling(f, fields, start, phimap, queue, b, i, |f.pred[b]|)
    ensures QueueOk(f, phimap, queue) && AllNeeded(f, fields, start, phimap) && start <= phimap.Keys
  {
    assert Done(f, phimap, (b, i));
  }

  /** One round: take a PHI from the back of the queue and give it a value for every predecessor. */
  method WireOne(f: Fn, fields: nat, producers: map<nat, bool>, phimap0: PhiMap, queue0: seq<Key>, ghost start: set<Key>)
    returns (phimap: PhiMap, queue: seq<Key>)
    requires Graph(f) && Producers(f, producers) && queue0 != []
    requires QueueOk(f, phimap0, queue0) && AllNeeded(f, fields, start, phimap0) && start <= phimap0.Keys
    ensures QueueOk(f, phimap, queue) && AllNeeded(f, fields, start, phimap) && start <= phimap.Keys
    ensures (phimap.Keys == phimap0.Keys && |queue| < |queue0|) || phimap0.Keys < phimap.Keys
  {
    hide AllNeeded, QueueOk, Done, From;
    FillStart(f, fields, start, phimap0, queue0);
    var key := queue0[|queue0| - 1];
    var b, i := key.0, key.1;
    phimap, queue := phimap0, queue0[..|queue0| - 1];
    for y := 0 to |f.pred[b]|
      invariant Filling(f, fields, start, phimap, queue, b, i, y)
      invariant (phimap.Keys == phimap0.Keys && |queue| < |queue0|) || phimap0.Keys < phimap.Keys
    {
      var p := f.pred[b][y];
      assert EdgeOk(f, p, b);
      ghost var phimap1 := phimap;
      if From(f, p, i).Phi? && (p, i) !in phimap {
        FillNew(f, fields, start, phimap, queue, b, i, y, p);
      }
      var src;
      src, phimap, queue := FromPred(f, producers, phimap, queue, p, i);
      assert phimap.Keys == phimap1.Keys || phimap.Keys == phimap1.Keys + {(p, i)};
      FillNext(f, fields, start, phimap, queue, b, i, y, src);
      phimap := phimap[(b, i) := phimap[(b, i)] + [(p, src)]];
    }
    FillDone(f, fields, start, phimap, queue, b, i);
  }

  lemma Shrinks(blocks: nat, fields: nat, a: set<Key>, b: set<Key>)
    requires a < b <= Grid(blocks, fields)
    ensures |Grid(blocks, fields) - b| < |Grid(blocks, fields) - a|
  {
    var g := Grid(blocks, fields);
    assert g - a == (g - b) + (b - a);
    assert b - a != {};
  }

  /** The whole worklist: it ends, with one PHI at most per block and field, each complete and none without need. */
  method WirePhis(f: Fn, fields: nat, producers: map<nat, bool>, start: seq<Key>) returns (phimap: PhiMap)
    requires Graph(f) && Producers(f, producers)
    requires forall x :: 0 <= x < |start| ==> start[x].0 < |f.code| && start[x].1 < fields
    requires forall x, y :: 0 <= x < y < |start| ==> start[x] != start[y]
    ensures forall x :: 0 <= x < |start| ==> start[x] in phimap
    ensures forall b: nat, i: nat :: (b, i) in phimap ==> Wired(f, phimap, b, i)
    ensures AllNeeded(f, fields, (set key | key in start), phimap)
  {
    phimap := map key | key in start :: [];
    var queue := start;
    ghost var wanted := set key | key in start;
    while queue != []
      invariant QueueOk(f, phimap, queue) && AllNeeded(f, fields, wanted, phimap) && wanted <= phimap.Keys
      decreases |Grid(|f.code|, fields) - phimap.Keys|, |queue|
    {
      ghost var keys := phimap.Keys;
      phimap, queue := WireOne(f, fields, producers, phimap, queue, wanted);
      if keys < phimap.Keys {
        KeysInGrid(f, fields, wanted, phimap);
        Shrinks(|f.code|, fields, keys, phimap.Keys);
      }
    }
    forall b: nat, i: nat | (b, i) in phimap ensures Wired(f, phimap, b, i) {
      assert Done(f, phimap, (b, i));
    }
  }

  lemma KeysInGrid(f: Fn, fields: nat, start: set<Key>, phimap: PhiMap)
    requires Graph(f) && AllNeeded(f, fields, start, phimap)
    ensures phimap.Keys <= Grid(|f.code|, fields)
  {
    forall key | key in phimap.Keys ensures key in Grid(|f.code|, fields) {
      assert key == (key.0, key.1);
    }
  }
}
