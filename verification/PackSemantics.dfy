/**
 * Deleting stores: which ones OptimizePacks erases, and why no call or return
 * can tell the difference.
 */
module PackSemantics {
  import opened Options
  import opened PackFlow
  import opened PackLift

  /** A lifted function. Blocks, their code, and what the lifter recorded about them. */
  datatype Function = Function(code: seq<seq<Inst>>, graph: Graph, entries: RegSet, packs: seq<Pack>)

  ghost predicate Lifted(f: Function) {
    && ValidGraph(f.graph) && |f.code| == |f.graph.succ|
    && (forall b: nat :: b < |f.code| ==> f.graph.dirty[b] == DirtyAt(f.entries, f.code[b], |f.code[b]|))
    && (forall b: nat :: b < |f.code| ==> f.graph.cleaned[b] == CleanedAt(f.code[b], |f.code[b]|))
    && (forall k :: 0 <= k < |f.packs| ==> f.packs[k].bb < |f.code| && PackOk(f.entries, f.code[f.packs[k].bb], f.packs[k].bb, f.packs[k]))
    // The entry block starts by reading the parameters.
    && |f.code[f.graph.entry]| > 0 && f.code[f.graph.entry][0].Params?
    && (forall b: nat, i: nat :: b < |f.code| && i < |f.code[b]| && f.code[b][i].Stores? ==> f.code[b][i].regs <= f.entries)
  }

  // ---------------------------------------------------------------- running

  /** What a callee or caller gets to see: the CPU struct and the host registers. */
  datatype Event = Seen(mem: seq<int>, host: seq<int>)

  datatype State = State(regs: seq<int>, mem: seq<int>, time: nat, seen: seq<Event>)

  /**
   * Everything that is not part of the function: the values that the lifted
   * code computes from the registers, what callees do to the CPU struct, and
   * what arrives in host registers. All may depend on the time.
   */
  datatype World = World(
    value: (nat, seq<int>) -> int,
    callee: (nat, seq<int>, seq<int>, nat) -> int,
    given: (nat, seq<int>, seq<int>, nat) -> int)

  ghost function Masked(regs: seq<int>, host: RegSet): seq<int> {
    seq(|regs|, i requires 0 <= i < |regs| => if i in host then regs[i] else 0)
  }

  ghost function Stored(regs: seq<int>, mem: seq<int>, which: RegSet): (m: seq<int>)
    requires |regs| == |mem|
    ensures |m| == |mem| && forall i :: 0 <= i < |m| ==> m[i] == if i in which then regs[i] else mem[i]
  {
    seq(|mem|, i requires 0 <= i < |mem| => if i in which then regs[i] else mem[i])
  }

  /** Registers after an unpack: host registers as given, registers with a slot from there, others as before. */
  ghost function Unpacked(w: World, s: State, entries: RegSet, host: RegSet, args: seq<int>): (r: seq<int>)
    requires |s.regs| == |s.mem|
    ensures |r| == |s.regs| && forall i :: 0 <= i < |r| && i in entries && i !in host ==> r[i] == s.mem[i]
  {
    seq(|s.regs|, i requires 0 <= i < |s.regs| =>
      if i in entries then (if i in host then (w.given)(s.time, s.mem, args, i) else s.mem[i]) else s.regs[i])
  }

  ghost function Step(w: World, entries: RegSet, s: State, inst: Inst): (s': State)
    requires |s.regs| == |s.mem|
    ensures |s'.regs| == |s'.mem| == |s.regs|
  {
    var s1 := s.(time := s.time + 1);
    match inst
    case Assign(r) => if r < |s.regs| then s1.(regs := s.regs[r := (w.value)(s.time, s.regs)]) else s1
    case Stores(regs) => s1.(mem := Stored(s.regs, s.mem, regs))
    case Params(host) => s1.(regs := Unpacked(w, s, entries, host, []))
    case Leave(host) => s1.(seen := s.seen + [Seen(s.mem, Masked(s.regs, host))])
    case Call(host) =>
      var args := Masked(s.regs, host);
      var after := s1.(mem := seq(|s.mem|, i requires 0 <= i < |s.mem| => (w.callee)(s.time, s.mem, args, i)),
                       seen := s.seen + [Seen(s.mem, args)]);
      after.(regs := Unpacked(w, after, entries, host, args))
  }

  /** The state after the first `i` instructions of a block. */
  ghost function Exec(w: World, entries: RegSet, code: seq<Inst>, i: nat, s: State): (s': State)
    requires i <= |code| && |s.regs| == |s.mem|
    ensures |s'.regs| == |s'.mem| == |s.regs|
  {
    if i == 0 then s else Step(w, entries, Exec(w, entries, code, i - 1, s), code[i - 1])
  }

  /** The state after the blocks of a path. */
  ghost function Run(w: World, entries: RegSet, code: seq<seq<Inst>>, path: seq<nat>, s: State): (s': State)
    requires |s.regs| == |s.mem| && forall i :: 0 <= i < |path| ==> path[i] < |code|
    ensures |s'.regs| == |s'.mem| == |s.regs|
  {
    if path == [] then s
    else
      var b := path[|path| - 1];
      Exec(w, entries, code[b], |code[b]|, Run(w, entries, code, path[..|path| - 1], s))
  }

  // --------------------------------------------------------------- deletion

  /** The registers whose stores a pack keeps. */
  function RegSetOf(m: BlockMap, p: Pack): RegSet {
    (if p.bb in m then m[p.bb].0 else {}) + p.dirty
  }

  /** `code'` is `code` with some stores gone, but none of a register that is dirty at that point of the block. */
  ghost predicate Erased(f: Function, m: BlockMap, code': seq<seq<Inst>>)
    requires Lifted(f)
  {
    && |code'| == |f.code|
    && forall b: nat :: b < |f.code| ==> |code'[b]| == |f.code[b]| && forall i: nat :: i < |f.code[b]| ==>
      InstErased(f, m, b, i, code'[b][i])
  }

  ghost predicate InstErased(f: Function, m: BlockMap, b: nat, i: nat, inst: Inst)
    requires Lifted(f) && b < |f.code| && i < |f.code[b]|
  {
    || inst == f.code[b][i]
    || (&& f.code[b][i].Stores? && inst.Stores?
        && inst.regs <= f.code[b][i].regs
        && forall r :: r in f.code[b][i].regs && r !in inst.regs ==> !(b in m && r in m[b].0) && r !in DirtyAt(f.entries, f.code[b], i))
  }

  /** A pack is left with exactly the stores of its registers that may be dirty. */
  ghost predicate PackErased(m: BlockMap, code': seq<seq<Inst>>, p: Pack) {
    p.bb < |code'| && p.at < |code'[p.bb]| && code'[p.bb][p.at] == Stores(p.stores * RegSetOf(m, p))
  }

  /** The loop over call_conv_packs: drop the stores of registers that are clean. */
  method ErasePacks(f: Function, m: BlockMap) returns (code': seq<seq<Inst>>)
    requires Lifted(f)
    ensures Erased(f, m, code')
    ensures forall k :: 0 <= k < |f.packs| ==> PackErased(m, code', f.packs[k])
  {
    code' := f.code;
    for k := 0 to |f.packs|
      invariant Erased(f, m, code')
      invariant forall j :: 0 <= j < k ==> PackErased(m, code', f.packs[j])
    {
      var p := f.packs[k];
      var kept := p.stores * RegSetOf(m, p);
      code' := code'[p.bb := code'[p.bb][p.at := Stores(kept)]];
    }
  }

  /** OptimizePacks. */
  method OptimizePacks(f: Function) returns (code': seq<seq<Inst>>, ghost m: BlockMap)
    requires Lifted(f)
    ensures Solution(f.graph, m) && Erased(f, m, code')
    ensures forall k :: 0 <= k < |f.packs| ==> PackErased(m, code', f.packs[k])
  {
    var blocks := Analyze(f.graph);
    code' := ErasePacks(f, blocks);
    m := blocks;
  }

  // -------------------------------------------------------------- soundness

  /** Outside the set of dirty registers, every register agrees with its slot. */
  ghost predicate Clean(entries: RegSet, dirty: RegSet, s: State)
    requires |s.regs| == |s.mem|
  {
    forall r :: r in entries && r < |s.regs| && r !in dirty ==> s.regs[r] == s.mem[r]
  }

  /** Registers that may be dirty before instruction `i`, if those in `pre` may be at the start of the block. */
  ghost function MayBeDirty(entries: RegSet, code: seq<Inst>, i: nat, pre: RegSet): RegSet
    requires i <= |code|
  {
    (pre - CleanedAt(code, i)) + DirtyAt(entries, code, i)
  }

  lemma CleanStep(w: World, entries: RegSet, code: seq<Inst>, i: nat, pre: RegSet, s: State)
    requires i < |code| && |s.regs| == |s.mem|
    requires code[i].Params? || Clean(entries, MayBeDirty(entries, code, i, pre), s)
    ensures Clean(entries, MayBeDirty(entries, code, i + 1, pre), Step(w, entries, s, code[i]))
  {
  }

  /** A step with stores deleted does the same. */
  lemma SameStep(w: World, f: Function, m: BlockMap, code': seq<seq<Inst>>, b: nat, i: nat, s: State)
    requires Lifted(f) && Erased(f, m, code') && b < |f.code| && i < |f.code[b]| && b in m && |s.regs| == |s.mem|
    requires f.code[b][i].Params? || Clean(f.entries, MayBeDirty(f.entries, f.code[b], i, m[b].0), s)
    ensures Step(w, f.entries, s, code'[b][i]) == Step(w, f.entries, s, f.code[b][i])
  {
    assert InstErased(f, m, b, i, code'[b][i]);
    var x, y := code'[b][i], f.code[b][i];
    if x != y {
      assert Stored(s.regs, s.mem, x.regs) == Stored(s.regs, s.mem, y.regs);
    }
  }

  lemma NothingDirty(entries: RegSet, code: seq<Inst>, pre: RegSet)
    ensures MayBeDirty(entries, code, 0, pre) == pre
  {
  }

  /** Block by block: same state, and clean outside what may be dirty. */
  lemma {:induction false} SameExec(w: World, f: Function, m: BlockMap, code': seq<seq<Inst>>, b: nat, i: nat, s: State)
    requires Lifted(f) && Erased(f, m, code') && b < |f.code| && i <= |f.code[b]| && b in m && |s.regs| == |s.mem|
    requires b == f.graph.entry || Clean(f.entries, m[b].0, s)
    ensures Exec(w, f.entries, code'[b], i, s) == Exec(w, f.entries, f.code[b], i, s)
    ensures i > 0 || b != f.graph.entry ==>
      Clean(f.entries, MayBeDirty(f.entries, f.code[b], i, m[b].0), Exec(w, f.entries, f.code[b], i, s))
  {
    NothingDirty(f.entries, f.code[b], m[b].0);
    assert |code'[b]| == |f.code[b]| && (b == f.graph.entry && i > 0 ==> f.code[b][0].Params?);
    hide Step, Clean, MayBeDirty, Erased, Lifted;
    if i > 0 {
      SameExec(w, f, m, code', b, i - 1, s);
      var s1 := Exec(w, f.entries, f.code[b], i - 1, s);
      SameStep(w, f, m, code', b, i - 1, s1);
      CleanStep(w, f.entries, f.code[b], i - 1, m[b].0, s1);
    }
  }

  /**
   * On every path from the entry, with any world and from any state, the
   * optimised function goes through the same states: every call and return
   * sees the same CPU struct and the same host registers.
   */
  lemma {:induction false} StoresDeleted(w: World, f: Function, m: BlockMap, code': seq<seq<Inst>>, path: seq<nat>, s: State)
    requires Lifted(f) && Solution(f.graph, m) && Erased(f, m, code') && |s.regs| == |s.mem|
    requires IsPath(f.graph, path)
    ensures Run(w, f.entries, code', path, s) == Run(w, f.entries, f.code, path, s)
    ensures Clean(f.entries, PostOf(m, path[|path| - 1]), Run(w, f.entries, f.code, path, s))
  {
    var before, b := path[..|path| - 1], path[|path| - 1];
    assert PathTo(f.graph, path, b);
    var s1 := Run(w, f.entries, f.code, before, s);
    if |path| > 1 {
      StoresDeleted(w, f, m, code', before, s);
      var p := before[|before| - 1];
      assert b in f.graph.succ[p];
      UnionHas(m, f.graph.pred[b], p);
    }
    SameExec(w, f, m, code', b, |f.code[b]|, s1);
  }

  // ------------------------------------------------------- from the lifter

  /** The blocks of one function, as the lifter left them; the entry block has read the parameters first. */
  ghost predicate BlocksLifted(blocks: seq<BlockLifter>, entries: seq<Option<nat>>, succ: seq<seq<nat>>, pred: seq<seq<nat>>, entry: nat)
    reads set b | 0 <= b < |blocks| :: blocks[b]
  {
    && |blocks| == |succ| == |pred| && entry < |blocks|
    && ValidGraph(Graph(succ, pred, seq(|blocks|, _ => {}), seq(|blocks|, _ => {}), entry))
    && (forall b :: 0 <= b < |blocks| ==> blocks[b].Valid() && blocks[b].bb == b && blocks[b].entries == entries)
    && |blocks[entry].code| > 0 && blocks[entry].code[0].Params?
  }

  /** Put the blocks together: their code, the sets of their register files, and all their packs. */
  method Assemble(blocks: seq<BlockLifter>, entries: seq<Option<nat>>, succ: seq<seq<nat>>, pred: seq<seq<nat>>, entry: nat)
    returns (f: Function)
    requires BlocksLifted(blocks, entries, succ, pred, entry)
    ensures Lifted(f) && |f.code| == |blocks| && forall b :: 0 <= b < |blocks| ==> f.code[b] == blocks[b].code
    ensures f.graph.succ == succ && f.graph.pred == pred && f.graph.entry == entry && f.entries == Registers(entries)
    ensures forall b, k :: 0 <= b < |blocks| && 0 <= k < |blocks[b].packs| ==> blocks[b].packs[k] in f.packs
  {
    var code, dirty, cleaned := [], [], [];
    var packs: seq<Pack> := [];
    for n := 0 to |blocks|
      invariant |code| == |dirty| == |cleaned| == n
      invariant forall b :: 0 <= b < n ==> code[b] == blocks[b].code && dirty[b] == blocks[b].dirty && cleaned[b] == blocks[b].cleaned
      invariant forall k :: 0 <= k < |packs| ==> packs[k].bb < n && PackOk(Registers(entries), code[packs[k].bb], packs[k].bb, packs[k])
      invariant forall b, k :: 0 <= b < n && 0 <= k < |blocks[b].packs| ==> blocks[b].packs[k] in packs
    {
      code, dirty, cleaned := code + [blocks[n].code], dirty + [blocks[n].dirty], cleaned + [blocks[n].cleaned];
      packs := packs + blocks[n].packs;
    }
    f := Function(code, Graph(succ, pred, dirty, cleaned, entry), Registers(entries), packs);
  }

  /**
   * From the lifter to the optimised function: every pack is left with the
   * stores of registers that may be dirty, and in every world and from every
   * state, each path through the blocks goes through the same states.
   */
  method OptimizeLifted(blocks: seq<BlockLifter>, entries: seq<Option<nat>>, succ: seq<seq<nat>>, pred: seq<seq<nat>>, entry: nat)
    returns (f: Function, code': seq<seq<Inst>>, ghost m: BlockMap)
    requires BlocksLifted(blocks, entries, succ, pred, entry)
    ensures Lifted(f) && |f.code| == |code'| == |blocks| && forall b :: 0 <= b < |blocks| ==> f.code[b] == blocks[b].code
    ensures f.graph.succ == succ && f.graph.entry == entry && f.entries == Registers(entries) && Solution(f.graph, m)
    ensures forall b, k :: 0 <= b < |blocks| && 0 <= k < |blocks[b].packs| ==> PackErased(m, code', blocks[b].packs[k])
    ensures forall w: World, path: seq<nat>, s: State :: |s.regs| == |s.mem| && IsPath(f.graph, path) ==>
      Run(w, f.entries, code', path, s) == Run(w, f.entries, f.code, path, s)
  {
    f := Assemble(blocks, entries, succ, pred, entry);
    code', m := OptimizePacks(f);
    forall w: World, path: seq<nat>, s: State | |s.regs| == |s.mem| && IsPath(f.graph, path)
      ensures Run(w, f.entries, code', path, s) == Run(w, f.entries, f.code, path, s)
    {
      StoresDeleted(w, f, m, code', path, s);
    }
  }
}
