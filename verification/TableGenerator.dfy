/**
 * The generator as a whole: add all opcodes for all modes, deduplicate, pack.
 */
module TableGenerator {
  import opened Options
  import opened OpcodeTrie
  import opened Opcodes
  import opened TrieShape
  import opened TrieMeaning
  import opened TrieReduce
  import opened TrieCanonical
  import opened TriePack
  import opened TrieBuilder
  import opened DecodeWalk
  import opened DecodeCorrect

  /** One line of the instruction list: I64 excludes 64-bit mode, O64 excludes 32-bit mode. */
  datatype Spec = Spec(weak: bool, opcode: Opcode, desc: nat, i64: bool, o64: bool)

  predicate AppliesTo(s: Spec, mode: nat) {
    if mode <= 32 then !s.o64 else !s.i64
  }

  function PatternOf(s: Spec, root: nat): Pattern
    requires ValidOpcode(s.opcode)
  {
    Pattern(root, TransformOpcode(s.opcode), s.desc, s.weak)
  }

  /** The patterns of one line for the modes from `i` on. */
  ghost function LinePatterns(s: Spec, modes: seq<nat>, i: nat): seq<Pattern>
    requires ValidOpcode(s.opcode) && i <= |modes|
    decreases |modes| - i
  {
    if i == |modes| then []
    else (if AppliesTo(s, modes[i]) then [PatternOf(s, i)] else []) + LinePatterns(s, modes, i + 1)
  }

  ghost predicate ValidSpecs(specs: seq<Spec>) {
    forall i :: 0 <= i < |specs| ==> ValidOpcode(specs[i].opcode)
  }

  /** All patterns in the order in which they are added. */
  ghost function AllPatterns(specs: seq<Spec>, modes: seq<nat>): seq<Pattern>
    requires ValidSpecs(specs)
  {
    if specs == [] then [] else LinePatterns(specs[0], modes, 0) + AllPatterns(specs[1..], modes)
  }

  lemma {:induction false} LineValid(s: Spec, modes: seq<nat>, i: nat)
    requires ValidOpcode(s.opcode) && i <= |modes|
    ensures ValidPatterns(LinePatterns(s, modes, i))
    decreases |modes| - i
  {
    if i < |modes| {
      TransformValid(s.opcode);
      LineValid(s, modes, i + 1);
    }
  }

  lemma {:induction false} AllValid(specs: seq<Spec>, modes: seq<nat>)
    requires ValidSpecs(specs)
    ensures ValidPatterns(AllPatterns(specs, modes))
  {
    if specs != [] {
      LineValid(specs[0], modes, 0);
      AllValid(specs[1..], modes);
    }
  }

  // ----------------------------------------------------------------- roots

  /** A mode for which the escape index makes a difference. */
  ghost predicate EscapeMatters(ps: seq<Pattern>, r: nat)
    requires ValidPatterns(ps)
  {
    exists w: seq<nat>, i: nat :: Distinguishes(ps, r, ROOT, w, i)
  }

  ghost predicate SameMode(ps: seq<Pattern>, r: nat, r': nat)
    requires ValidPatterns(ps)
  {
    forall w: seq<nat> :: IsVector(w) ==> Selected(ps, r, w) == Selected(ps, r', w)
  }

  /** The modes decode differently from each other, and none ignores the escape. */
  ghost predicate ModesDiffer(ps: seq<Pattern>, count: nat)
    requires ValidPatterns(ps)
  {
    && (forall r: nat :: r < count ==> EscapeMatters(ps, r))
    && (forall r: nat, r': nat :: r < r' < count ==> !SameMode(ps, r, r'))
  }

  /** The state handed from adding to deduplication. */
  ghost predicate Grown(t: seq<seq<Entry>>, kinds: seq<int>, parent: seq<Slot>, ps: seq<Pattern>) {
    IsTree(t, kinds, parent) && RootSlots(t, kinds) && ValidPatterns(ps) && Means(t, ps)
  }

  /** The same, with a root table for every mode. */
  ghost predicate Built(t: seq<seq<Entry>>, kinds: seq<int>, parent: seq<Slot>, ps: seq<Pattern>) {
    Grown(t, kinds, parent, ps) && forall r :: 0 <= r < |t[0]| ==> t[0][r].Table?
  }

  /** `t` is a reduced trie of the patterns. */
  ghost predicate ReducedFor(t: seq<seq<Entry>>, kinds: seq<int>, ps: seq<Pattern>) {
    exists t0: seq<seq<Entry>>, parent: seq<Slot> :: Grown(t0, kinds, parent, ps) && Deduplicated(t0, kinds, t)
  }

  lemma RootRef(t: seq<seq<Entry>>, kinds: seq<int>, parent: seq<Slot>, ps: seq<Pattern>, r: nat)
    requires Built(t, kinds, parent, ps) && r < |t[0]|
    ensures t[0][r].Table? && t[0][r].kind == ROOT && 1 <= t[0][r].num < |t| && kinds[t[0][r].num] == ROOT
    ensures parent[t[0][r].num] == (0, r)
  {
    assert RefOk(kinds, kinds[0], t[0][r]);
  }

  /** A root that is kept still means its mode. */
  lemma KeptRoot(t0: seq<seq<Entry>>, kinds: seq<int>, parent: seq<Slot>, t: seq<seq<Entry>>, ps: seq<Pattern>, r: nat)
    requires Built(t0, kinds, parent, ps) && Deduplicated(t0, kinds, t) && r < |t0[0]|
    requires t0[0][r].Table? && Live(t, t0[0][r].num)
    ensures RootOf(t, kinds, t0[0][r], ps, r)
  {
    RootRef(t0, kinds, parent, ps, r);
    var n := t0[0][r].num;
    assert SameMeaning(t, Table(kinds[n], n), t0, Table(kinds[n], n));
    forall v: seq<nat> | IsVector(v) ensures Walk(t, t0[0][r], v) == Selected(ps, r, v) {
    }
  }

  lemma KeptRootMatters(t0: seq<seq<Entry>>, kinds: seq<int>, parent: seq<Slot>, t: seq<seq<Entry>>, ps: seq<Pattern>, r: nat)
    requires Built(t0, kinds, parent, ps) && Deduplicated(t0, kinds, t) && r < |t0[0]|
    requires t0[0][r].Table? && Live(t, t0[0][r].num)
    ensures EscapeMatters(ps, r)
  {
    KeptRoot(t0, kinds, parent, t, ps, r);
    var v, i := Sensitive(t, kinds, t0[0][r]);
    assert Walk(t, t0[0][r], v) == Selected(ps, r, v);
    assert Walk(t, t0[0][r], v[ROOT := i]) == Selected(ps, r, v[ROOT := i]);
    assert Distinguishes(ps, r, ROOT, v, i);
  }

  lemma KeptRootsDiffer(t0: seq<seq<Entry>>, kinds: seq<int>, parent: seq<Slot>, t: seq<seq<Entry>>, ps: seq<Pattern>, r: nat, r': nat)
    requires Built(t0, kinds, parent, ps) && Deduplicated(t0, kinds, t) && r < r' < |t0[0]|
    requires t0[0][r].Table? && Live(t, t0[0][r].num) && t0[0][r'].Table? && Live(t, t0[0][r'].num)
    ensures !SameMode(ps, r, r')
  {
    KeptRoot(t0, kinds, parent, t, ps, r);
    KeptRoot(t0, kinds, parent, t, ps, r');
    RootRef(t0, kinds, parent, ps, r);
    RootRef(t0, kinds, parent, ps, r');
    var v := Separate(t, kinds, t0[0][r], t0[0][r']);
    assert Walk(t, t0[0][r], v) == Selected(ps, r, v) && Walk(t, t0[0][r'], v) == Selected(ps, r', v);
  }

  /** A root that is dropped has no use for the escape, or another mode is the same. */
  lemma DroppedRoot(t0: seq<seq<Entry>>, kinds: seq<int>, parent: seq<Slot>, t: seq<seq<Entry>>, ps: seq<Pattern>, r: nat)
    requires Built(t0, kinds, parent, ps) && Deduplicated(t0, kinds, t) && r < |t0[0]|
    requires t0[0][r].Table? && !Live(t, t0[0][r].num)
    ensures !EscapeMatters(ps, r) || exists r': nat :: r' < |t0[0]| && r' != r && SameMode(ps, r, r')
  {
    RootRef(t0, kinds, parent, ps, r);
    var n := t0[0][r].num;
    assert Replaceable(t0, kinds, t, n);
    var s: Entry :| LiveRef(t, kinds, -1, s) && RankOf(s) >= kinds[n] && SameMeaning(t, s, t0, Table(kinds[n], n));
    forall v: seq<nat> | IsVector(v) ensures Walk(t, s, v) == Selected(ps, r, v) {
    }
    if Has(s, ROOT) {
      assert Table(ROOT, s.num) in t0[0];
      var r': nat :| r' < |t0[0]| && t0[0][r'] == Table(ROOT, s.num);
      KeptRoot(t0, kinds, parent, t, ps, r');
      assert SameMode(ps, r, r');
    } else {
      forall w: seq<nat>, i: nat | IsVector(w) && i < TableLength(ROOT) ensures !Distinguishes(ps, r, ROOT, w, i) {
        VectorUpdate(w, ROOT, i);
        WalkLater(t, s, w, w[ROOT := i]);
        assert Walk(t, s, w) == Selected(ps, r, w) && Walk(t, s, w[ROOT := i]) == Selected(ps, r, w[ROOT := i]);
      }
    }
  }

  /** Every mode keeps its root table exactly if the modes differ and none ignores the escape. */
  lemma RootsKeptIff(t0: seq<seq<Entry>>, kinds: seq<int>, parent: seq<Slot>, t: seq<seq<Entry>>, ps: seq<Pattern>)
    requires Built(t0, kinds, parent, ps) && Deduplicated(t0, kinds, t)
    ensures (forall r: nat :: r < |t0[0]| ==> t0[0][r].Table? && Live(t, t0[0][r].num)) <==> ModesDiffer(ps, |t0[0]|)
  {
    if forall r: nat :: r < |t0[0]| ==> t0[0][r].Table? && Live(t, t0[0][r].num) {
      forall r: nat | r < |t0[0]| ensures EscapeMatters(ps, r) {
        KeptRootMatters(t0, kinds, parent, t, ps, r);
      }
      forall r: nat, r': nat | r < r' < |t0[0]| ensures !SameMode(ps, r, r') {
        KeptRootsDiffer(t0, kinds, parent, t, ps, r, r');
      }
    } else {
      var r: nat :| r < |t0[0]| && !(t0[0][r].Table? && Live(t, t0[0][r].num));
      DroppedRoot(t0, kinds, parent, t, ps, r);
      if EscapeMatters(ps, r) {
        var r': nat :| r' < |t0[0]| && r' != r && SameMode(ps, r, r');
        assert SameMode(ps, r', r);
      }
    }
  }

  // -------------------------------------------------------------- generator

  /** Some pattern of `ps` conflicts with a later one if a prefix and the next pattern do. */
  lemma PrefixConflict(ps: seq<Pattern>, added: seq<Pattern>, p: Pattern, rest: seq<Pattern>)
    requires ValidPatterns(ps) && ps == added + [p] + rest
    requires exists i :: 0 <= i < |added| && |added[i].elems| == 6 && |p.elems| == 6 && Conflict(added[i], p)
    ensures !NoConflicts(ps)
  {
    var i :| 0 <= i < |added| && |added[i].elems| == 6 && |p.elems| == 6 && Conflict(added[i], p);
    assert ps[i] == added[i] && ps[|added|] == p;
  }

  /** Add one line for every mode it applies to. */
  method AddLine(trie: Trie, s: Spec, modes: seq<nat>, ghost ps: seq<Pattern>, ghost rest: seq<Pattern>) returns (ok: bool)
    requires trie.Valid() && RootsUsed(trie.trie, trie.added) && ValidOpcode(s.opcode) && |trie.trie[0]| == |modes|
    requires ValidPatterns(ps) && ps == trie.added + LinePatterns(s, modes, 0) + rest
    modifies trie
    ensures ok ==> trie.Valid() && RootsUsed(trie.trie, trie.added) && |trie.trie[0]| == |modes| && ps == trie.added + rest
    ensures !ok ==> !NoConflicts(ps)
  {
    for i := 0 to |modes|
      invariant trie.Valid() && RootsUsed(trie.trie, trie.added) && |trie.trie[0]| == |modes|
      invariant ps == trie.added + LinePatterns(s, modes, i) + rest
    {
      if AppliesTo(s, modes[i]) {
        ghost var added, p := trie.added, PatternOf(s, i);
        ghost var tail := LinePatterns(s, modes, i + 1) + rest;
        assert ps == added + [p] + tail;
        ok := trie.AddOpcode(s.opcode, s.desc, i, s.weak);
        if !ok {
          PrefixConflict(ps, added, p, tail);
          return;
        }
      }
    }
    return true;
  }

  /** The trie after all lines. */
  method AddAll(trie: Trie, specs: seq<Spec>, modes: seq<nat>) returns (ok: bool)
    requires ValidSpecs(specs) && trie.Valid() && trie.added == [] && |trie.trie[0]| == |modes| && RootsUsed(trie.trie, [])
    modifies trie
    ensures ValidPatterns(AllPatterns(specs, modes)) && (ok <==> NoConflicts(AllPatterns(specs, modes)))
    ensures ok ==> trie.Valid() && |trie.trie[0]| == |modes| && trie.added == AllPatterns(specs, modes)
    ensures ok ==> RootsUsed(trie.trie, trie.added)
  {
    ghost var ps := AllPatterns(specs, modes);
    AllValid(specs, modes);
    assert specs[0..] == specs;
    hide RootsUsed, Means, WellFormed, Unshared, RootSlots, KindLists, LinePatterns;
    ok := true;
    var i := 0;
    while ok && i < |specs|
      invariant i <= |specs| && (ok ==> trie.Valid() && RootsUsed(trie.trie, trie.added) && |trie.trie[0]| == |modes|)
      invariant ok ==> ps == trie.added + AllPatterns(specs[i..], modes)
      invariant !ok ==> !NoConflicts(ps)
    {
      AllPatternsSplit(specs, modes, i, trie.added);
      ok := AddLine(trie, specs[i], modes, ps, AllPatterns(specs[i + 1..], modes));
      i := i + 1;
    }
  }

  lemma AllPatternsSplit(specs: seq<Spec>, modes: seq<nat>, i: nat, added: seq<Pattern>)
    requires ValidSpecs(specs) && i < |specs|
    ensures added + AllPatterns(specs[i..], modes) == added + LinePatterns(specs[i], modes, 0) + AllPatterns(specs[i + 1..], modes)
  {
    assert specs[i..][1..] == specs[i + 1..];
  }

  /** The packed table serves every mode whose root has an offset. */
  ghost predicate Serves(t: seq<seq<Entry>>, kinds: seq<int>, ps: seq<Pattern>, data: seq<nat>, roots: seq<Option<nat>>)
    requires ValidPatterns(ps)
  {
    && |t| > 0 && Packed(t, kinds, data) && |roots| == |t[0]|
    && forall r: nat :: r < |roots| && roots[r].Some? ==>
         RootOf(t, kinds, t[0][r], ps, r) && t[0][r].num < |t| && roots[r].value == Base(t, t[0][r].num)
  }

  lemma CompiledServes(t0: seq<seq<Entry>>, kinds: seq<int>, parent: seq<Slot>, t: seq<seq<Entry>>, ps: seq<Pattern>, res: CompileResult)
    requires Built(t0, kinds, parent, ps) && Deduplicated(t0, kinds, t) && CompiledFrom(t, kinds, res) && res.Compiled?
    ensures Serves(t, kinds, ps, res.data, res.roots)
    ensures (forall r :: 0 <= r < |res.roots| ==> res.roots[r].Some?) <==> ModesDiffer(ps, |t0[0]|)
  {
    forall r: nat | r < |res.roots| && res.roots[r].Some?
      ensures RootOf(t, kinds, t[0][r], ps, r)
    {
      KeptRoot(t0, kinds, parent, t, ps, r);
    }
    RootsKeptIff(t0, kinds, parent, t, ps);
  }

  /**
   * Generate the decode table. `ok` is false if the instruction list has two
   * strong opcodes for the same encoding. `t` is the reduced trie: it is too
   * large, or has an empty root, exactly if the generator says so.
   */
  method Generate(specs: seq<Spec>, modes: seq<nat>)
    returns (ok: bool, res: CompileResult, ghost t: seq<seq<Entry>>, ghost kinds: seq<int>)
    requires ValidSpecs(specs)
    ensures ValidPatterns(AllPatterns(specs, modes)) && (ok <==> NoConflicts(AllPatterns(specs, modes)))
    ensures ok ==> |t| > 0 && |t[0]| == |modes| && ReducedFor(t, kinds, AllPatterns(specs, modes)) && CompiledFrom(t, kinds, res)
    ensures ok ==> (res.EmptyRoot? <==> !res.TooLarge? && exists r: nat :: r < |modes| && !Mentions(AllPatterns(specs, modes), r))
    ensures ok && res.Compiled? ==>
      && Serves(t, kinds, AllPatterns(specs, modes), res.data, res.roots) && |res.roots| == |modes|
      && ((forall r :: 0 <= r < |modes| ==> res.roots[r].Some?) <==> ModesDiffer(AllPatterns(specs, modes), |modes|))
  {
    var trie := new Trie(|modes|);
    ok := AddAll(trie, specs, modes);
    res, t, kinds := EmptyRoot, [], [];
    if !ok {
      return;
    }
    ghost var t0, parent, ps := trie.trie, trie.parent, trie.added;
    trie.Deduplicate();
    t, kinds := trie.trie, trie.kinds;
    RootSlotRefs(t0, kinds);
    assert Grown(t0, kinds, parent, ps);
    EmptyRootIff(t0, kinds, parent, ps);
    res := trie.Compile();
    if res.Compiled? {
      assert forall r :: 0 <= r < |t0[0]| ==> t[0][r].Table?;
      CompiledServes(t0, kinds, parent, t, ps, res);
    }
  }

  /** A vector that a pattern matches. */
  lemma Fulfilled(p: Pattern) returns (v: seq<nat>)
    requires ValidElems(p.elems)
    ensures IsVector(v) && Matches(p, p.root, v)
  {
    v := seq(6, k requires 0 <= k < 6 => if p.elems[k].Some? && |p.elems[k].value| > 0 then p.elems[k].value[0] else 0);
    forall k: Kind ensures v[k] < TableLength(k) && ElemMatches(p.elems[k], v[k]) {
      assert ValidElem(p.elems[k], k);
    }
  }

  /** A mode that some pattern is for decodes something. */
  lemma MentionedSelects(ps: seq<Pattern>, r: nat) returns (v: seq<nat>)
    requires ValidPatterns(ps) && Mentions(ps, r)
    ensures IsVector(v) && Selected(ps, r, v) != Empty
  {
    var i :| 0 <= i < |ps| && ps[i].root == r;
    v := Fulfilled(ps[i]);
    assert Matches(ps[i], r, v);
    hide Matches, IsVector;
  }

  lemma SlotUsed(t: seq<seq<Entry>>, ps: seq<Pattern>, r: nat)
    requires ValidPatterns(ps) && Means(t, ps) && r < |t[0]| && Mentions(ps, r)
    ensures t[0][r] != Empty
  {
    var v := MentionedSelects(ps, r);
    assert Walk(t, t[0][r], v) == Selected(ps, r, v);
  }

  /** Table 0 has an empty slot exactly if no pattern is for some mode. */
  lemma EmptyRootIff(t: seq<seq<Entry>>, kinds: seq<int>, parent: seq<Slot>, ps: seq<Pattern>)
    requires Grown(t, kinds, parent, ps) && RootsUsed(t, ps)
    ensures Empty in t[0] <==> exists r: nat :: r < |t[0]| && !Mentions(ps, r)
  {
    if Empty in t[0] {
      var r: nat :| r < |t[0]| && t[0][r] == Empty;
      if Mentions(ps, r) {
        SlotUsed(t, ps, r);
        assert false;
      }
    }
    forall r: nat | r < |t[0]| && !Mentions(ps, r) ensures t[0][r] == Empty {
    }
  }

  lemma RootSlotRefs(t: seq<seq<Entry>>, kinds: seq<int>)
    requires WellFormed(t, kinds)
    ensures forall r :: 0 <= r < |t[0]| ==> RefOk(kinds, -1, t[0][r])
  {
    forall r | 0 <= r < |t[0]| ensures RefOk(kinds, -1, t[0][r]) {
      assert RefOk(kinds, kinds[0], t[0][r]);
    }
  }

  lemma AnswerExact(e: Entry)
    requires e.Instr?
    ensures Answer(e) == Found(e.desc) <==> e.desc < 0x2000
  {
  }

  /**
   * From a served root, decoding the bytes of an input gives the
   * descriptor of the pattern that is selected for it.
   */
  lemma GeneratedDecode(t: seq<seq<Entry>>, kinds: seq<int>, ps: seq<Pattern>, data: seq<nat>, roots: seq<Option<nat>>, r: nat,
                        c: Context, buf: seq<nat>, off: nat)
    requires ValidPatterns(ps) && Serves(t, kinds, ps, data, roots) && r < |roots| && roots[r].Some?
    requires ValidContext(c) && Bytes(buf) && off + 2 <= |buf| && OpcodeByteMatters(ps, r, EscapeIndex(c))
    ensures var chosen := Selected(ps, r, VectorOf(InputOf(c, buf[off], buf[off + 1]))); var res := Descend(t, t[0][r], c, buf, off);
      && (chosen.Empty? <==> res.0 == Undefined)
      && (chosen.Instr? ==> res.1 == off + 1 && (res.0 == Found(chosen.desc) <==> chosen.desc < 0x2000))
  {
    DescentComplete(t, kinds, t[0][r], ps, r, c, buf, off);
    var chosen := Selected(ps, r, VectorOf(InputOf(c, buf[off], buf[off + 1])));
    if chosen.Instr? { AnswerExact(chosen); }
  }

  /** Whether the ModRM byte, which is not there, would make a difference; if not, the answer does not depend on it. */
  ghost predicate WithoutModRM(ps: seq<Pattern>, r: nat, c: Context, opcode: nat, res: Outcome)
    requires ValidPatterns(ps)
  {
    forall modrm: nat :: modrm < 256 ==>
      var v := VectorOf(InputOf(c, opcode, modrm));
      (res.Partial? <==> NeedsIndex(ps, r, v, TABLE16)) && (!res.Partial? ==> res == Answer(Selected(ps, r, v)))
  }

  /** What the decoder gets: the pattern selected for both bytes, as far as its descriptor fits. */
  ghost predicate Answers(ps: seq<Pattern>, r: nat, c: Context, opcode: nat, modrm: nat, res: Outcome)
    requires ValidPatterns(ps)
  {
    var chosen := Selected(ps, r, VectorOf(InputOf(c, opcode, modrm)));
    (chosen.Empty? <==> res == Undefined) && (chosen.Instr? ==> (res == Found(chosen.desc) <==> chosen.desc < 0x2000))
  }

  /**
   * End to end, over the 16-bit words: the table part of fd_decode, started at
   * the offset of a mode, on bytes of any length, after an escape for which the
   * opcode byte makes a difference.
   */
  method DecodeWords(table: seq<nat>, root: nat, c: Context, buf: seq<nat>, start: nat,
                     ghost t: seq<seq<Entry>>, ghost kinds: seq<int>, ghost ps: seq<Pattern>, ghost data: seq<nat>,
                     ghost roots: seq<Option<nat>>, ghost r: nat)
    returns (res: Outcome, off: nat)
    requires ValidPatterns(ps) && Serves(t, kinds, ps, data, roots) && r < |roots| && roots[r] == Some(root) &&
      DecodeWalk.Stored(data, table)
    requires ValidContext(c) && Bytes(buf) && start <= |buf| && OpcodeByteMatters(ps, r, EscapeIndex(c))
    ensures start + 2 <= |buf| ==> Answers(ps, r, c, buf[start], buf[start + 1], res)
    ensures start + 2 <= |buf| && Selected(ps, r, VectorOf(InputOf(c, buf[start], buf[start + 1]))).Instr? ==> off == start + 1
    ensures start + 1 == |buf| ==> WithoutModRM(ps, r, c, buf[start], res)
    ensures start == |buf| ==> res == (if Unused(ps, r, EscapeIndex(c)) then Undefined else Partial) && off == start
  {
    StoredIsLoaded(t, kinds, data, table);
    RootRefLive(t, kinds, ps, data, roots, r);
    hide Serves, Loaded, Selected, VectorOf, RootOf, Descend, OpcodeByteMatters, DecodeWalk.Stored, NeedsIndex, Unused;
    res, off := DecodeTable(table, root, c, buf, start, t, kinds, t[0][r]);
    if start + 2 <= |buf| {
      GeneratedDecode(t, kinds, ps, data, roots, r, c, buf, start);
    } else if start + 1 == |buf| {
      DecodeWithoutModRM(t, kinds, t[0][r], ps, r, c, buf, start);
    } else {
      DescentWithoutOpcode(t, kinds, t[0][r], ps, r, c, buf);
    }
  }

  lemma RootRefLive(t: seq<seq<Entry>>, kinds: seq<int>, ps: seq<Pattern>, data: seq<nat>, roots: seq<Option<nat>>, r: nat)
    requires ValidPatterns(ps) && Serves(t, kinds, ps, data, roots) && r < |roots| && roots[r].Some?
    ensures |t| > 0 && r < |t[0]| && LiveRef(t, kinds, -1, t[0][r]) && Has(t[0][r], ROOT) && t[0][r].num < |t|
    ensures roots[r].value == Base(t, t[0][r].num) && Packed(t, kinds, data) && RootOf(t, kinds, t[0][r], ps, r)
  {
    hide Packed, Base;
  }

  lemma DecodeWithoutModRM(t: seq<seq<Entry>>, kinds: seq<int>, root: Entry, ps: seq<Pattern>, r: nat, c: Context, buf: seq<nat>, off: nat)
    requires ValidPatterns(ps) && RootOf(t, kinds, root, ps, r) && ValidContext(c) && Bytes(buf) && off + 1 == |buf|
    requires OpcodeByteMatters(ps, r, EscapeIndex(c))
    ensures WithoutModRM(ps, r, c, buf[off], Descend(t, root, c, buf, off).0)
  {
    hide RootOf, Selected, Descend, NeedsIndex, OpcodeByteMatters, Answer;
    forall modrm: nat | modrm < 256
      ensures var v := VectorOf(InputOf(c, buf[off], modrm)); var res := Descend(t, root, c, buf, off).0;
        (res.Partial? <==> NeedsIndex(ps, r, v, TABLE16)) && (!res.Partial? ==> res == Answer(Selected(ps, r, v)))
    {
      DescentWithoutModRM(t, kinds, root, ps, r, c, buf, off, modrm);
    }
  }
}
