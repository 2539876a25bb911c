/**
 * The descent through the reduced trie against the meaning of the patterns.
 */
module DecodeCorrect {
  import opened Options
  import opened OpcodeTrie
  import opened Opcodes
  import opened TrieShape
  import opened TrieCanonical
  import opened DecodeWalk

  /** `root` is a kept root table that means what the patterns of mode `r` select. */
  ghost predicate RootOf(t: seq<seq<Entry>>, kinds: seq<int>, root: Entry, ps: seq<Pattern>, r: nat)
    requires ValidPatterns(ps)
  {
    && Reduced(t, kinds) && LiveRef(t, kinds, -1, root) && Has(root, ROOT)
    && forall v: seq<nat> {:trigger Selected(ps, r, v)} :: IsVector(v) ==> Walk(t, root, v) == Selected(ps, r, v)
  }

  /** Changing index `kind` of `w` to `i` changes what is selected. */
  ghost predicate Distinguishes(ps: seq<Pattern>, r: nat, kind: Kind, w: seq<nat>, i: nat)
    requires ValidPatterns(ps)
  {
    IsVector(w) && i < TableLength(kind) && Selected(ps, r, w) != Selected(ps, r, w[kind := i])
  }

  /** With the indices before `kind` as in `v`, the selection depends on index `kind`. */
  ghost predicate NeedsIndex(ps: seq<Pattern>, r: nat, v: seq<nat>, kind: Kind)
    requires ValidPatterns(ps) && |v| == 6
  {
    exists w: seq<nat>, i: nat :: Distinguishes(ps, r, kind, w, i) && forall k: Kind :: k < kind ==> w[k] == v[k]
  }

  /** No instruction at all after this escape. */
  ghost predicate Unused(ps: seq<Pattern>, r: nat, escape: nat)
    requires ValidPatterns(ps)
  {
    forall w: seq<nat> :: IsVector(w) && w[ROOT] == escape ==> Selected(ps, r, w) == Empty
  }

  /** After this escape the opcode byte makes a difference, unless there is no instruction at all. */
  ghost predicate OpcodeByteMatters(ps: seq<Pattern>, r: nat, escape: nat)
    requires ValidPatterns(ps)
  {
    Unused(ps, r, escape) || exists w: seq<nat>, i: nat :: Distinguishes(ps, r, TABLE256, w, i) && w[ROOT] == escape
  }

  // ------------------------------------------------------------ single steps

  lemma TakeWalk(t: seq<seq<Entry>>, kinds: seq<int>, e: Entry, kind: Kind, v: seq<nat>)
    requires Reduced(t, kinds) && LiveRef(t, kinds, -1, e) && RankOf(e) >= kind && IsVector(v)
    ensures var e' := Take(t, e, kind, v[kind]);
      LiveRef(t, kinds, -1, e') && RankOf(e') > kind && Walk(t, e', v) == Walk(t, e, v)
  {
    TakeLive(t, kinds, e, kind, v[kind]);
  }

  /** The entry after escape, opcode byte and mandatory prefix. */
  ghost function Third(t: seq<seq<Entry>>, root: Entry, v: seq<nat>): Entry
    requires |v| == 6
  {
    Take(t, Take(t, Take(t, root, ROOT, v[ROOT]), TABLE256, v[TABLE256]), PREFIX, v[PREFIX])
  }

  lemma ThirdWalk(t: seq<seq<Entry>>, kinds: seq<int>, root: Entry, v: seq<nat>)
    requires Reduced(t, kinds) && LiveRef(t, kinds, -1, root) && IsVector(v)
    ensures var e := Third(t, root, v); LiveRef(t, kinds, -1, e) && RankOf(e) >= TABLE16 && Walk(t, e, v) == Walk(t, root, v)
  {
    var e1 := Take(t, root, ROOT, v[ROOT]);
    TakeWalk(t, kinds, root, ROOT, v);
    TakeWalk(t, kinds, e1, TABLE256, v);
    TakeWalk(t, kinds, Take(t, e1, TABLE256, v[TABLE256]), PREFIX, v);
  }

  // ------------------------------------------------- TABLE8E only below TABLE16

  lemma Matches8E(p: Pattern, r: nat, v: seq<nat>, i: nat)
    requires ValidElems(p.elems) && IsVector(v) && v[TABLE16] < 8
    ensures Matches(p, r, v) <==> Matches(p, r, v[TABLE8E := i])
  {
    if p.elems[TABLE8E].Some? {
      assert !ElemMatches(p.elems[TABLE16], v[TABLE16]);
    } else {
      assert forall k: Kind :: ElemMatches(p.elems[k], v[k]) <==> ElemMatches(p.elems[k], v[TABLE8E := i][k]);
    }
  }

  lemma {:induction false} LastMatch8E(ps: seq<Pattern>, r: nat, v: seq<nat>, i: nat, weak: bool)
    requires ValidPatterns(ps) && IsVector(v) && v[TABLE16] < 8
    ensures LastMatch(ps, r, v, weak) == LastMatch(ps, r, v[TABLE8E := i], weak)
  {
    if ps != [] {
      Matches8E(ps[|ps| - 1], r, v, i);
      LastMatch8E(ps[..|ps| - 1], r, v, i, weak);
    }
  }

  /** The table met after the prefix, if any, distinguishes vectors that lead to it. */
  lemma ThirdSensitive(t: seq<seq<Entry>>, kinds: seq<int>, root: Entry, ps: seq<Pattern>, r: nat,
      v: seq<nat>) returns (w: seq<nat>, i: nat)
    requires ValidPatterns(ps) && RootOf(t, kinds, root, ps, r) && IsVector(v) && Third(t, root, v).Table?
    ensures Distinguishes(ps, r, Third(t, root, v).kind, w, i) && forall k: Kind :: k < TABLE16 ==> w[k] == v[k]
    ensures Third(t, root, v).kind > TABLE16 ==> w[TABLE16] == 0
  {
    var e := Third(t, root, v);
    ThirdWalk(t, kinds, root, v);
    var u;
    u, i := Sensitive(t, kinds, e);
    w := Rebased(v, u, e.kind);
    RebasedOk(v, u, e.kind, i);
    SameThird(t, root, v, w);
    SameThird(t, root, v, w[e.kind := i]);
    hide Third, Rebased, Walk, IsVector, LiveRef, Reduced;
    WalkLater(t, e, u, w);
    WalkLater(t, e, u[e.kind := i], w[e.kind := i]);
    ThirdWalk(t, kinds, root, w);
    ThirdWalk(t, kinds, root, w[e.kind := i]);
    assert Walk(t, root, w) == Selected(ps, r, w) && Walk(t, root, w[e.kind := i]) == Selected(ps, r, w[e.kind := i]);
  }

  /** The first three indices of `v` with the later ones of `u`; a skipped ModRM index is 0. */
  function Rebased(v: seq<nat>, u: seq<nat>, kind: Kind): (w: seq<nat>)
    requires |v| == |u| == 6
  {
    [v[0], v[1], v[2], if kind > TABLE16 then 0 else u[3], u[4], u[5]]
  }

  lemma RebasedOk(v: seq<nat>, u: seq<nat>, kind: Kind, i: nat)
    requires IsVector(v) && IsVector(u) && TABLE16 <= kind && i < TableLength(kind)
    ensures var w := Rebased(v, u, kind);
      && IsVector(w) && IsVector(w[kind := i]) && (forall k: Kind :: k < TABLE16 ==> w[k] == v[k] && w[kind := i][k] == v[k])
      && (kind > TABLE16 ==> w[TABLE16] == 0)
    ensures forall k: Kind :: k >= kind ==> Rebased(v, u, kind)[k] == u[k] && Rebased(v, u, kind)[kind := i][k] == u[kind := i][k]
  {
  }

  lemma SameThird(t: seq<seq<Entry>>, root: Entry, v: seq<nat>, w: seq<nat>)
    requires |v| == |w| == 6 && forall k: Kind :: k < TABLE16 ==> w[k] == v[k]
    ensures Third(t, root, w) == Third(t, root, v)
  {
  }

  /** In a reduced trie no TABLE8E is reached without a TABLE16, whatever was skipped. */
  lemma ThirdNot8E(t: seq<seq<Entry>>, kinds: seq<int>, root: Entry, ps: seq<Pattern>, r: nat, v: seq<nat>)
    requires ValidPatterns(ps) && RootOf(t, kinds, root, ps, r) && IsVector(v)
    ensures !Has(Third(t, root, v), TABLE8E)
  {
    if Has(Third(t, root, v), TABLE8E) {
      var w, i := ThirdSensitive(t, kinds, root, ps, r, v);
      LastMatch8E(ps, r, w, i, true);
      LastMatch8E(ps, r, w, i, false);
    }
  }

  // -------------------------------------------------------- the opcode byte

  /** Vectors that agree up to the prefix and from a later table on are not told apart. */
  lemma ThirdInsensitive(t: seq<seq<Entry>>, kinds: seq<int>, root: Entry, ps: seq<Pattern>, r: nat, v: seq<nat>, w: seq<nat>)
    requires ValidPatterns(ps) && RootOf(t, kinds, root, ps, r) && IsVector(v) && IsVector(w)
    requires v[0] == w[0] && v[1] == w[1] && v[2] == w[2]
    requires forall k: Kind :: k >= RankOf(Third(t, root, v)) ==> v[k] == w[k]
    ensures Selected(ps, r, v) == Selected(ps, r, w)
  {
    ThirdWalk(t, kinds, root, v);
    ThirdWalk(t, kinds, root, w);
    WalkLater(t, Third(t, root, v), v, w);
    assert Walk(t, root, v) == Selected(ps, r, v) && Walk(t, root, w) == Selected(ps, r, w);
  }

  /** The decoder meets a TABLE16 exactly if the ModRM extension makes a difference at this point. */
  lemma ModRMTable(t: seq<seq<Entry>>, kinds: seq<int>, root: Entry, ps: seq<Pattern>, r: nat, v: seq<nat>)
    requires ValidPatterns(ps) && RootOf(t, kinds, root, ps, r) && IsVector(v)
    ensures Has(Third(t, root, v), TABLE16) <==> NeedsIndex(ps, r, v, TABLE16)
  {
    ThirdWalk(t, kinds, root, v);
    if Has(Third(t, root, v), TABLE16) {
      var w, i := ThirdSensitive(t, kinds, root, ps, r, v);
    } else {
      forall w: seq<nat>, i: nat | IsVector(w) && i < TableLength(TABLE16) && (forall k: Kind :: k < TABLE16 ==> w[k] == v[k])
        ensures !Distinguishes(ps, r, TABLE16, w, i)
      {
        VectorUpdate(w, TABLE16, i);
        assert w[0] == v[0] && w[1] == v[1] && w[2] == v[2];
        assert Third(t, root, w) == Third(t, root, v);
        ThirdInsensitive(t, kinds, root, ps, r, w, w[TABLE16 := i]);
      }
    }
  }

  lemma FirstWalk(t: seq<seq<Entry>>, kinds: seq<int>, root: Entry, v: seq<nat>)
    requires Reduced(t, kinds) && LiveRef(t, kinds, -1, root) && Has(root, ROOT) && IsVector(v)
    ensures var e := Take(t, root, ROOT, v[ROOT]); LiveRef(t, kinds, -1, e) && RankOf(e) >= TABLE256 && Walk(t, e, v) == Walk(t, root, v)
  {
    TakeWalk(t, kinds, root, ROOT, v);
  }

  lemma FirstSensitive(t: seq<seq<Entry>>, kinds: seq<int>, root: Entry, ps: seq<Pattern>, r: nat,
      escape: nat) returns (w: seq<nat>, i: nat)
    requires ValidPatterns(ps) && RootOf(t, kinds, root, ps, r) && escape < 8 && Has(Take(t, root, ROOT, escape), TABLE256)
    ensures Distinguishes(ps, r, TABLE256, w, i) && w[ROOT] == escape
  {
    var e := Take(t, root, ROOT, escape);
    TakeLive(t, kinds, root, ROOT, escape);
    var u;
    u, i := Sensitive(t, kinds, e);
    w := u[ROOT := escape];
    var w' := w[TABLE256 := i];
    VectorUpdate(u, ROOT, escape);
    VectorUpdate(w, TABLE256, i);
    WalkLater(t, e, u, w);
    WalkLater(t, e, u[TABLE256 := i], w');
    FirstWalk(t, kinds, root, w);
    FirstWalk(t, kinds, root, w');
    assert Walk(t, root, w) == Selected(ps, r, w) && Walk(t, root, w') == Selected(ps, r, w');
  }

  lemma FirstInsensitive(t: seq<seq<Entry>>, kinds: seq<int>, root: Entry, ps: seq<Pattern>, r: nat, w: seq<nat>, i: nat)
    requires ValidPatterns(ps) && RootOf(t, kinds, root, ps, r) && IsVector(w) && i < TableLength(TABLE256)
    requires !Has(Take(t, root, ROOT, w[ROOT]), TABLE256)
    ensures Selected(ps, r, w) == Selected(ps, r, w[TABLE256 := i])
  {
    var w' := w[TABLE256 := i];
    VectorUpdate(w, TABLE256, i);
    FirstWalk(t, kinds, root, w);
    FirstWalk(t, kinds, root, w');
    WalkLater(t, Take(t, root, ROOT, w[ROOT]), w, w');
    assert Walk(t, root, w) == Selected(ps, r, w) && Walk(t, root, w') == Selected(ps, r, w');
  }

  /** After an escape the decoder meets a TABLE256 exactly if the opcode byte makes a difference there. */
  lemma OpcodeTable(t: seq<seq<Entry>>, kinds: seq<int>, root: Entry, ps: seq<Pattern>, r: nat, escape: nat)
    requires ValidPatterns(ps) && RootOf(t, kinds, root, ps, r) && escape < 8
    ensures Has(Take(t, root, ROOT, escape), TABLE256) <==>
      exists w: seq<nat>, i: nat :: Distinguishes(ps, r, TABLE256, w, i) && w[ROOT] == escape
  {
    if Has(Take(t, root, ROOT, escape), TABLE256) {
      var w, i := FirstSensitive(t, kinds, root, ps, r, escape);
    } else {
      forall w: seq<nat>, i: nat | IsVector(w) && i < TableLength(TABLE256) && w[ROOT] == escape
        ensures !Distinguishes(ps, r, TABLE256, w, i)
      {
        FirstInsensitive(t, kinds, root, ps, r, w, i);
      }
    }
  }

  lemma UnusedTable(t: seq<seq<Entry>>, kinds: seq<int>, root: Entry, ps: seq<Pattern>, r: nat, escape: nat)
    requires ValidPatterns(ps) && RootOf(t, kinds, root, ps, r) && escape < 8
    ensures Take(t, root, ROOT, escape).Empty? <==> Unused(ps, r, escape)
  {
    var e := Take(t, root, ROOT, escape);
    FirstWalk(t, kinds, root, [escape, 0, 0, 0, 0, 0]);
    if e.Empty? {
      forall w: seq<nat> | IsVector(w) && w[ROOT] == escape ensures Selected(ps, r, w) == Empty {
        FirstWalk(t, kinds, root, w);
      }
    } else {
      var u := Separate(t, kinds, e, Empty);
      var w := u[ROOT := escape];
      VectorUpdate(u, ROOT, escape);
      WalkLater(t, e, u, w);
      FirstWalk(t, kinds, root, w);
      assert Selected(ps, r, w) != Empty;
    }
  }

  // -------------------------------------------------------- the whole descent

  lemma ContextIndices(c: Context, opcode: nat, modrm: nat)
    requires ValidContext(c) && opcode < 256 && modrm < 256
    ensures var v := VectorOf(InputOf(c, opcode, modrm));
      && IsVector(v) && v[ROOT] == EscapeIndex(c) && v[TABLE256] == opcode && v[PREFIX] == MandatoryIndex(c)
      && v[TABLE16] == ModIndex(modrm) && v[TABLE8E] == modrm % 8 && v[VEX] == WideIndex(c)
  {
    VectorOfValid(InputOf(c, opcode, modrm));
  }

  /** From the entry after the prefix to the end, with the ModRM byte there. */
  lemma DescendRest(t: seq<seq<Entry>>, kinds: seq<int>, e: Entry, v: seq<nat>, buf: seq<nat>, off: nat)
    requires Reduced(t, kinds) && LiveRef(t, kinds, -1, e) && RankOf(e) >= TABLE16 && !Has(e, TABLE8E) && IsVector(v)
    requires Has(e, TABLE16) ==> off < |buf| && v[TABLE16] == ModIndex(buf[off]) && v[TABLE8E] == buf[off] % 8
    ensures Take(t, TakeModRM(t, e, buf, off), VEX, v[VEX]) == Walk(t, e, v)
  {
    var e5 := TakeModRM(t, e, buf, off);
    if Has(e, TABLE16) {
      TakeWalk(t, kinds, e, TABLE16, v);
      TakeWalk(t, kinds, Take(t, e, TABLE16, v[TABLE16]), TABLE8E, v);
    }
    TakeWalk(t, kinds, e5, VEX, v);
  }

  /** With opcode and ModRM byte present, the descent answers what the patterns select, and steps over the opcode byte. */
  lemma DescentComplete(t: seq<seq<Entry>>, kinds: seq<int>, root: Entry, ps: seq<Pattern>, r: nat, c: Context, buf: seq<nat>, off: nat)
    requires ValidPatterns(ps) && RootOf(t, kinds, root, ps, r) && ValidContext(c) && Bytes(buf) && off + 2 <= |buf|
    requires OpcodeByteMatters(ps, r, EscapeIndex(c))
    ensures var v := VectorOf(InputOf(c, buf[off], buf[off + 1]));
      && Descend(t, root, c, buf, off).0 == Answer(Selected(ps, r, v))
      && (Selected(ps, r, v).Instr? ==> Descend(t, root, c, buf, off).1 == off + 1)
  {
    var v := VectorOf(InputOf(c, buf[off], buf[off + 1]));
    ContextIndices(c, buf[off], buf[off + 1]);
    OpcodeTable(t, kinds, root, ps, r, EscapeIndex(c));
    UnusedTable(t, kinds, root, ps, r, EscapeIndex(c));
    ThirdWalk(t, kinds, root, v);
    ThirdNot8E(t, kinds, root, ps, r, v);
    DescendRest(t, kinds, Third(t, root, v), v, buf, off + 1);
    assert Walk(t, root, v) == Selected(ps, r, v);
    hide RootOf, Reduced, Walk, Selected, Distinguishes, VectorOf, IsVector, Unused, ValidPatterns, EscapeIndex, MandatoryIndex, WideIndex;
  }

  /** Without the ModRM byte, the descent stops short exactly if that byte makes a difference. */
  lemma DescentWithoutModRM(t: seq<seq<Entry>>, kinds: seq<int>, root: Entry, ps: seq<Pattern>, r: nat, c: Context,
      buf: seq<nat>, off: nat, modrm: nat)
    requires ValidPatterns(ps) && RootOf(t, kinds, root, ps, r) && ValidContext(c) && Bytes(buf) && off + 1 == |buf| && modrm < 256
    requires OpcodeByteMatters(ps, r, EscapeIndex(c))
    ensures var v := VectorOf(InputOf(c, buf[off], modrm)); var res := Descend(t, root, c, buf, off).0;
      && (res.Partial? <==> NeedsIndex(ps, r, v, TABLE16))
      && (!res.Partial? ==> res == Answer(Selected(ps, r, v)))
  {
    var v := VectorOf(InputOf(c, buf[off], modrm));
    ContextIndices(c, buf[off], modrm);
    OpcodeTable(t, kinds, root, ps, r, EscapeIndex(c));
    UnusedTable(t, kinds, root, ps, r, EscapeIndex(c));
    ThirdWalk(t, kinds, root, v);
    ThirdNot8E(t, kinds, root, ps, r, v);
    ModRMTable(t, kinds, root, ps, r, v);
    if !Has(Third(t, root, v), TABLE16) {
      DescendRest(t, kinds, Third(t, root, v), v, buf, off + 1);
    }
    assert Walk(t, root, v) == Selected(ps, r, v);
    hide RootOf, Reduced, Walk, Selected, NeedsIndex, Distinguishes, VectorOf, IsVector, Unused, ValidPatterns,
      EscapeIndex, MandatoryIndex, WideIndex;
  }

  /** Without the opcode byte, the descent stops short exactly if there is any instruction after this escape. */
  lemma DescentWithoutOpcode(t: seq<seq<Entry>>, kinds: seq<int>, root: Entry, ps: seq<Pattern>, r: nat, c: Context, buf: seq<nat>)
    requires ValidPatterns(ps) && RootOf(t, kinds, root, ps, r) && ValidContext(c) && Bytes(buf)
    requires OpcodeByteMatters(ps, r, EscapeIndex(c))
    ensures Descend(t, root, c, buf, |buf|) == (if Unused(ps, r, EscapeIndex(c)) then Undefined else Partial, |buf|)
  {
    OpcodeTable(t, kinds, root, ps, r, EscapeIndex(c));
    UnusedTable(t, kinds, root, ps, r, EscapeIndex(c));
  }

  // ----------------------------------------------- where the condition fails

  function InputFor(v: seq<nat>): Input
    requires |v| == 6
  {
    Input(v[0] % 4, v[0] >= 4, v[1], if v[2] >= 2 then v[2] else 0, v[2] == 1,
          (if v[3] >= 8 then 0xc0 else 0) + v[3] % 8 * 8 + v[4], v[5] % 2 == 1, v[5] / 2 == 1)
  }

  lemma InputForVector(v: seq<nat>)
    requires IsVector(v)
    ensures ValidInput(InputFor(v)) && VectorOf(InputFor(v)) == v
  {
    assert v[0] < 8 && v[1] < 256 && v[2] < 4 && v[3] < 16 && v[4] < 8 && v[5] < 4 by {
      assert v[ROOT] < TableLength(ROOT) && v[TABLE256] < TableLength(TABLE256) && v[PREFIX] < TableLength(PREFIX);
      assert v[TABLE16] < TableLength(TABLE16) && v[TABLE8E] < TableLength(TABLE8E) && v[VEX] < TableLength(VEX);
    }
    var m := InputFor(v).modrm;
    assert m / 8 == (if v[3] >= 8 then 24 else 0) + v[3] % 8;
    assert m / 64 == if v[3] >= 8 then 3 else 0;
    var w := VectorOf(InputFor(v));
    assert w[0] == v[0] && w[1] == v[1] && w[2] == v[2] && w[3] == v[3] && w[4] == v[4] && w[5] == v[5];
  }

  lemma ContextFor(w: seq<nat>) returns (c: Context, buf: seq<nat>)
    requires IsVector(w)
    ensures ValidContext(c) && EscapeIndex(c) == w[ROOT] && Bytes(buf) && |buf| == 2
    ensures VectorOf(InputOf(c, buf[0], buf[1])) == w
  {
    InputForVector(w);
    var x := InputFor(w);
    c := Context(x.escape, x.vex, x.rep, x.opsize, x.w, x.l);
    buf := [x.opcode, x.modrm];
    assert InputOf(c, buf[0], buf[1]) == x;
    hide IsVector, TableLength;
  }

  lemma InUse(ps: seq<Pattern>, r: nat, escape: nat) returns (w: seq<nat>)
    requires ValidPatterns(ps) && !Unused(ps, r, escape)
    ensures IsVector(w) && w[ROOT] == escape && Selected(ps, r, w).Instr?
  {
    hide LastMatch;
    w :| IsVector(w) && w[ROOT] == escape && Selected(ps, r, w) != Empty;
  }

  /** If the opcode byte makes no difference after an escape in use, some instruction is decoded without stepping over it. */
  lemma DescentStays(t: seq<seq<Entry>>, kinds: seq<int>, root: Entry, ps: seq<Pattern>, r: nat,
      c: Context) returns (c': Context, buf: seq<nat>)
    requires ValidPatterns(ps) && RootOf(t, kinds, root, ps, r) && ValidContext(c)
    requires !OpcodeByteMatters(ps, r, EscapeIndex(c))
    ensures ValidContext(c') && EscapeIndex(c') == EscapeIndex(c) && Bytes(buf) && |buf| == 2
    ensures Selected(ps, r, VectorOf(InputOf(c', buf[0], buf[1]))).Instr? && Descend(t, root, c', buf, 0).1 == 0
  {
    OpcodeTable(t, kinds, root, ps, r, EscapeIndex(c));
    assert !Unused(ps, r, EscapeIndex(c)) && !Has(Take(t, root, ROOT, EscapeIndex(c)), TABLE256);
    hide *;
    var w := InUse(ps, r, EscapeIndex(c));
    c', buf := ContextFor(w);
    StaysPut(t, root, c', buf);
  }

  lemma StaysPut(t: seq<seq<Entry>>, root: Entry, c: Context, buf: seq<nat>)
    requires !Has(Take(t, root, ROOT, EscapeIndex(c)), TABLE256)
    ensures Descend(t, root, c, buf, 0).1 == 0
  {
    hide Take, TakeModRM, Answer;
  }
}
