/**
 * Packing the reduced trie into one array of 16-bit words.
 */
module TriePack {
  import opened Options
  import opened OpcodeTrie
  import opened TrieCanonical

  /**
   * The tag of each kind in the low three bits of a word. ROOT, whose number has no bits there, is never
   * put into a word: root tables are reached through their offsets.
   */
  function Code(kind: Kind): nat {
    match kind
    case 0 => 7
    case 1 => 2
    case 2 => 5
    case 3 => 3
    case 4 => 4
    case _ => 6
  }

  /** Length of a row rounded up to a multiple of four; nothing for a removed row. */
  function Padded(row: seq<Entry>): nat {
    (|row| + 3) / 4 * 4
  }

  /** Where table `n` starts: behind all earlier tables except table 0. */
  ghost function Base(t: seq<seq<Entry>>, n: nat): nat
    requires n <= |t|
  {
    if n <= 1 then 0 else Base(t, n - 1) + Padded(t[n - 1])
  }

  lemma {:induction false} BaseMonotone(t: seq<seq<Entry>>, n: nat, m: nat)
    requires 1 <= n < m <= |t|
    ensures Base(t, n) + Padded(t[n]) <= Base(t, m)
    decreases m
  {
    if n < m - 1 {
      BaseMonotone(t, n, m - 1);
    }
  }

  lemma {:induction false} BaseAligned(t: seq<seq<Entry>>, n: nat)
    requires n <= |t|
    ensures Base(t, n) % 4 == 0
  {
    if n > 1 {
      BaseAligned(t, n - 1);
    }
  }

  /** The number stored for an entry. */
  ghost function Word(t: seq<seq<Entry>>, e: Entry): nat
    requires e.Table? ==> e.num < |t|
  {
    match e
    case Empty => 0
    case Instr(desc, _) => desc * 8 + 1
    case Table(kind, num) => Base(t, num) * 2 + Code(kind)
  }

  /** The words of table `n` stand at its place. */
  ghost predicate RowPacked(t: seq<seq<Entry>>, data: seq<nat>, n: nat)
    requires n < |t|
  {
    && Base(t, n) + |t[n]| <= |data|
    && forall i :: 0 <= i < |t[n]| ==> (t[n][i].Table? ==> t[n][i].num < |t|) && data[Base(t, n) + i] == Word(t, t[n][i])
  }

  ghost predicate Packed(t: seq<seq<Entry>>, kinds: seq<int>, data: seq<nat>) {
    && Reduced(t, kinds)
    && |data| == Base(t, |t|) < 0x8000
    && forall n: nat :: Live(t, n) ==> RowPacked(t, data, n)
  }

  /** What a table lookup gives for entry `e`: the tag, and the offset or the descriptor number times four. */
  ghost predicate Encodes(t: seq<seq<Entry>>, e: Entry, value: nat, tag: nat)
    requires e.Table? ==> e.num < |t|
  {
    match e
    case Empty => tag == 0
    case Instr(desc, _) => tag == 1 && value == desc % 0x2000 * 4
    case Table(kind, num) => tag == Code(kind) && value == Base(t, num)
  }

  lemma Truncated(desc: nat)
    ensures (desc * 8 + 1) % 0x10000 == desc % 0x2000 * 8 + 1
  {
    var q, r := desc / 0x2000, desc % 0x2000;
    assert desc * 8 + 1 == 0x10000 * q + (8 * r + 1);
  }

  function TagOf(entry: nat): nat { entry % 8 }

  /** The upper bits, shifted right by one: a multiple of four. */
  function ValueOf(entry: nat): nat { entry / 8 * 4 }

  lemma SplitWord(b: nat, c: nat)
    requires c < 8
    ensures TagOf(8 * b + c) == c && ValueOf(8 * b + c) == 4 * b
  {
  }

  /** Splitting a stored word undoes the packing; descriptor numbers survive modulo 0x2000. */
  lemma WordDecodes(t: seq<seq<Entry>>, e: Entry)
    requires e.Table? ==> 1 <= e.num < |t| && Base(t, |t|) < 0x8000 && t[e.num] != []
    ensures var entry := Word(t, e) % 0x10000; Encodes(t, e, ValueOf(entry), TagOf(entry))
  {
    match e
    case Empty =>
    case Instr(desc, _) =>
      hide TagOf, ValueOf;
      InstrWord(desc);
    case Table(kind, num) =>
      BaseAligned(t, num);
      BaseMonotone(t, num, |t|);
      hide Base, TagOf, ValueOf;
      TableWord(Base(t, num), Code(kind));
  }

  lemma InstrWord(desc: nat)
    ensures var entry := (desc * 8 + 1) % 0x10000; ValueOf(entry) == desc % 0x2000 * 4 && TagOf(entry) == 1
  {
    hide TagOf, ValueOf;
    Truncated(desc);
    SplitWord(desc % 0x2000, 1);
  }

  lemma TableWord(base: nat, c: nat)
    requires base % 4 == 0 && base < 0x8000 && c < 8
    ensures var entry := (base * 2 + c) % 0x10000; ValueOf(entry) == base && TagOf(entry) == c
  {
    hide TagOf, ValueOf;
    SplitWord(base / 4, c);
  }

  // ---------------------------------------------------------------- compile

  /** What the generator gets from packing: an error, or the words and the offset of each root. */
  datatype CompileResult =
    | TooLarge
    | EmptyRoot
    | Compiled(data: seq<nat>, roots: seq<Option<nat>>)

  ghost function OffsetOf(t: seq<seq<Entry>>, n: nat): Option<nat>
    requires n < |t|
  {
    if Live(t, n) then Some(Base(t, n)) else None
  }

  ghost predicate CompiledFrom(t: seq<seq<Entry>>, kinds: seq<int>, res: CompileResult)
    requires |t| > 0
  {
    && (res.TooLarge? <==> Base(t, |t|) >= 0x8000)
    && (res.EmptyRoot? <==> !res.TooLarge? && Empty in t[0])
    && (res.Compiled? ==>
          && Packed(t, kinds, res.data) && |res.roots| == |t[0]|
          && forall r :: 0 <= r < |t[0]| ==> t[0][r].Table? && t[0][r].num < |t| && res.roots[r] == OffsetOf(t, t[0][r].num))
  }

  method CompileTables(t: seq<seq<Entry>>, ghost kinds: seq<int>) returns (res: CompileResult)
    requires Reduced(t, kinds)
    requires forall r :: 0 <= r < |t[0]| ==> t[0][r].Empty? || (t[0][r].Table? && t[0][r].num < |t|)
    ensures CompiledFrom(t, kinds, res)
  {
    var offsets, last := Layout(t);
    if last >= 0x8000 {
      return TooLarge;
    }
    var data := Fill(t, kinds, offsets, last);
    if Empty in t[0] {
      return EmptyRoot;
    }
    var roots := [];
    for r := 0 to |t[0]|
      invariant |roots| == r
      invariant forall i :: 0 <= i < r ==> t[0][i].Table? && t[0][i].num < |t| && roots[i] == OffsetOf(t, t[0][i].num)
    {
      assert t[0][r] in t[0];
      roots := roots + [offsets[t[0][r].num]];
    }
    return Compiled(data, roots);
  }

  /** Assign an offset to each kept table. */
  method Layout(t: seq<seq<Entry>>) returns (offsets: seq<Option<nat>>, last: nat)
    requires |t| > 0
    ensures Offsets(t, offsets) && last == Base(t, |t|)
  {
    offsets := seq(|t|, _ => None);
    last := 0;
    for num := 1 to |t|
      invariant |offsets| == |t| && last == Base(t, num)
      invariant forall n: nat :: n < num ==> offsets[n] == OffsetOf(t, n)
      invariant forall n: nat :: num <= n < |t| ==> offsets[n] == None
    {
      if t[num] != [] {
        offsets := offsets[num := Some(last)];
        last := last + (|t[num]| + 3) / 4 * 4;
      }
    }
  }

  /** All kept tables before `num` are written. */
  ghost predicate RowsPacked(t: seq<seq<Entry>>, data: seq<nat>, num: nat)
    requires num <= |t|
  {
    forall n: nat :: n < num && Live(t, n) ==> RowPacked(t, data, n)
  }

  ghost predicate SameBelow(data: seq<nat>, data': seq<nat>, base: nat) {
    |data'| == |data| && forall j :: 0 <= j < |data| && j < base ==> data'[j] == data[j]
  }

  ghost predicate ZeroFrom(data: seq<nat>, base: nat) {
    forall j :: base <= j < |data| ==> data[j] == 0
  }

  ghost predicate Offsets(t: seq<seq<Entry>>, offsets: seq<Option<nat>>) {
    |offsets| == |t| && forall n: nat :: n < |t| ==> offsets[n] == OffsetOf(t, n)
  }

  /** Writing behind the start of table `num` keeps the tables before it. */
  lemma RowsKept(t: seq<seq<Entry>>, data: seq<nat>, data': seq<nat>, num: nat)
    requires 1 <= num < |t| && SameBelow(data, data', Base(t, num)) && RowsPacked(t, data, num)
    ensures RowsPacked(t, data', num)
  {
    forall n: nat | n < num && Live(t, n) ensures RowPacked(t, data', n) {
      BaseMonotone(t, n, num);
      assert RowPacked(t, data, n);
      hide Base, Word;
    }
  }

  lemma RowsMore(t: seq<seq<Entry>>, data: seq<nat>, num: nat)
    requires num < |t| && RowsPacked(t, data, num) && (Live(t, num) ==> RowPacked(t, data, num))
    ensures RowsPacked(t, data, num + 1)
  {
    hide RowPacked, Live;
  }

  lemma ZeroMore(data: seq<nat>, data': seq<nat>, base: nat, n: nat, base': nat)
    requires ZeroFrom(data, base) && OnlyAt(data, data', base, n) && base + n <= base'
    ensures ZeroFrom(data', base')
  {
  }

  ghost predicate OnlyAt(data: seq<nat>, data': seq<nat>, base: nat, n: nat) {
    |data'| == |data| && forall j :: 0 <= j < |data| && !(base <= j < base + n) ==> data'[j] == data[j]
  }

  /** Write the words of all kept tables. */
  method Fill(t: seq<seq<Entry>>, ghost kinds: seq<int>, offsets: seq<Option<nat>>, size: nat) returns (data: seq<nat>)
    requires |t| > 0 && Reduced(t, kinds) && Offsets(t, offsets) && size == Base(t, |t|) < 0x8000
    ensures Packed(t, kinds, data)
  {
    hide Reduced, RowPacked, RowsPacked, ZeroFrom, OnlyAt, SameBelow;
    data := seq(size, _ => 0);
    AllZero(data);
    NoRows(t, data);
    for num := 1 to |t|
      invariant |data| == size && RowsPacked(t, data, num) && ZeroFrom(data, Base(t, num))
    {
      ghost var before := data;
      assert offsets[num] == OffsetOf(t, num);
      if offsets[num].None? {
        RowsMore(t, data, num);
        Untouched(data, Base(t, num));
        ZeroMore(data, data, Base(t, num), 0, Base(t, num + 1));
        continue;
      }
      data := FillTable(t, kinds, offsets, num, data);
      Lower(before, data, Base(t, num), |t[num]|);
      RowsKept(t, before, data, num);
      RowsMore(t, data, num);
      ZeroMore(before, data, Base(t, num), |t[num]|, Base(t, num + 1));
    }
    AllRows(t, data);
  }

  lemma AllZero(data: seq<nat>)
    requires forall j :: 0 <= j < |data| ==> data[j] == 0
    ensures ZeroFrom(data, 0)
  {
  }

  lemma NoRows(t: seq<seq<Entry>>, data: seq<nat>)
    requires |t| > 0
    ensures RowsPacked(t, data, 1)
  {
  }

  lemma AllRows(t: seq<seq<Entry>>, data: seq<nat>)
    requires RowsPacked(t, data, |t|)
    ensures forall n: nat :: Live(t, n) ==> RowPacked(t, data, n)
  {
    hide RowPacked;
  }

  lemma Untouched(data: seq<nat>, base: nat)
    ensures OnlyAt(data, data, base, 0)
  {
  }

  lemma Lower(data: seq<nat>, data': seq<nat>, base: nat, n: nat)
    requires OnlyAt(data, data', base, n)
    ensures |data'| == |data| && SameBelow(data, data', base)
  {
  }

  /** The words of the first `k` entries of a table stand at its place. */
  ghost predicate Started(t: seq<seq<Entry>>, data: seq<nat>, n: nat, off: nat, k: nat)
    requires n < |t|
  {
    && k <= |t[n]| && off + |t[n]| <= |data|
    && forall i :: 0 <= i < k ==> (t[n][i].Table? ==> t[n][i].num < |t|) && data[off + i] == Word(t, t[n][i])
  }

  lemma OneMore(t: seq<seq<Entry>>, before: seq<nat>, data: seq<nat>, data': seq<nat>, n: nat, off: nat, k: nat)
    requires n < |t| && k < |t[n]| && Started(t, data, n, off, k) && OnlyAt(before, data, off, k)
    requires OnlyAt(data, data', off + k, 1)
    requires (t[n][k].Table? ==> t[n][k].num < |t|) && data'[off + k] == Word(t, t[n][k])
    ensures Started(t, data', n, off, k + 1) && OnlyAt(before, data', off, k + 1)
  {
    hide Word;
  }

  lemma RefLive(t: seq<seq<Entry>>, kinds: seq<int>, n: nat, i: nat)
    requires Reduced(t, kinds) && Live(t, n) && i < |t[n]|
    ensures t[n][i].Table? ==> Live(t, t[n][i].num)
  {
    assert LiveRef(t, kinds, kinds[n], t[n][i]);
  }

  /** Write the words of one table, from its offset on. */
  method FillTable(t: seq<seq<Entry>>, ghost kinds: seq<int>, offsets: seq<Option<nat>>, num: nat, data: seq<nat>) returns (data': seq<nat>)
    requires Reduced(t, kinds) && Offsets(t, offsets) && Live(t, num) && |data| == Base(t, |t|)
    requires ZeroFrom(data, Base(t, num))
    ensures RowPacked(t, data', num) && OnlyAt(data, data', Base(t, num), |t[num]|)
  {
    BaseMonotone(t, num, |t|);
    hide Base, Reduced, Started, OnlyAt, ZeroFrom;
    var off := offsets[num].value;
    data' := data;
    Untouched(data, off);
    Begun(t, data, num, off);
    for i := 0 to |t[num]|
      invariant |data'| == |data| && Started(t, data', num, off, i) && OnlyAt(data, data', off, i)
    {
      var e := t[num][i];
      RefLive(t, kinds, num, i);
      ghost var before := data';
      StillZero(data, data', off, i);
      if e.Instr? {
        data' := data'[off + i := e.desc * 4 * 2 + 1];
      } else if e.Table? {
        data' := data'[off + i := offsets[e.num].value * 2 + Code(e.kind)];
      }
      OneWritten(before, data', off + i);
      OneMore(t, data, before, data', num, off, i);
    }
    Finished(t, data', num, off);
  }

  lemma Begun(t: seq<seq<Entry>>, data: seq<nat>, n: nat, off: nat)
    requires n < |t| && off + |t[n]| <= |data|
    ensures Started(t, data, n, off, 0)
  {
  }

  lemma Finished(t: seq<seq<Entry>>, data: seq<nat>, n: nat, off: nat)
    requires n < |t| && Started(t, data, n, off, |t[n]|) && off == Base(t, n)
    ensures RowPacked(t, data, n)
  {
    hide Word, Base;
  }

  lemma StillZero(data: seq<nat>, data': seq<nat>, off: nat, i: nat)
    requires ZeroFrom(data, off) && OnlyAt(data, data', off, i) && off + i < |data|
    ensures data'[off + i] == 0
  {
  }

  lemma OneWritten(data: seq<nat>, data': seq<nat>, at: nat)
    requires at < |data| == |data'| && data' == data[at := data'[at]]
    ensures OnlyAt(data, data', at, 1)
  {
  }
}
