/**
 * The decoder's descent through the packed table, and why it finds the
 * instruction that the opcode patterns select.
 */
module DecodeWalk {
  import opened OpcodeTrie
  import opened Opcodes
  import opened TrieCanonical
  import opened TriePack

  datatype Outcome = Found(desc: nat) | Undefined | Partial

  /** What the decoder knows before the descent, apart from the bytes. */
  datatype Context = Context(escape: nat, vex: bool, rep: nat, opsize: bool, w: bool, l: bool)

  predicate ValidContext(c: Context) {
    c.escape < 4 && c.rep in {0, 2, 3}
  }

  predicate Bytes(buf: seq<nat>) {
    forall i :: 0 <= i < |buf| ==> buf[i] < 256
  }

  function InputOf(c: Context, opcode: nat, modrm: nat): Input {
    Input(c.escape, c.vex, opcode, c.rep, c.opsize, modrm, c.w, c.l)
  }

  function EscapeIndex(c: Context): nat { c.escape + if c.vex then 4 else 0 }

  function MandatoryIndex(c: Context): nat { if c.rep != 0 then c.rep else if c.opsize then 1 else 0 }

  function WideIndex(c: Context): nat { (if c.w then 1 else 0) + (if c.l then 2 else 0) }

  /** The outcome for the entry at which the descent ends. */
  ghost function Answer(e: Entry): Outcome {
    match e
    case Empty => Undefined
    case Instr(desc, _) => Found(desc % 0x2000)
    case Table(_, _) => Partial
  }

  predicate Has(e: Entry, kind: Kind) {
    e.Table? && e.kind == kind
  }

  /** Take index `i` if the entry is a table of this kind, and stay otherwise. */
  ghost function Take(t: seq<seq<Entry>>, e: Entry, kind: Kind, i: nat): Entry {
    if Has(e, kind) && e.num < |t| && i < |t[e.num]| then t[e.num][i] else e
  }

  lemma TakeLive(t: seq<seq<Entry>>, kinds: seq<int>, e: Entry, kind: Kind, i: nat)
    requires Reduced(t, kinds) && LiveRef(t, kinds, -1, e) && i < TableLength(kind)
    ensures LiveRef(t, kinds, -1, Take(t, e, kind, i))
    ensures RankOf(e) >= kind ==> RankOf(Take(t, e, kind, i)) > kind
  {
    if Has(e, kind) {
      assert LiveRef(t, kinds, kinds[e.num], t[e.num][i]);
    }
  }

  /** The entry after the opcode byte, if it is needed and there, and the offset behind it. */
  ghost function TakeOpcode(t: seq<seq<Entry>>, e: Entry, buf: seq<nat>, off: nat): (Entry, nat) {
    if Has(e, TABLE256) && off < |buf| then (Take(t, e, TABLE256, buf[off]), off + 1) else (e, off)
  }

  /** The entry after the ModRM byte, if it is needed and there. */
  ghost function TakeModRM(t: seq<seq<Entry>>, e: Entry, buf: seq<nat>, off: nat): Entry {
    if Has(e, TABLE16) && off < |buf| then
      Take(t, Take(t, e, TABLE16, ModIndex(buf[off])), TABLE8E, buf[off] % 8)
    else e
  }

  /** The descent, on the trie: kinds in order, bytes only as far as they are there. */
  ghost function Descend(t: seq<seq<Entry>>, root: Entry, c: Context, buf: seq<nat>, off: nat): (Outcome, nat) {
    var (e, off2) := TakeOpcode(t, Take(t, root, ROOT, EscapeIndex(c)), buf, off);
    (Answer(Take(t, TakeModRM(t, Take(t, e, PREFIX, MandatoryIndex(c)), buf, off2), VEX, WideIndex(c))), off2)
  }

  // ------------------------------------------------------------ the C code

  /** The array in the generated file: each number is cut to 16 bits. */
  ghost predicate Stored(data: seq<nat>, table: seq<nat>) {
    |table| == |data| && forall i :: 0 <= i < |data| ==> table[i] == data[i] % 0x10000
  }

  ghost predicate Represents(t: seq<seq<Entry>>, kinds: seq<int>, e: Entry, value: nat, tag: nat) {
    LiveRef(t, kinds, -1, e) && Encodes(t, e, value, tag)
  }

  /** Each word of the table, taken apart, represents the entry it was made from. */
  ghost predicate Loaded(t: seq<seq<Entry>>, kinds: seq<int>, table: seq<nat>) {
    && Reduced(t, kinds)
    && forall n: nat, i: nat :: Live(t, n) && i < |t[n]| ==> WordLoaded(t, kinds, table, Base(t, n) + i, t[n][i])
  }

  ghost predicate WordLoaded(t: seq<seq<Entry>>, kinds: seq<int>, table: seq<nat>, at: nat, e: Entry) {
    at < |table| && Represents(t, kinds, e, ValueOf(table[at]), TagOf(table[at]))
  }

  /** table_walk: a lookup of the word that was made from entry `e` represents that entry. */
  method TableWalk(table: seq<nat>, cur: nat, index: nat, ghost t: seq<seq<Entry>>, ghost kinds: seq<int>, ghost e: Entry)
    returns (value: nat, tag: nat)
    requires WordLoaded(t, kinds, table, cur + index, e)
    ensures Represents(t, kinds, e, value, tag)
  {
    var entry := table[cur + index];
    tag := entry % 8;
    value := (entry / 8 * 8) / 2;
    hide Represents;
    assert tag == TagOf(entry) && value == ValueOf(entry);
  }

  lemma StoredIsLoaded(t: seq<seq<Entry>>, kinds: seq<int>, data: seq<nat>, table: seq<nat>)
    requires Packed(t, kinds, data) && Stored(data, table)
    ensures Loaded(t, kinds, table)
  {
    hide WordLoaded, Stored, RowPacked, LiveRef, Base;
    forall n: nat, i: nat | Live(t, n) && i < |t[n]| ensures WordLoaded(t, kinds, table, Base(t, n) + i, t[n][i]) {
      assert RowPacked(t, data, n) && LiveRef(t, kinds, kinds[n], t[n][i]);
      WordStored(t, kinds, data, table, n, i);
    }
  }

  lemma WordStored(t: seq<seq<Entry>>, kinds: seq<int>, data: seq<nat>, table: seq<nat>, n: nat, i: nat)
    requires n < |t| == |kinds| && i < |t[n]| && RowPacked(t, data, n) && Stored(data, table) && Base(t, |t|) < 0x8000
    requires LiveRef(t, kinds, kinds[n], t[n][i]) && kinds[n] >= -1
    ensures WordLoaded(t, kinds, table, Base(t, n) + i, t[n][i])
  {
    hide Base, Word, Encodes, ValueOf, TagOf;
    WordDecodes(t, t[n][i]);
  }

  /** A lookup below a represented table yields the represented child. */
  lemma LookupChild(t: seq<seq<Entry>>, kinds: seq<int>, table: seq<nat>, e: Entry, i: nat)
    requires Loaded(t, kinds, table) && LiveRef(t, kinds, -1, e) && e.Table? && i < TableLength(e.kind)
    ensures WordLoaded(t, kinds, table, Base(t, e.num) + i, Take(t, e, e.kind, i))
  {
  }

  /** The tag says whether the entry is a table of a kind. */
  lemma TagTells(t: seq<seq<Entry>>, kinds: seq<int>, e: Entry, value: nat, tag: nat, kind: Kind)
    requires Represents(t, kinds, e, value, tag)
    ensures LiveRef(t, kinds, -1, e) && (tag == Code(kind) <==> Has(e, kind))
    ensures Has(e, kind) ==> e.num < |t| && value == Base(t, e.num)
  {
    hide Base;
  }

  method Step(table: seq<nat>, value: nat, tag: nat, kind: Kind, index: nat,
              ghost t: seq<seq<Entry>>, ghost kinds: seq<int>, ghost e: Entry)
    returns (value': nat, tag': nat)
    requires Loaded(t, kinds, table) && index < TableLength(kind)
    requires Represents(t, kinds, e, value, tag)
    ensures Represents(t, kinds, Take(t, e, kind, index), value', tag')
  {
    value', tag' := value, tag;
    TagTells(t, kinds, e, value, tag, kind);
    hide Loaded, Represents, Base, Code, LiveRef, TableLength;
    if tag == Code(kind) {
      LookupChild(t, kinds, table, e, index);
      value', tag' := TableWalk(table, value, index, t, kinds, Take(t, e, kind, index));
    }
  }

  /** The table part of fd_decode. */
  method DecodeTable(table: seq<nat>, tableIdx: nat, c: Context, buf: seq<nat>, start: nat,
                     ghost t: seq<seq<Entry>>, ghost kinds: seq<int>, ghost root: Entry)
    returns (res: Outcome, off: nat)
    requires Loaded(t, kinds, table)
    requires LiveRef(t, kinds, -1, root) && Has(root, ROOT) && tableIdx == Base(t, root.num)
    requires ValidContext(c) && Bytes(buf)
    ensures (res, off) == Descend(t, root, c, buf, start)
  {
    LookupChild(t, kinds, table, root, EscapeIndex(c));
    IndicesInRange(c);
    hide Loaded, Base, Take, TakeOpcode, TakeModRM, Answer, Represents, WordLoaded, LiveRef, Has, EscapeIndex, MandatoryIndex, WideIndex;
    ghost var e := Take(t, root, ROOT, EscapeIndex(c));
    var value, tag := TableWalk(table, tableIdx, EscapeIndex(c), t, kinds, e);
    value, tag, off := DecodeOpcode(table, value, tag, buf, start, t, kinds, e);
    ghost var o := TakeOpcode(t, e, buf, start);
    value, tag := Step(table, value, tag, PREFIX, MandatoryIndex(c), t, kinds, o.0);
    e := Take(t, o.0, PREFIX, MandatoryIndex(c));
    value, tag := DecodeModRM(table, value, tag, buf, off, t, kinds, e);
    e := TakeModRM(t, e, buf, off);
    value, tag := Step(table, value, tag, VEX, WideIndex(c), t, kinds, e);
    res := Conclude(value, tag, t, kinds, Take(t, e, VEX, WideIndex(c)));
  }

  lemma IndicesInRange(c: Context)
    requires ValidContext(c)
    ensures EscapeIndex(c) < TableLength(ROOT) && MandatoryIndex(c) < TableLength(PREFIX) && WideIndex(c) < TableLength(VEX)
  {
  }

  method Conclude(value: nat, tag: nat, ghost t: seq<seq<Entry>>, ghost kinds: seq<int>, ghost e: Entry) returns (res: Outcome)
    requires Represents(t, kinds, e, value, tag)
    ensures res == Answer(e)
  {
    if tag != 1 {
      return if tag == 0 then Undefined else Partial;
    }
    return Found(value / 4);
  }

  /** The opcode byte. */
  method DecodeOpcode(table: seq<nat>, value: nat, tag: nat, buf: seq<nat>, off: nat,
                      ghost t: seq<seq<Entry>>, ghost kinds: seq<int>, ghost e: Entry)
    returns (value': nat, tag': nat, off': nat)
    requires Loaded(t, kinds, table) && Bytes(buf)
    requires Represents(t, kinds, e, value, tag)
    ensures Represents(t, kinds, TakeOpcode(t, e, buf, off).0, value', tag')
    ensures off' == TakeOpcode(t, e, buf, off).1
  {
    value', tag', off' := value, tag, off;
    if tag == 2 && off < |buf| {
      value', tag' := Step(table, value, tag, TABLE256, buf[off], t, kinds, e);
      off' := off + 1;
    }
  }

  /** The opcode extension in the ModRM byte. */
  method DecodeModRM(table: seq<nat>, value: nat, tag: nat, buf: seq<nat>, off: nat,
                     ghost t: seq<seq<Entry>>, ghost kinds: seq<int>, ghost e: Entry)
    returns (value': nat, tag': nat)
    requires Loaded(t, kinds, table) && Bytes(buf)
    requires Represents(t, kinds, e, value, tag)
    ensures Represents(t, kinds, TakeModRM(t, e, buf, off), value', tag')
  {
    value', tag' := value, tag;
    if tag == 3 && off < |buf| {
      value', tag' := Step(table, value', tag', TABLE16, ModIndex(buf[off]), t, kinds, e);
      value', tag' := Step(table, value', tag', TABLE8E, buf[off] % 8, t, kinds, Take(t, e, TABLE16, ModIndex(buf[off])));
    }
  }
}
