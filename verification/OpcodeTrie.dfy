/**
 * The decoder generator's decision trie: tables of entries, the walk that
 * reads one index per table kind, and the meaning of a list of opcode patterns.
 */
module OpcodeTrie {
  import opened Options

  /** A table kind, written as its position in KIND_ORDER. */
  type Kind = k: int | 0 <= k < 6

  const ROOT: Kind := 0
  const TABLE256: Kind := 1
  const PREFIX: Kind := 2
  const TABLE16: Kind := 3
  const TABLE8E: Kind := 4
  const VEX: Kind := 5

  function TableLength(kind: Kind): nat {
    match kind
    case 0 => 8
    case 1 => 256
    case 2 => 4
    case 3 => 16
    case 4 => 8
    case _ => 4
  }

  /** An entry of a table: nothing, an instruction (strong or weak), or a sub-table. */
  datatype Entry = Empty | Instr(desc: nat, weak: bool) | Table(kind: Kind, num: nat)

  /** A slot of the trie: table number and index into that table. */
  type Slot = (nat, nat)

  /** One index for each kind; this is all that the decoder can look at. */
  ghost predicate IsVector(v: seq<nat>) {
    && |v| == 6
    && forall k: Kind :: v[k] < TableLength(k)
  }

  predicate InRange(tables: seq<seq<Entry>>, s: Slot) {
    s.0 < |tables| && s.1 < |tables[s.0]|
  }

  function At(tables: seq<seq<Entry>>, s: Slot): Entry
    requires InRange(tables, s)
  {
    tables[s.0][s.1]
  }

  /** The rank that every table below `e` must exceed; entries that are not tables rank last. */
  function RankOf(e: Entry): nat {
    if e.Table? then e.kind else 6
  }

  /**
   * Follow the indices of `v` from entry `e` down to an instruction or to nothing.
   * References that do not lead to a table of a later kind count as nothing.
   */
  function Walk(tables: seq<seq<Entry>>, e: Entry, v: seq<nat>): Entry
    requires |v| == 6
    decreases 6 - RankOf(e)
  {
    if !e.Table? then e
    else if e.num < |tables| && v[e.kind] < |tables[e.num]| && RankOf(tables[e.num][v[e.kind]]) > e.kind then
      Walk(tables, tables[e.num][v[e.kind]], v)
    else Empty
  }

  // ---------------------------------------------------------------- patterns

  /** What one call of add_opcode asks for: the index lists of _transform_opcode (None: any index). */
  datatype Pattern = Pattern(root: nat, elems: seq<Option<seq<nat>>>, desc: nat, weak: bool)

  ghost predicate ValidElem(elem: Option<seq<nat>>, kind: Kind) {
    elem.Some? ==>
      && (forall i :: 0 <= i < |elem.value| ==> elem.value[i] < TableLength(kind))
      && (forall i, j :: 0 <= i < j < |elem.value| ==> elem.value[i] != elem.value[j])
      && |elem.value| > 0
  }

  ghost predicate ValidElems(elems: seq<Option<seq<nat>>>) {
    && |elems| == 6
    && elems[ROOT].Some?
    && (forall k: Kind :: ValidElem(elems[k], k))
    // TABLE8E indices only come with opcodes in the register half of TABLE16.
    && (elems[TABLE8E].Some? ==> elems[TABLE16].Some? && forall x :: x in elems[TABLE16].value ==> x >= 8)
  }

  ghost predicate ElemMatches(elem: Option<seq<nat>>, x: nat) {
    elem.Some? ==> x in elem.value
  }

  ghost predicate MatchesUpTo(elems: seq<Option<seq<nat>>>, v: seq<nat>, stage: nat)
    requires |elems| == 6 && |v| == 6 && stage <= 6
  {
    forall k: Kind :: k < stage ==> ElemMatches(elems[k], v[k])
  }

  ghost predicate Matches(p: Pattern, root: nat, v: seq<nat>)
    requires |p.elems| == 6 && |v| == 6
  {
    p.root == root && MatchesUpTo(p.elems, v, 6)
  }

  ghost predicate ValidPatterns(ps: seq<Pattern>) {
    forall i :: 0 <= i < |ps| ==> ValidElems(ps[i].elems)
  }

  /** Index of the last pattern of the given strength that matches. */
  ghost function LastMatch(ps: seq<Pattern>, root: nat, v: seq<nat>, weak: bool): (r: Option<nat>)
    requires ValidPatterns(ps) && |v| == 6
    ensures r.Some? ==> r.value < |ps| && ps[r.value].weak == weak && Matches(ps[r.value], root, v)
    ensures r.Some? ==> forall i :: r.value < i < |ps| && ps[i].weak == weak ==> !Matches(ps[i], root, v)
    ensures r.None? ==> forall i :: 0 <= i < |ps| && ps[i].weak == weak ==> !Matches(ps[i], root, v)
  {
    if ps == [] then None
    else if ps[|ps| - 1].weak == weak && Matches(ps[|ps| - 1], root, v) then Some(|ps| - 1)
    else LastMatch(ps[..|ps| - 1], root, v, weak)
  }

  /** The meaning of a pattern list: a matching strong pattern, else the last matching weak one, else nothing. */
  ghost function Selected(ps: seq<Pattern>, root: nat, v: seq<nat>): Entry
    requires ValidPatterns(ps) && |v| == 6
  {
    match LastMatch(ps, root, v, false)
    case Some(i) => Instr(ps[i].desc, false)
    case None =>
      match LastMatch(ps, root, v, true)
      case Some(i) => Instr(ps[i].desc, true)
      case None => Empty
  }

  /** Two strong patterns that some index vector satisfies both of. */
  ghost predicate Conflict(p: Pattern, q: Pattern)
    requires |p.elems| == 6 && |q.elems| == 6
  {
    && !p.weak && !q.weak
    && exists v: seq<nat> :: IsVector(v) && Matches(p, p.root, v) && Matches(q, p.root, v)
  }
}
