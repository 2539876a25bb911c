/**
 * A small IR for the functions whose calling convention ChangeCallConv
 * changes: accesses to the CPU struct with known offsets, other computations,
 * calls and returns. Blocks run instruction by instruction; what lies outside
 * the function is a World.
 */
module PromoteIR {

  /** Bytes, both of an SSA value and of the CPU struct. */
  type Value = seq<int>

  /** A part of the CPU struct that is passed in a register. */
  datatype Field = Field(off: nat, size: nat)

  /** Where a value comes from. All but Ssa appear only in the converted function. */
  datatype Src =
    | Ssa(name: nat)
    | Param(field: nat)
    | Result(block: nat, field: nat)   // of the call in that block
    | Phi(block: nat, field: nat)
    | Reload(field: nat)               // a load from the struct in front of the call or return

  datatype Inst =
    | Nop                                              // an erased instruction
    | Load(dst: nat, off: nat, size: nat)              // from the struct
    | Copy(dst: nat, src: Src)                         // a load whose uses were replaced
    | Store(off: nat, size: nat, src: Src)             // to the struct
    | Compute(dst: nat, id: nat, args: seq<nat>)       // writes no memory
    | Effect(dst: nat, id: nat, args: seq<nat>)        // may write memory other than the struct
    | Helper(dst: nat, id: nat, args: seq<nat>)        // a call that gets the struct pointer
    | OldCall | OldLeave(tail: bool)                   // everything is in the struct
    | NewCall(vals: seq<Src>, spill: bool)             // spill: the results are stored behind the call
    | NewLeave(tail: bool, vals: seq<Src>)

  /** A function; `incoming` has an entry for each PHI, `spill` says that parameters are stored at the entry. */
  datatype Fn = Fn(
    code: seq<seq<Inst>>,
    succ: seq<seq<nat>>,
    pred: seq<seq<nat>>,
    entry: nat,
    incoming: map<(nat, nat), seq<(nat, Src)>>,
    spill: bool)

  // ---------------------------------------------------------------- memory

  function Byte(v: Value, t: int): int {
    if 0 <= t < |v| then v[t] else 0
  }

  ghost function Read(m: Value, off: nat, size: nat): (v: Value)
    ensures |v| == size && forall t :: 0 <= t < size ==> v[t] == Byte(m, off + t)
  {
    seq(size, t requires 0 <= t < size => Byte(m, off + t))
  }

  ghost function Write(m: Value, off: nat, size: nat, v: Value): (m': Value)
    ensures |m'| == |m|
    ensures forall a :: 0 <= a < |m| ==> m'[a] == if off <= a < off + size then Byte(v, a - off) else m[a]
  {
    seq(|m|, a requires 0 <= a < |m| => if off <= a < off + size then Byte(v, a - off) else m[a])
  }

  ghost function Resize(m: Value, n: nat): (m': Value)
    ensures |m'| == n
  {
    seq(n, a requires 0 <= a < n => Byte(m, a))
  }

  // ---------------------------------------------------------------- fields

  ghost predicate Within(fields: seq<Field>, i: nat, a: int) {
    i < |fields| && fields[i].off <= a < fields[i].off + fields[i].size
  }

  ghost predicate FieldsOk(fields: seq<Field>, n: nat) {
    && (forall i :: 0 <= i < |fields| ==> 0 < fields[i].size && fields[i].off + fields[i].size <= n)
    && (forall i, j :: 0 <= i < j < |fields| ==>
          fields[i].off + fields[i].size <= fields[j].off || fields[j].off + fields[j].size <= fields[i].off)
  }

  /** The field that a byte of the struct belongs to, or -1. */
  ghost function Owner(fields: seq<Field>, a: int): int {
    if exists i: nat :: Within(fields, i, a) then var i: nat :| Within(fields, i, a); i else -1
  }

  lemma OwnerIs(fields: seq<Field>, n: nat, i: nat, a: int)
    requires FieldsOk(fields, n) && Within(fields, i, a)
    ensures Owner(fields, a) == i
  {
    var j: nat := Owner(fields, a);
    assert Within(fields, j, a);
  }

  lemma OwnerHas(fields: seq<Field>, a: int)
    requires Owner(fields, a) >= 0
    ensures Owner(fields, a) < |fields| && Within(fields, Owner(fields, a), a)
  {
  }

  /** The struct with its fields replaced. */
  ghost function Overlay(fields: seq<Field>, m: Value, vals: seq<Value>): (m': Value)
    ensures |m'| == |m|
    ensures forall a :: 0 <= a < |m| ==> m'[a] == OverlayAt(fields, m, vals, a)
  {
    seq(|m|, a requires 0 <= a < |m| => OverlayAt(fields, m, vals, a))
  }

  ghost function OverlayAt(fields: seq<Field>, m: Value, vals: seq<Value>, a: int): int
    requires 0 <= a < |m|
  {
    var i := Owner(fields, a);
    if 0 <= i < |vals| && i < |fields| then Byte(vals[i], a - fields[i].off) else m[a]
  }

  ghost function FieldValues(fields: seq<Field>, m: Value): (vals: seq<Value>)
    ensures |vals| == |fields| && forall i :: 0 <= i < |fields| ==> vals[i] == Read(m, fields[i].off, fields[i].size)
  {
    seq(|fields|, i requires 0 <= i < |fields| => Read(m, fields[i].off, fields[i].size))
  }

  // --------------------------------------------------------------- running

  datatype State<W> = State(
    env: map<nat, Value>,
    params: seq<Value>,
    results: map<nat, seq<Value>>,
    phis: map<(nat, nat), Value>,
    mem: Value,
    world: W,
    seen: seq<(W, Value)>)

  /**
   * What surrounds the function. A callee sees the whole struct, and leaves a
   * whole struct. In the converted function its fields arrive and leave in
   * registers, and `junk` is what it leaves in their slots.
   */
  datatype World<!W> = World(
    compute: (nat, seq<Value>, W) -> Value,
    effect: (nat, seq<Value>, W) -> (Value, W),
    helper: (nat, seq<Value>, W, Value) -> (Value, W, Value),
    callee: (W, Value) -> (W, Value),
    junk: (W, Value) -> Value)

  ghost function Named(env: map<nat, Value>, name: nat): Value {
    if name in env then env[name] else []
  }

  ghost function NamedAll(env: map<nat, Value>, names: seq<nat>): seq<Value> {
    seq(|names|, i requires 0 <= i < |names| => Named(env, names[i]))
  }

  ghost function Nth(vals: seq<Value>, i: nat): Value {
    if i < |vals| then vals[i] else []
  }

  ghost function Eval<W>(fields: seq<Field>, s: State<W>, src: Src): Value {
    match src
    case Ssa(n) => Named(s.env, n)
    case Param(i) => Nth(s.params, i)
    case Result(b, i) => if b in s.results then Nth(s.results[b], i) else []
    case Phi(b, i) => if (b, i) in s.phis then s.phis[(b, i)] else []
    case Reload(i) => if i < |fields| then Read(s.mem, fields[i].off, fields[i].size) else []
  }

  ghost function EvalAll<W>(fields: seq<Field>, s: State<W>, srcs: seq<Src>): (vals: seq<Value>)
    ensures |vals| == |srcs| && forall i :: 0 <= i < |vals| ==> vals[i] == Eval(fields, s, srcs[i])
  {
    seq(|srcs|, i requires 0 <= i < |srcs| => Eval(fields, s, srcs[i]))
  }

  /** What a callee leaves behind, and in the converted function what is then in the struct. */
  ghost function After<W>(w: World<W>, world: W, m: Value): (r: (W, Value))
    ensures |r.1| == |m|
  {
    ((w.callee)(world, m).0, Resize((w.callee)(world, m).1, |m|))
  }

  ghost function Junked<W>(w: World<W>, fields: seq<Field>, world: W, m: Value): (m': Value)
    ensures |m'| == |m|
    ensures forall a :: 0 <= a < |m| ==> m'[a] == if Owner(fields, a) >= 0 then Byte((w.junk)(world, m), a) else m[a]
  {
    seq(|m|, a requires 0 <= a < |m| => if Owner(fields, a) >= 0 then Byte((w.junk)(world, m), a) else m[a])
  }

  ghost function CallNew<W>(w: World<W>, fields: seq<Field>, s: State<W>, b: nat, vals: seq<Src>, spill: bool): State<W> {
    var full := Overlay(fields, s.mem, EvalAll(fields, s, vals));
    var after := After(w, s.world, full);
    var results := FieldValues(fields, after.1);
    var m := Junked(w, fields, after.0, after.1);
    s.(seen := s.seen + [(s.world, full)], world := after.0, results := s.results[b := results],
       mem := if spill then Overlay(fields, m, results) else m)
  }

  ghost function Step<W>(w: World<W>, fields: seq<Field>, s: State<W>, b: nat, inst: Inst): (s': State<W>)
  {
    match inst
    case Nop => s
    case Load(dst, off, size) => s.(env := s.env[dst := Read(s.mem, off, size)])
    case Copy(dst, src) => s.(env := s.env[dst := Eval(fields, s, src)])
    case Store(off, size, src) => s.(mem := Write(s.mem, off, size, Eval(fields, s, src)))
    case Compute(dst, id, args) => s.(env := s.env[dst := (w.compute)(id, NamedAll(s.env, args), s.world)])
    case Effect(dst, id, args) =>
      var r := (w.effect)(id, NamedAll(s.env, args), s.world);
      s.(env := s.env[dst := r.0], world := r.1)
    case Helper(dst, id, args) =>
      var r := (w.helper)(id, NamedAll(s.env, args), s.world, s.mem);
      s.(env := s.env[dst := r.0], world := r.1, mem := Resize(r.2, |s.mem|))
    case OldCall =>
      var after := After(w, s.world, s.mem);
      s.(seen := s.seen + [(s.world, s.mem)], world := after.0, mem := after.1)
    case OldLeave(_) => s.(seen := s.seen + [(s.world, s.mem)])
    case NewCall(vals, spill) => CallNew(w, fields, s, b, vals, spill)
    case NewLeave(_, vals) => s.(seen := s.seen + [(s.world, Overlay(fields, s.mem, EvalAll(fields, s, vals)))])
  }

  /** The state after the first `j` instructions of block `b`. */
  ghost function Exec<W>(w: World<W>, fields: seq<Field>, s: State<W>, b: nat, code: seq<Inst>, j: nat): State<W>
    requires j <= |code|
  {
    if j == 0 then s else Step(w, fields, Exec(w, fields, s, b, code, j - 1), b, code[j - 1])
  }

  ghost function Pick(incoming: seq<(nat, Src)>, p: nat): Src {
    if exists x: nat :: x < |incoming| && incoming[x].0 == p
    then var x: nat :| x < |incoming| && incoming[x].0 == p; incoming[x].1
    else Ssa(0)
  }

  /** Entering block `b` from `p`: all PHIs of the block take their values at once. */
  ghost function Enter<W>(f: Fn, fields: seq<Field>, s: State<W>, p: nat, b: nat): State<W> {
    s.(phis := map key | key in f.incoming ::
      if key.0 == b then Eval(fields, s, Pick(f.incoming[key], p)) else if key in s.phis then s.phis[key] else [])
  }

  ghost function Begin<W>(f: Fn, fields: seq<Field>, s: State<W>): State<W> {
    if f.spill then s.(mem := Overlay(fields, s.mem, s.params)) else s
  }

  ghost predicate IsPath(f: Fn, path: seq<nat>) {
    && |path| > 0 && path[0] == f.entry && |f.succ| == |f.code|
    && (forall x :: 0 <= x < |path| ==> path[x] < |f.code|)
    && (forall x :: 0 <= x < |path| - 1 ==> path[x + 1] in f.succ[path[x]])
  }

  /** The state after the blocks of a path. */
  ghost function Run<W>(w: World<W>, f: Fn, fields: seq<Field>, path: seq<nat>, s: State<W>): State<W>
    requires |path| > 0 && forall x :: 0 <= x < |path| ==> path[x] < |f.code|
    decreases |path|
  {
    var b := path[|path| - 1];
    var s' := if |path| == 1 then Begin(f, fields, s)
              else Enter(f, fields, Run(w, f, fields, path[..|path| - 1], s), path[|path| - 2], b);
    Exec(w, fields, s', b, f.code[b], |f.code[b]|)
  }
}
