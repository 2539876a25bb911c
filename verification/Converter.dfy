/**
 * ChangeCallConv: move fields of the CPU struct into arguments and results.
 */
module Converter {
  import opened Options
  import opened PromoteIR
  import opened PromoteSpec
  import opened FieldMap
  import opened ConvertSpec
  import PhiWiring

  lemma FieldIdx(fields: seq<Field>, m: seq<int>, off: nat)
    requires MapOk(fields, m)
    ensures GetFieldIdx(m, off) > 0 ==> StartOf(fields, off) == GetFieldIdx(m, off) - 1 && GetFieldIdx(m, off) <= |fields|
    ensures GetFieldIdx(m, off) <= 0 ==> StartOf(fields, off) == -1
  {
    GetFieldOk(fields, m, off);
  }

  ghost predicate OthersSame(code: seq<seq<Inst>>, code': seq<seq<Inst>>, b: nat) {
    |code| == |code'| && forall b' :: 0 <= b' < |code| && b' != b ==> code'[b'] == code[b']
  }

  lemma Alone(code: seq<seq<Inst>>, b: nat)
    ensures OthersSame(code, code, b)
  {
  }

  lemma Together(code: seq<seq<Inst>>, code': seq<seq<Inst>>, code'': seq<seq<Inst>>, b: nat)
    requires OthersSame(code, code', b) && OthersSame(code', code'', b)
    ensures |code''| == |code| && OthersSame(code, code'', b)
  {
  }

  /** The struct is not read by the instructions from `j` to `k`. */
  ghost predicate Unread(c: seq<Inst>, j: nat, k: nat) {
    k <= |c| && forall m :: j <= m < k ==> !c[m].Load? && !c[m].Helper?
  }

  lemma UnreadMore(c: seq<Inst>, j: nat, k: nat)
    requires j < k && Unread(c, j + 1, k) && !c[j].Load? && !c[j].Helper?
    ensures Unread(c, j, k)
  {
  }

  /** A load within reach that has another size than its field. */
  ghost predicate LoadMisfit(fields: seq<Field>, c: seq<Inst>, start: nat) {
    exists j: nat :: j < |c| && InReach(c, start, j) && c[j].Load? && Misfit(fields, c[j])
  }

  /** Exactly when the conversion cannot be carried out. */
  ghost predicate Refused(fields: seq<Field>, size: nat, f: Fn) {
    Stops(Ctx(fields, size, f.entry, false, false), f)
  }

  /** Something that touches a field is left, or a use of the struct pointer itself. */
  ghost predicate Harmful(fields: seq<Field>, code: seq<seq<Inst>>) {
    exists b: nat, j: nat :: b < |code| && j < |code[b]| && !Harmless(fields, code[b][j])
  }

  /** Entry block and call of a block, one FoldLoads each. */
  lemma LoadsOfBlock(x: Ctx, b: nat, co: seq<Inst>, c': seq<Inst>, c1: seq<Inst>, k: nat)
    requires FieldsOk(x.fields, x.size) && Original(x.size, co) && |co| == |c'| == |c1| && k <= |co|
    requires forall j: nat :: j < |co| ==> (co[j].OldCall? <==> j == k)
    requires forall j: nat :: j < |co| ==> if b == x.entry then LoadDone(x.fields, b, co, 0, false, j, c'[j]) else c'[j] == co[j]
    requires forall j: nat :: j < |co| ==> if k < |co| then LoadDone(x.fields, b, c', k + 1, true, j, c1[j]) else c1[j] == c'[j]
    ensures LoadsDone(x, b, co, c1)
  {
    forall j: nat | j < |co| ensures KnownDone(x, b, co, c1, j) {
      assert InstOk(x.size, co[j]);
      if k < j {
        assert Writes(co[k]) && !NoWrite(co, 0, j);
        assert NoWrite(c', k + 1, j) <==> NoWrite(co, k + 1, j);
        if Known(x, b, co, j) {
          assert LoadFolded(x, b, co, j, c1[j], StartOf(x.fields, co[j].off));
        }
      } else if Known(x, b, co, j) {
        assert LoadFolded(x, b, co, j, c1[j], StartOf(x.fields, co[j].off));
      }
    }
  }

  class CCState {
    const f: Fn
    const fields: seq<Field>
    const fieldmap: seq<int>
    const size: nat
    var code: seq<seq<Inst>>
    var stores: set<(nat, nat)>

    ghost predicate Setup() {
      && FieldsOk(fields, size) && MapOk(fields, fieldmap) && OriginalFn(size, f)
    }

    constructor (f: Fn, fields: seq<Field>, fieldmap: seq<int>, size: nat)
      requires FieldsOk(fields, size) && MapOk(fields, fieldmap) && OriginalFn(size, f)
      ensures Setup() && this.f == f && this.fields == fields && this.size == size && code == f.code && stores == {}
    {
      this.f, this.fields, this.fieldmap, this.size := f, fields, fieldmap, size;
      code, stores := f.code, {};
    }

    /** The context for a choice of the two flags. */
    function At(escapes: bool, calls: bool): Ctx {
      Ctx(fields, size, f.entry, escapes, calls)
    }

    // --------------------------------------------------------------- loads

    /** FoldLoads: replace the loads of fields from `start` until memory is written. */
    method FoldLoads(b: nat, start: nat, call: bool) returns (ok: bool)
      requires Setup() && b < |code| && start <= |code[b]|
      modifies `code
      ensures OthersSame(old(code), code, b)
      ensures |code[b]| == |old(code)[b]|
      ensures ok ==> forall j: nat :: j < |code[b]| ==> LoadDone(fields, b, old(code)[b], start, call, j, code[b][j])
      ensures !ok ==> LoadMisfit(fields, old(code)[b], start)
    {
      ghost var c := code[b];
      var j := start;
      while j < |code[b]| && !Writes(code[b][j])
        invariant start <= j <= |c| && NoWrite(c, start, j) && |code| == |old(code)| && |code[b]| == |c|
        invariant forall b' :: 0 <= b' < |code| && b' != b ==> code[b'] == old(code)[b']
        invariant forall m: nat :: j <= m < |c| ==> code[b][m] == c[m]
        invariant forall m: nat :: m < j ==> LoadDone(fields, b, c, start, call, m, code[b][m])
      {
        var inst := code[b][j];
        if inst.Load? {
          var idx := GetFieldIdx(fieldmap, inst.off);
          FieldIdx(fields, fieldmap, inst.off);
          if idx > 0 {
            if inst.size != fields[idx - 1].size {
              assert InReach(c, start, j) && Misfit(fields, c[j]);
              return false;
            }
            code := code[b := code[b][j := Copy(inst.dst, if call then Result(b, idx - 1) else Param(idx - 1))]];
          }
        }
        j := j + 1;
      }
      forall m: nat | j <= m < |c| ensures LoadDone(fields, b, c, start, call, m, code[b][m]) {
        if m > j { assert !NoWrite(c, start, m); }
      }
      return true;
    }

    method FindCall(b: nat) returns (k: nat)
      requires Setup() && b < |f.code|
      ensures k <= |f.code[b]| && forall j: nat :: j < |f.code[b]| ==> (f.code[b][j].OldCall? <==> j == k)
    {
      k := 0;
      while k < |f.code[b]| && !f.code[b][k].OldCall?
        invariant k <= |f.code[b]| && forall j :: 0 <= j < k ==> !f.code[b][j].OldCall?
      {
        k := k + 1;
      }
      assert Original(size, f.code[b]);
    }

    /** The loads of one block. */
    method FoldBlock(b: nat) returns (ok: bool)
      requires Setup() && b < |code| == |f.code| && code[b] == f.code[b]
      modifies `code
      ensures OthersSame(old(code), code, b)
      ensures ok ==> LoadsDone(At(false, false), b, f.code[b], code[b])
      ensures !ok ==> LoadStops(At(false, false), b, f.code[b])
    {
      ghost var co := f.code[b];
      if b == f.entry {
        ok := FoldLoads(b, 0, false);
        if !ok {
          EntryStops(b);
          return;
        }
      }
      ghost var c' := code[b];
      var k := FindCall(b);
      if k < |code[b]| {
        ok := FoldLoads(b, k + 1, true);
        if !ok {
          CallStops(b, c', k);
          return;
        }
      }
      assert Original(size, co);
      LoadsOfBlock(At(false, false), b, co, c', code[b], k);
      return true;
    }

    lemma EntryStops(b: nat)
      requires b < |f.code| && b == f.entry && LoadMisfit(fields, f.code[b], 0)
      ensures LoadStops(At(false, false), b, f.code[b])
    {
      var j: nat :| j < |f.code[b]| && InReach(f.code[b], 0, j) && f.code[b][j].Load? && Misfit(fields, f.code[b][j]);
      assert Known(At(false, false), b, f.code[b], j);
    }

    lemma CallStops(b: nat, c': seq<Inst>, k: nat)
      requires b < |f.code| && k < |c'| == |f.code[b]| && f.code[b][k].OldCall? && LoadMisfit(fields, c', k + 1)
      requires forall j: nat :: j < |c'| ==>
        if b == f.entry then LoadDone(fields, b, f.code[b], 0, false, j, c'[j]) else c'[j] == f.code[b][j]
      ensures LoadStops(At(false, false), b, f.code[b])
    {
      var co := f.code[b];
      var j: nat :| j < |c'| && InReach(c', k + 1, j) && c'[j].Load? && Misfit(fields, c'[j]);
      assert c'[j] == co[j] && NoWrite(co, k + 1, j);
      assert Known(At(false, false), b, co, j);
    }

    method FoldAllLoads() returns (ok: bool)
      requires Setup() && code == f.code
      modifies `code
      ensures |code| == |f.code|
      ensures ok ==> forall b: nat :: b < |code| ==> LoadsDone(At(false, false), b, f.code[b], code[b])
      ensures !ok ==> exists b: nat :: b < |f.code| && LoadStops(At(false, false), b, f.code[b])
    {
      for b := 0 to |f.code|
        invariant |code| == |f.code|
        invariant forall b': nat :: b' < b ==> LoadsDone(At(false, false), b', f.code[b'], code[b'])
        invariant forall b' :: b <= b' < |code| ==> code[b'] == f.code[b']
      {
        ok := FoldBlock(b);
        if !ok { return; }
      }
      return true;
    }

    // ------------------------------------------------------------- escapes

    ghost predicate Escapes()
      reads `code
    {
      exists b: nat, j: nat :: b < |code| && j < |code[b]| && Escaping(fields, code[b][j])
    }

    ghost function FieldStores(): set<(nat, nat)>
      reads `code
    {
      set b: nat, j: nat | b < |code| && j < |code[b]| && code[b][j].Store? && AtField(fields, code[b][j]) :: (b, j)
    }

    /** One use of the struct pointer. */
    method ScanInst(inst: Inst) returns (escapes: bool, fieldStore: bool)
      requires Setup()
      ensures escapes <==> Escaping(fields, inst)
      ensures !escapes ==> (fieldStore <==> inst.Store? && AtField(fields, inst))
    {
      match inst
      case Store(off, n, _) =>
        var idx := GetFieldIdx(fieldmap, off);
        FieldIdx(fields, fieldmap, off);
        if idx <= 0 {
          escapes := Touches(fields, fieldmap, off, n);
          fieldStore := false;
        } else {
          escapes, fieldStore := n != fields[idx - 1].size, true;
        }
      case Load(_, off, n) =>
        escapes := Touches(fields, fieldmap, off, n);
        fieldStore := false;
      case Helper(_, _, _) => escapes, fieldStore := true, false;
      case _ => escapes, fieldStore := false, false;
    }

    /** Look at every use of the struct pointer, until one lets it escape. */
    method Scan() returns (escapes: bool)
      requires Setup() && stores == {}
      modifies `stores
      ensures escapes <==> Escapes()
      ensures !escapes ==> stores == FieldStores()
    {
      for b := 0 to |code|
        invariant forall b': nat, j: nat :: b' < b && j < |code[b']| ==> !Escaping(fields, code[b'][j])
        invariant stores == set b': nat, j: nat | b' < b && j < |code[b']| && code[b'][j].Store? && AtField(fields, code[b'][j]) :: (b', j)
      {
        for i := 0 to |code[b]|
          invariant forall j: nat :: j < i ==> !Escaping(fields, code[b][j])
          invariant stores == (set b': nat, j: nat | b' < b && j < |code[b']| && code[b'][j].Store? &&
            AtField(fields, code[b'][j]) :: (b', j))
            + (set j: nat | j < i && code[b][j].Store? && AtField(fields, code[b][j]) :: (b, j))
        {
          var fieldStore;
          escapes, fieldStore := ScanInst(code[b][i]);
          if escapes {
            return;
          }
          if fieldStore {
            stores := stores + {(b, i)};
          }
        }
      }
      return false;
    }

    // -------------------------------------------------------------- stores

    /** FoldStores: collect the stores in front of the call or return at `k`, backwards, until the struct is read. */
    method FoldStores(b: nat, k: nat) returns (vals: seq<Option<Src>>, ok: bool)
      requires Setup() && b < |code| && k <= |code[b]|
      modifies `code, `stores
      ensures OthersSame(old(code), code, b)
      ensures ok ==> StoresDone(fields, old(code)[b], code[b], k, vals)
      ensures ok ==> stores == old(stores) - Taken(fields, b, old(code)[b], 0, k)
      ensures !ok ==> StoreStops(fields, old(code)[b], k)
    {
      ghost var c := code[b];
      vals := seq(|fields|, _ => None);
      var j: nat := k;
      hide Setup, FoldedFrom, Taken, Foldable, StoreFor, StoreStops, StartOf, Unread, OthersSame;
      Alone(code, b);
      FoldNone(fields, b, c, k);
      while j > 0
        invariant j <= k && OthersSame(old(code), code, b)
        invariant FoldedFrom(fields, c, code[b], j, k, vals)
        invariant Unread(c, j, k)
        invariant stores == old(stores) - Taken(fields, b, c, j, k)
      {
        FoldedShape(fields, c, code[b], j, k, vals);
        var inst := code[b][j - 1];
        if inst.Load? || inst.Helper? {
          NotFoldable(fields, c, j - 1, k);
          FoldSkip(fields, b, c, code[b], 0, j, k, vals);
          return vals, true;
        }
        if inst.Store? && GetFieldIdx(fieldmap, inst.off) > 0 {
          ghost var before := code;
          ok, vals := FoldOne(b, k, j - 1, vals, c);
          Together(old(code), before, code, b);
          if !ok { return; }
        } else {
          if inst.Store? { NoField(inst.off); }
          NotFoldable(fields, c, j - 1, k);
          FoldSkip(fields, b, c, code[b], j - 1, j, k, vals);
        }
        UnreadMore(c, j - 1, k);
        j := j - 1;
      }
      return vals, true;
    }

    lemma NoField(off: nat)
      requires Setup() && GetFieldIdx(fieldmap, off) <= 0
      ensures StartOf(fields, off) == -1
    {
      FieldIdx(fields, fieldmap, off);
    }

    /** One store to a field. */
    method FoldOne(b: nat, k: nat, j: nat, vals0: seq<Option<Src>>, ghost c: seq<Inst>) returns (ok: bool, vals: seq<Option<Src>>)
      requires Setup() && b < |code| && j < k <= |c| && FoldedFrom(fields, c, code[b], j + 1, k, vals0)
      requires Unread(c, j + 1, k)
      requires |code[b]| == |c| && code[b][j] == c[j] && c[j].Store? && GetFieldIdx(fieldmap, c[j].off) > 0
      modifies `code, `stores
      ensures OthersSame(old(code), code, b)
      ensures ok ==> FoldedFrom(fields, c, code[b], j, k, vals)
      ensures ok ==> stores == old(stores) - {(b, j)} && Taken(fields, b, c, j, k) == Taken(fields, b, c, j + 1, k) + {(b, j)}
      ensures !ok ==> StoreStops(fields, c, k)
    {
      hide FoldedFrom, Taken, Foldable, StoreFor, StoreStops, OriginalFn, FieldsOk, StartOf;
      FoldedShape(fields, c, code[b], j + 1, k, vals0);
      var inst := code[b][j];
      FieldIdx(fields, fieldmap, inst.off);
      GetFieldOk(fields, fieldmap, inst.off);
      var i := GetFieldIdx(fieldmap, inst.off) - 1;
      IsStoreFor(fields, c, j, k, i);
      vals := vals0;
      if vals[i].Some? {
        FoldDead(fields, c, code[b], j, k, vals, i);
        return false, vals;
      }
      if inst.size != fields[i].size {
        FoldMisfit(fields, c, j, k, i);
        return false, vals;
      }
      FoldStep(fields, size, b, c, code[b], j, k, vals, i);
      vals := vals[i := Some(inst.src)];
      stores := stores - {(b, j)};
      code := code[b := code[b][j := Nop]];
      ok := true;
    }

    ghost predicate AllLoadsDone(code1: seq<seq<Inst>>) {
      |code1| == |f.code| && forall b: nat :: b < |code1| ==> LoadsDone(At(false, false), b, f.code[b], code1[b])
    }

    ghost predicate BlockFolded(b: nat, c1: seq<Inst>, c2: seq<Inst>, folded: Folded)
      requires b < |f.code|
    {
      if b in folded then
        && folded[b].0 < |f.code[b]| && IsCallret(f.code[b][folded[b].0])
        && StoresDone(fields, c1, c2, folded[b].0, folded[b].1)
      else c2 == c1 && NoCallret(f.code[b], 0, |f.code[b]|)
    }

    ghost predicate AllStoresDone(code1: seq<seq<Inst>>, code2: seq<seq<Inst>>, folded: Folded) {
      && |code1| == |code2| == |f.code| && (forall b :: b in folded ==> b < |f.code|)
      && forall b: nat :: b < |f.code| ==> BlockFolded(b, code1[b], code2[b], folded)
    }

    /** Which of the stores found by the scan are left. */
    ghost predicate StoresLeft(stores1: set<(nat, nat)>, stores2: set<(nat, nat)>, code1: seq<seq<Inst>>, folded: Folded) {
      forall b: nat, j: nat :: (b, j) in stores2 <==>
        (b, j) in stores1 && !(b in folded && b < |code1| && Foldable(fields, code1[b], j, folded[b].0))
    }

    method FindCallret(b: nat) returns (k: nat)
      requires Setup() && b < |f.code|
      ensures k <= |f.code[b]| && NoCallret(f.code[b], 0, k) && (k < |f.code[b]| ==> IsCallret(f.code[b][k]))
    {
      k := 0;
      while k < |f.code[b]| && !IsCallret(f.code[b][k])
        invariant k <= |f.code[b]| && NoCallret(f.code[b], 0, k)
      {
        k := k + 1;
      }
    }

    lemma RefusedStores(b: nat, c1: seq<Inst>, k: nat)
      requires b < |f.code| && Setup() && LoadsDone(At(false, false), b, f.code[b], c1)
      requires k < |f.code[b]| && IsCallret(f.code[b][k]) && StoreStops(fields, c1, k)
      ensures Refused(fields, size, f)
    {
      assert Original(size, f.code[b]);
      SameStops(At(false, false), b, f.code[b], c1, k);
      assert BlockStops(At(false, false), b, f.code[b]);
    }

    /** Fold the stores in front of every call and return. */
    method FoldAllStores() returns (folded: Folded, ok: bool)
      requires Setup() && AllLoadsDone(code)
      modifies `code, `stores
      ensures ok ==> AllStoresDone(old(code), code, folded) && StoresLeft(old(stores), stores, old(code), folded)
      ensures !ok ==> Refused(fields, size, f)
    {
      folded := map[];
      hide StoresDone, StoreStops, Refused, Foldable, Taken, NoCallret, LoadsDone, IsCallret;
      for b := 0 to |f.code|
        invariant |code| == |f.code| && (forall b' :: b' in folded ==> b' < b)
        invariant forall b': nat :: b' < b ==> BlockFolded(b', old(code)[b'], code[b'], folded)
        invariant forall b' :: b <= b' < |code| ==> code[b'] == old(code)[b']
        invariant StoresLeft(old(stores), stores, old(code), folded)
      {
        var k := FindCallret(b);
        SameSize(b, code[b]);
        if k < |f.code[b]| {
          ghost var stores1 := stores;
          var vals;
          vals, ok := FoldStores(b, k);
          if !ok {
            RefusedStores(b, old(code)[b], k);
            return;
          }
          StoresTaken(old(stores), stores1, stores, old(code), folded, b, k, vals);
          folded := folded[b := (k, vals)];
        }
      }
      ok := true;
    }

    lemma SameSize(b: nat, c1: seq<Inst>)
      requires b < |f.code| && LoadsDone(At(false, false), b, f.code[b], c1)
      ensures |c1| == |f.code[b]|
    {
    }

    lemma StoresTaken(stores0: set<(nat, nat)>, stores1: set<(nat, nat)>, stores2: set<(nat, nat)>,
        code1: seq<seq<Inst>>, folded: Folded, b: nat, k: nat, vals: seq<Option<Src>>)
      requires b < |code1| && b !in folded && k <= |code1[b]|
      requires StoresLeft(stores0, stores1, code1, folded) && stores2 == stores1 - Taken(fields, b, code1[b], 0, k)
      ensures StoresLeft(stores0, stores2, code1, folded[b := (k, vals)])
    {
    }

    // ---------------------------------------------------------- the decision

    lemma BlockLeft(b: nat, j: nat, code1: seq<seq<Inst>>, code2: seq<seq<Inst>>, folded: Folded)
      requires Setup() && AllLoadsDone(code1) && AllStoresDone(code1, code2, folded) && b < |code1| && j < |code1[b]|
      ensures |code2[b]| == |code1[b]|
      ensures (b in folded && Foldable(fields, code1[b], j, folded[b].0)) ==>
        code2[b][j] == Nop && !Misfit(fields, code1[b][j]) && code1[b][j].Store? && AtField(fields, code1[b][j])
      ensures !(b in folded && Foldable(fields, code1[b], j, folded[b].0)) ==> code2[b][j] == code1[b][j]
      ensures code1[b][j].Load? || code1[b][j].Store? ==> 0 < code1[b][j].size
    {
      assert BlockFolded(b, code1[b], code2[b], folded);
      assert Original(size, f.code[b]) && LoadsDone(At(false, false), b, f.code[b], code1[b]);
      LoadPhase(At(false, false), b, f.code[b], code1[b], j);
      assert InstOk(size, f.code[b][j]);
      if b in folded && Foldable(fields, code1[b], j, folded[b].0) {
        assert StoreFor(fields, code1[b], j, folded[b].0, StartOf(fields, code1[b][j].off));
      }
    }

    lemma EscapingHarms(inst: Inst)
      requires Setup() && (inst.Load? || inst.Store? ==> 0 < inst.size)
      ensures Escaping(fields, inst) || (inst.Store? && AtField(fields, inst)) <==> !Harmless(fields, inst)
    {
      if inst.Store? && AtField(fields, inst) {
        assert !Apart(fields[StartOf(fields, inst.off)], inst.off, inst.size);
      }
    }

    /** The struct pointer is taken to escape exactly if something that touches a field is left. */
    lemma EscapeIff(code1: seq<seq<Inst>>, code2: seq<seq<Inst>>, folded: Folded, stores1: set<(nat, nat)>,
        stores2: set<(nat, nat)>, scanned: bool)
      requires Setup() && AllLoadsDone(code1) && AllStoresDone(code1, code2, folded) && StoresLeft(stores1, stores2, code1, folded)
      requires scanned <==> exists b: nat, j: nat :: b < |code1| && j < |code1[b]| && Escaping(fields, code1[b][j])
      requires !scanned ==>
        stores1 == set b: nat, j: nat | b < |code1| && j < |code1[b]| && code1[b][j].Store? && AtField(fields, code1[b][j]) :: (b, j)
      ensures scanned || stores2 != {} <==> Harmful(fields, code2)
    {
      hide LoadsDone, BlockFolded, Setup, Harmless, Escaping, Foldable, AtField;
      if scanned {
        var b: nat, j: nat :| b < |code1| && j < |code1[b]| && Escaping(fields, code1[b][j]);
        BlockLeft(b, j, code1, code2, folded);
        EscapingHarms(code1[b][j]);
        NotMisfit(code1[b][j]);
        assert !Harmless(fields, code2[b][j]);
      } else if stores2 != {} {
        var s :| s in stores2;
        var b, j := s.0, s.1;
        assert (b, j) in stores1;
        BlockLeft(b, j, code1, code2, folded);
        EscapingHarms(code1[b][j]);
        assert !Harmless(fields, code2[b][j]);
      } else {
        forall b: nat, j: nat | b < |code2| && j < |code2[b]| ensures Harmless(fields, code2[b][j]) {
          LeftHarmless(b, j, code1, code2, folded, stores1, stores2);
        }
      }
    }

    lemma LeftHarmless(b: nat, j: nat, code1: seq<seq<Inst>>, code2: seq<seq<Inst>>, folded: Folded,
        stores1: set<(nat, nat)>, stores2: set<(nat, nat)>)
      requires Setup() && AllLoadsDone(code1) && AllStoresDone(code1, code2, folded) && StoresLeft(stores1, stores2, code1, folded)
      requires b < |code2| && j < |code2[b]| && stores2 == {}
      requires !(exists b: nat, j: nat :: b < |code1| && j < |code1[b]| && Escaping(fields, code1[b][j]))
      requires stores1 == set b: nat, j: nat | b < |code1| && j < |code1[b]| && code1[b][j].Store? && AtField(fields, code1[b][j]) :: (b, j)
      ensures Harmless(fields, code2[b][j])
    {
      hide LoadsDone, BlockFolded, MapOk, FieldsOk, OriginalFn, Harmless, Escaping, Foldable, AtField;
      SameLength(b, code1, code2, folded);
      BlockLeft(b, j, code1, code2, folded);
      EscapingHarms(code1[b][j]);
      NopHarmless();
      assert !Escaping(fields, code1[b][j]) && (b, j) !in stores2;
    }

    lemma SameLength(b: nat, code1: seq<seq<Inst>>, code2: seq<seq<Inst>>, folded: Folded)
      requires AllStoresDone(code1, code2, folded) && b < |code1|
      ensures |code2[b]| == |code1[b]|
    {
      assert BlockFolded(b, code1[b], code2[b], folded);
    }

    lemma NopHarmless()
      ensures Harmless(fields, Nop)
    {
    }

    /** A store to a field escapes only because of its size. */
    lemma NotMisfit(inst: Inst)
      ensures inst.Store? && AtField(fields, inst) && Escaping(fields, inst) ==> Misfit(fields, inst)
      ensures AtField(fields, inst) <== inst.Store? && StartOf(fields, inst.off) >= 0
    {
    }

    // ------------------------------------------------------ PHIs and rewriting

    /** Does the function call, or leave by a tail call? */
    method HasCalls() returns (calls: bool)
      ensures calls <==>
        exists b: nat, j: nat :: b < |f.code| && j < |f.code[b]| && (f.code[b][j].OldCall? || f.code[b][j] == OldLeave(true))
    {
      for b := 0 to |f.code|
        invariant forall b': nat, j: nat :: b' < b && j < |f.code[b']| ==> !(f.code[b'][j].OldCall? || f.code[b'][j] == OldLeave(true))
      {
        for i := 0 to |f.code[b]|
          invariant forall j: nat :: j < i ==> !(f.code[b][j].OldCall? || f.code[b][j] == OldLeave(true))
        {
          if f.code[b][i].OldCall? || f.code[b][i] == OldLeave(true) {
            return true;
          }
        }
      }
      return false;
    }

    ghost predicate Wanted(folded: Folded, key: (nat, nat)) {
      key.0 in folded && key.1 < |fields| && key.1 < |folded[key.0].1| && folded[key.0].1[key.1].None?
    }

    /** The PHIs for the values that no store gives. */
    method MissingPhis(folded: Folded) returns (keys: seq<(nat, nat)>)
      requires forall b :: b in folded ==> b < |f.code| && |folded[b].1| == |fields|
      ensures forall b: nat, i: nat :: (b, i) in keys <==> Wanted(folded, (b, i))
      ensures forall x, y :: 0 <= x < y < |keys| ==> keys[x] != keys[y]
    {
      keys := [];
      for b := 0 to |f.code|
        invariant forall c: nat, i: nat :: (c, i) in keys <==> c < b && Wanted(folded, (c, i))
        invariant forall x, y :: 0 <= x < y < |keys| ==> keys[x] != keys[y]
      {
        if b in folded {
          for i := 0 to |fields|
            invariant forall c: nat, j: nat :: (c, j) in keys <==> (c < b || (c == b && j < i)) && Wanted(folded, (c, j))
            invariant forall x, y :: 0 <= x < y < |keys| ==> keys[x] != keys[y]
          {
            if folded[b].1[i].None? {
              assert (b, i) !in keys;
              keys := keys + [(b, i)];
            }
          }
        }
      }
    }

    lemma GraphOk()
      requires Setup()
      ensures PhiWiring.Graph(f)
    {
    }

    lemma FoldedBlocks(code1: seq<seq<Inst>>, code2: seq<seq<Inst>>, folded: Folded, b: nat)
      requires Setup() && AllStoresDone(code1, code2, folded) && b < |f.code|
      ensures b in folded <==> HasCall(f.code[b]) || HasLeave(f.code[b])
      ensures b in folded ==> |folded[b].1| == |fields| && folded[b].0 < |f.code[b]| && IsCallret(f.code[b][folded[b].0])
      ensures b in folded <==> !NoCallret(f.code[b], 0, |f.code[b]|)
    {
      assert BlockFolded(b, code1[b], code2[b], folded);
    }

    /** Wire PHIs for all values that are missing. */
    method Wire(folded: Folded, ghost code1: seq<seq<Inst>>, ghost code2: seq<seq<Inst>>) returns (incoming: PhiWiring.PhiMap)
      requires Setup() && AllStoresDone(code1, code2, folded)
      ensures forall b: nat, i: nat :: (b, i) in incoming ==> PhiWiring.Graph(f) && Wired(f, incoming, b, i)
      ensures forall b: nat, i: nat :: Wanted(folded, (b, i)) ==> (b, i) in incoming
    {
      hide AllStoresDone, Wired, PhiWiring.AllNeeded;
      forall b: nat | b < |f.code|
        ensures b in folded <==> HasCall(f.code[b]) || HasLeave(f.code[b])
        ensures b in folded ==> |folded[b].1| == |fields|
      {
        FoldedBlocks(code1, code2, folded, b);
      }
      KeysKnown(code1, code2, folded);
      GraphOk();
      var keys := MissingPhis(folded);
      var producers := map b: nat | b < |f.code| && (b == f.entry || b in folded) :: b != f.entry;
      incoming := PhiWiring.WirePhis(f, |fields|, producers, keys);
      forall b: nat, i: nat | Wanted(folded, (b, i)) ensures (b, i) in incoming {
        var x :| 0 <= x < |keys| && keys[x] == (b, i);
        assert keys[x] in incoming;
      }
    }

    lemma KeysKnown(code1: seq<seq<Inst>>, code2: seq<seq<Inst>>, folded: Folded)
      requires AllStoresDone(code1, code2, folded)
      ensures forall b :: b in folded ==> b < |f.code|
    {
    }

    ghost predicate BlockRewritten(x: Ctx, b: nat, c2: seq<Inst>, cn: seq<Inst>, folded: Folded)
      requires b < |f.code|
    {
      if b in folded then
        && folded[b].0 < |f.code[b]| == |c2|
        && exists srcs: seq<Src> :: Filled(x, b, folded[b].1, srcs) && cn == c2[folded[b].0 := Rewritten(x, f.code[b][folded[b].0], srcs)]
      else cn == c2
    }

    /** UpdateCallRet for every call and return: values that are still missing are reloaded, or come from a parameter or PHI. */
    method Rewrite(escapes: bool, calls: bool, folded: Folded)
      requires Setup() && |code| == |f.code|
      requires forall b: nat :: b < |f.code| && b in folded ==> |folded[b].1| == |fields| && folded[b].0 < |f.code[b]| == |code[b]|
      modifies `code
      ensures |code| == |f.code|
      ensures forall b: nat :: b < |f.code| ==> BlockRewritten(At(escapes, calls), b, old(code)[b], code[b], folded)
    {
      hide Setup;
      for b := 0 to |f.code|
        invariant |code| == |f.code| && forall b' :: b <= b' < |code| ==> code[b'] == old(code)[b']
        invariant forall b': nat :: b' < b ==> BlockRewritten(At(escapes, calls), b', old(code)[b'], code[b'], folded)
      {
        if b in folded {
          var (k, vals) := folded[b];
          var srcs := seq(|fields|, i requires 0 <= i < |fields| =>
            if vals[i].Some? then vals[i].value else Missing(At(escapes, calls), b, i));
          assert Filled(At(escapes, calls), b, vals, srcs);
          code := code[b := code[b][k := Rewritten(At(escapes, calls), f.code[b][k], srcs)]];
        }
      }
    }

    lemma FinishBlock(x: Ctx, b: nat, code1: seq<seq<Inst>>, code2: seq<seq<Inst>>, cn: seq<Inst>, folded: Folded)
      requires Setup() && AllLoadsDone(code1) && AllStoresDone(code1, code2, folded) && b < |f.code|
      requires x == At(x.escapes, x.calls) && (!x.escapes ==> !Harmful(fields, code2)) && BlockRewritten(x, b, code2[b], cn, folded)
      ensures BlockPromoted(x, b, f.code[b], cn) && Precise(x, b, f.code[b], cn)
    {
      var co, c1, c2 := f.code[b], code1[b], code2[b];
      assert BlockFolded(b, c1, c2, folded) && Original(size, co);
      assert LoadsDone(At(false, false), b, co, c1);
      SameLoads(x, b, co, c1);
      hide LoadsDone, StoresDone, Filled, BlockPromoted, Precise, Original, FieldsOk, MapOk, OriginalFn;
      if b in folded {
        var (k, vals) := folded[b];
        var srcs: seq<Src> :| Filled(x, b, vals, srcs) && cn == c2[k := Rewritten(x, co[k], srcs)];
        BlockDone(x, b, co, c1, c2, k, vals, srcs, cn);
      } else {
        PlainBlockDone(x, b, co, c1);
      }
    }

    /** Whether loads are known does not depend on the decisions. */
    lemma SameLoads(x: Ctx, b: nat, co: seq<Inst>, c1: seq<Inst>)
      requires x == At(x.escapes, x.calls) && LoadsDone(At(false, false), b, co, c1)
      ensures LoadsDone(x, b, co, c1)
    {
      var x0 := At(false, false);
      forall j: nat | j < |co| ensures KnownDone(x, b, co, c1, j) {
        assert KnownDone(x0, b, co, c1, j);
        assert Known(x, b, co, j) <==> Known(x0, b, co, j);
        if i: nat :| LoadFolded(x0, b, co, j, c1[j], i) {
          assert LoadFolded(x, b, co, j, c1[j], i);
        }
      }
    }

    lemma FinishPhis(x: Ctx, b: nat, code1: seq<seq<Inst>>, code2: seq<seq<Inst>>, g: Fn, folded: Folded)
      requires Setup() && AllLoadsDone(code1) && AllStoresDone(code1, code2, folded) && b < |f.code| == |g.code|
      requires x == At(x.escapes, x.calls) && BlockRewritten(x, b, code2[b], g.code[b], folded)
      requires !x.escapes ==> f.entry !in folded
      requires !x.escapes && x.calls ==> forall b: nat, i: nat :: Wanted(folded, (b, i)) ==> (b, i) in g.incoming
      ensures PhisExist(f, g, b)
    {
      var co, c1, c2, cn := f.code[b], code1[b], code2[b], g.code[b];
      assert BlockFolded(b, c1, c2, folded) && Original(size, co) && LoadsDone(At(false, false), b, co, c1);
      forall k, i: nat | 0 <= k < |cn| && (cn[k].NewCall? || cn[k].NewLeave?) && i < |cn[k].vals| && cn[k].vals[i] == Phi(b, i)
        ensures b != f.entry && (b, i) in g.incoming
      {
        LoadPhase(At(false, false), b, co, c1, k);
        FilledPhi(x, b, c1, c2, cn, k, i, folded);
      }
    }

    lemma FilledPhi(x: Ctx, b: nat, c1: seq<Inst>, c2: seq<Inst>, cn: seq<Inst>, k: nat, i: nat, folded: Folded)
      requires b < |f.code| && Setup() && LoadsDone(At(false, false), b, f.code[b], c1) &&
        BlockFolded(b, c1, c2, folded) && BlockRewritten(x, b, c2, cn, folded)
      requires k < |cn| && (cn[k].NewCall? || cn[k].NewLeave?) && i < |cn[k].vals| && cn[k].vals[i] == Phi(b, i) && |x.fields| == |fields|
      requires k < |c1| ==> !c1[k].NewCall? && !c1[k].NewLeave?
      ensures Wanted(folded, (b, i)) && !x.escapes && x.calls
    {
      var (k', vals) := folded[b];
      var srcs: seq<Src> :| Filled(x, b, vals, srcs) && cn == c2[k' := Rewritten(x, f.code[b][k'], srcs)];
      assert k == k';
      if vals[i].Some? {
        FoldedSsa(b, c1, c2, k, vals, i);
      }
    }

    lemma FoldedSsa(b: nat, c1: seq<Inst>, c2: seq<Inst>, k: nat, vals: seq<Option<Src>>, i: nat)
      requires b < |f.code| && Setup() && LoadsDone(At(false, false), b, f.code[b], c1)
      requires StoresDone(fields, c1, c2, k, vals) && i < |vals| && vals[i].Some?
      ensures vals[i].value.Ssa?
    {
      var j: nat :| StoreFor(fields, c1, j, k, i) && vals[i] == Some(c1[j].src);
      assert Original(size, f.code[b]);
      LoadPhase(At(false, false), b, f.code[b], c1, j);
      assert InstOk(size, f.code[b][j]);
    }

    lemma Finish(x: Ctx, code1: seq<seq<Inst>>, code2: seq<seq<Inst>>, g: Fn, folded: Folded)
      requires Setup() && AllLoadsDone(code1) && AllStoresDone(code1, code2, folded) && |f.code| == |g.code|
      requires x == At(x.escapes, x.calls) && (!x.escapes ==> !Harmful(fields, code2) && f.entry !in folded)
      requires forall b: nat :: b < |f.code| ==> BlockRewritten(x, b, code2[b], g.code[b], folded)
      requires g.succ == f.succ && g.pred == f.pred && g.entry == f.entry && g.spill == x.escapes
      requires if !x.escapes && x.calls
        then (forall b: nat, i: nat :: Wanted(folded, (b, i)) ==> (b, i) in g.incoming)
          && (forall b: nat, i: nat :: (b, i) in g.incoming ==> PhiWiring.Graph(f) && Wired(f, g.incoming, b, i))
        else g.incoming == map[]
      requires !x.calls ==> forall b: nat, j: nat :: b < |f.code| && j < |f.code[b]| ==> !f.code[b][j].OldCall?
      ensures Promoted(x, f, g)
      ensures forall b: nat :: b < |f.code| ==> Precise(x, b, f.code[b], g.code[b])
    {
      hide AllLoadsDone, BlockFolded, BlockRewritten, BlockPromoted, Precise, PhisExist, Wired, MapOk, Wanted, Harmful;
      forall b: nat | b < |f.code|
        ensures BlockPromoted(x, b, f.code[b], g.code[b]) && PhisExist(f, g, b) && Precise(x, b, f.code[b], g.code[b])
      {
        FinishBlock(x, b, code1, code2, g.code[b], folded);
        FinishPhis(x, b, code1, code2, g, folded);
      }
      if !x.escapes {
        FoldedBlocks(code1, code2, folded, f.entry);
      }
    }

    /** The whole conversion. It stops only where an assertion of the source would fail. */
    method Convert() returns (g: Fn, ghost x: Ctx, ok: bool)
      requires Setup() && code == f.code && stores == {}
      modifies this
      ensures ok ==> x.fields == fields && x.size == size && Promoted(x, f, g)
      ensures ok ==> forall b: nat :: b < |f.code| ==> Precise(x, b, f.code[b], g.code[b])
      ensures ok ==> (x.escapes <==> Harmful(fields, g.code)) && (x.escapes <==> Leaks(x, f))
      ensures ok <==> !Refused(fields, size, f)
    {
      g, x := f, At(false, false);
      hide Leaks, BlockStops, LoadStops, AllLoadsDone, AllStoresDone, StoresLeft, BlockRewritten, Promoted, Precise,
        Wired, Wanted, MapOk, FieldsOk, OriginalFn, Harmless, Escaping, LoadsDone;
      ok := FoldAllLoads();
      if !ok {
        RefusedLoads();
        return;
      }
      LoadsKnown(code);
      ghost var code1 := code;
      var escapes := Scan();
      ghost var scanned, stores1 := escapes, stores;
      var folded;
      folded, ok := FoldAllStores();
      if !ok { return; }
      ghost var code2 := code;
      EscapeIff(code1, code2, folded, stores1, stores, scanned);
      LeaksIff(code1, code2, folded);
      Accepts(code1, code2, folded);
      escapes := escapes || stores != {};
      var calls := HasCalls();
      if !escapes && f.entry in folded {
        return g, x, false;
      }
      var incoming: PhiWiring.PhiMap := map[];
      if !escapes && calls {
        incoming := Wire(folded, code1, code2);
      }
      FoldedSizes(code1, code2, folded);
      Rewrite(escapes, calls, folded);
      g := Fn(code, f.succ, f.pred, f.entry, incoming, escapes);
      x := At(escapes, calls);
      Finish(x, code1, code2, g, folded);
      SameHarm(x, code1, code2, code, folded);
      SameLeaks(x);
    }

    lemma RefusedLoads()
      requires exists b: nat :: b < |f.code| && LoadStops(At(false, false), b, f.code[b])
      ensures Refused(fields, size, f)
    {
      var b: nat :| b < |f.code| && LoadStops(At(false, false), b, f.code[b]);
      assert BlockStops(At(false, false), b, f.code[b]);
    }

    /** The decisions play no role for what leaks. */
    lemma SameLeaks(x: Ctx)
      requires x == At(x.escapes, x.calls)
      ensures Leaks(x, f) <==> Leaks(At(false, false), f)
    {
      forall b: nat, j: nat | b < |f.code| && j < |f.code[b]|
        ensures LeaksAt(x, b, f.code[b], j) <==> LeaksAt(At(false, false), b, f.code[b], j)
      {
        assert Known(x, b, f.code[b], j) <==> Known(At(false, false), b, f.code[b], j);
      }
    }

    /** What is left touches a field exactly if the original function says so. */
    lemma LeaksIff(code1: seq<seq<Inst>>, code2: seq<seq<Inst>>, folded: Folded)
      requires Setup() && AllLoadsDone(code1) && AllStoresDone(code1, code2, folded)
      ensures Harmful(fields, code2) <==> Leaks(At(false, false), f)
    {
      forall b: nat, j: nat | b < |f.code|
        ensures |code2[b]| == |f.code[b]|
        ensures j < |f.code[b]| ==> (!Harmless(fields, code2[b][j]) <==> LeaksAt(At(false, false), b, f.code[b], j))
      {
        SameLength(b, code1, code2, folded);
        assert LoadsDone(At(false, false), b, f.code[b], code1[b]);
        if j < |f.code[b]| { LeakIff(b, j, code1, code2, folded); }
      }
    }

    lemma LeakIff(b: nat, j: nat, code1: seq<seq<Inst>>, code2: seq<seq<Inst>>, folded: Folded)
      requires Setup() && AllLoadsDone(code1) && AllStoresDone(code1, code2, folded) && b < |f.code| && j < |f.code[b]| == |code1[b]|
      requires |code2[b]| == |f.code[b]|
      ensures !Harmless(fields, code2[b][j]) <==> LeaksAt(At(false, false), b, f.code[b], j)
    {
      var x, co := At(false, false), f.code[b];
      BlockLeft(b, j, code1, code2, folded);
      assert BlockFolded(b, code1[b], code2[b], folded) && Original(size, co) && LoadsDone(x, b, co, code1[b]);
      LoadPhase(x, b, co, code1[b], j);
      assert KnownDone(x, b, co, code1[b], j);
      if b in folded {
        SameFoldable(x, b, co, code1[b], j, folded[b].0);
        OneCallret(b, folded[b].0);
      }
    }

    lemma OneCallret(b: nat, k: nat)
      requires Setup() && b < |f.code| && k < |f.code[b]| && IsCallret(f.code[b][k])
      ensures forall k': nat :: k' < |f.code[b]| && IsCallret(f.code[b][k']) ==> k' == k
    {
      assert Original(size, f.code[b]);
    }

    /** Once loads and stores are done, only the entry can be in the way. */
    lemma Accepts(code1: seq<seq<Inst>>, code2: seq<seq<Inst>>, folded: Folded)
      requires Setup() && AllLoadsDone(code1) && AllStoresDone(code1, code2, folded)
      ensures Refused(fields, size, f) <==> !Leaks(At(false, false), f) && f.entry in folded
    {
      hide Leaks, BlockStops;
      forall b: nat | b < |f.code| ensures !BlockStops(At(false, false), b, f.code[b]) {
        BlockAccepted(b, code1, code2, folded);
      }
      FoldedBlocks(code1, code2, folded, f.entry);
    }

    lemma BlockAccepted(b: nat, code1: seq<seq<Inst>>, code2: seq<seq<Inst>>, folded: Folded)
      requires Setup() && AllLoadsDone(code1) && AllStoresDone(code1, code2, folded) && b < |f.code|
      ensures !BlockStops(At(false, false), b, f.code[b])
    {
      var x, co := At(false, false), f.code[b];
      assert BlockFolded(b, code1[b], code2[b], folded) && Original(size, co) && LoadsDone(x, b, co, code1[b]);
      hide LoadStops, StoreStops, StoresDone, LoadsDone, FieldsOk, Original, OriginalFn;
      LoadsFit(x, b, co, code1[b]);
      if b in folded {
        OneCallret(b, folded[b].0);
        NoneStops(fields, code1[b], code2[b], folded[b].0, folded[b].1);
        SameStops(x, b, co, code1[b], folded[b].0);
      }
    }

    lemma LoadsKnown(code1: seq<seq<Inst>>)
      requires |code1| == |f.code| && forall b: nat :: b < |code1| ==> LoadsDone(At(false, false), b, f.code[b], code1[b])
      ensures AllLoadsDone(code1)
    {
    }

    lemma FoldedSizes(code1: seq<seq<Inst>>, code2: seq<seq<Inst>>, folded: Folded)
      requires Setup() && AllLoadsDone(code1) && AllStoresDone(code1, code2, folded)
      ensures |code2| == |f.code|
      ensures forall b: nat :: b < |f.code| && b in folded ==> |folded[b].1| == |fields| && folded[b].0 < |f.code[b]| == |code2[b]|
    {
      forall b: nat | b < |f.code| && b in folded ensures |folded[b].1| == |fields| && folded[b].0 < |f.code[b]| == |code2[b]| {
        FoldedBlocks(code1, code2, folded, b);
        SameLength(b, code1, code2, folded);
        assert LoadsDone(At(false, false), b, f.code[b], code1[b]);
      }
    }

    /** Rewriting calls and returns does not touch what reads or writes fields. */
    lemma SameHarm(x: Ctx, code1: seq<seq<Inst>>, code2: seq<seq<Inst>>, code3: seq<seq<Inst>>, folded: Folded)
      requires Setup() && AllLoadsDone(code1) && AllStoresDone(code1, code2, folded)
      requires |code3| == |f.code| && forall b: nat :: b < |f.code| ==> BlockRewritten(x, b, code2[b], code3[b], folded)
      ensures Harmful(fields, code2) <==> Harmful(fields, code3)
    {
      forall b: nat, j: nat | b < |f.code|
        ensures |code2[b]| == |code3[b]| && (j < |code2[b]| ==> (Harmless(fields, code2[b][j]) <==> Harmless(fields, code3[b][j])))
      {
        BlockHarm(x, b, code1[b], code2[b], code3[b], folded, j);
      }
    }

    lemma BlockHarm(x: Ctx, b: nat, c1: seq<Inst>, c2: seq<Inst>, c3: seq<Inst>, folded: Folded, j: nat)
      requires b < |f.code| && Setup() && LoadsDone(At(false, false), b, f.code[b], c1) &&
        BlockFolded(b, c1, c2, folded) && BlockRewritten(x, b, c2, c3, folded)
      ensures |c2| == |c3| && (j < |c2| ==> (Harmless(fields, c2[j]) <==> Harmless(fields, c3[j])))
    {
      if b in folded && j == folded[b].0 {
        assert Original(size, f.code[b]);
        LoadPhase(At(false, false), b, f.code[b], c1, j);
        Untouched(fields, c1, c2, j, folded[b].1, j);
      }
    }
  }

  /** For each block with a call or return: where it is, and the values of the stores folded into it. */
  type Folded = map<nat, (nat, seq<Option<Src>>)>

  /** ChangeCallConv for a table of fields. */
  method ChangeCallConv(f: Fn, fields: seq<Field>, size: nat) returns (g: Fn, ghost x: Ctx, ok: bool)
    requires FieldsOk(fields, SPTR_MAX_OFF) && SPTR_MAX_OFF <= size && OriginalFn(size, f)
    ensures ok ==> x.fields == fields && x.size == size && x.escapes == g.spill && Promoted(x, f, g)
    ensures ok ==> forall b: nat :: b < |f.code| ==> Precise(x, b, f.code[b], g.code[b])
    ensures ok ==> (g.spill <==> Harmful(fields, g.code)) && (g.spill <==> Leaks(x, f))
    ensures ok <==> !Refused(fields, size, f)
  {
    var fieldmap := CreateSptrMap(fields);
    var state := new CCState(f, fields, fieldmap[..], size);
    g, x, ok := state.Convert();
  }
}
