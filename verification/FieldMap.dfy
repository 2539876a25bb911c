/**
 * The map from offsets to fields that the conversion looks accesses up in.
 */
module FieldMap {
  import opened PromoteIR
  import opened PromoteSpec

  const SPTR_MAX_OFF: nat := 0x1a0

  /** One entry of the map: the number of the field that starts here, 0 outside all fields, else negative. */
  ghost predicate EntryOk(fields: seq<Field>, v: int, a: int) {
    && (v > 0 ==> v <= |fields| && fields[v - 1].off == a)
    && (v <= 0 ==> forall i :: 0 <= i < |fields| ==> fields[i].off != a)
    && (v == 0 <==> Owner(fields, a) < 0)
  }

  ghost predicate MapOk(fields: seq<Field>, m: seq<int>) {
    && |m| == SPTR_MAX_OFF && FieldsOk(fields, SPTR_MAX_OFF)
    && forall a :: 0 <= a < |m| ==> EntryOk(fields, m[a], a)
  }

  /** The entry while only the first `n` fields are in. */
  ghost predicate Entered(fields: seq<Field>, n: nat, v: int, a: int) {
    && (v > 0 ==> v <= n <= |fields| && fields[v - 1].off == a)
    && (v <= 0 ==> forall i :: 0 <= i < n && i < |fields| ==> fields[i].off != a)
    && (v == 0 <==> forall i: nat :: i < n ==> !Within(fields, i, a))
  }

  /** CreateSptrMap. */
  method CreateSptrMap(fields: seq<Field>) returns (res: array<int>)
    requires FieldsOk(fields, SPTR_MAX_OFF)
    ensures MapOk(fields, res[..])
  {
    res := new int[SPTR_MAX_OFF](_ => 0);
    for i := 0 to |fields|
      invariant forall a :: 0 <= a < SPTR_MAX_OFF ==> Entered(fields, i, res[a], a)
    {
      var field := fields[i];
      ghost var before := res[..];
      res[field.off] := i + 1;
      for j := field.off + 1 to field.off + field.size
        invariant forall a :: 0 <= a < SPTR_MAX_OFF ==>
          res[a] == if a == field.off then i + 1 else if field.off < a < j then -1 else before[a]
      {
        res[j] := -1;
      }
      forall a | 0 <= a < SPTR_MAX_OFF ensures Entered(fields, i + 1, res[a], a) {
        FieldEntered(fields, i, before[a], res[a], a);
      }
    }
    forall a | 0 <= a < SPTR_MAX_OFF ensures EntryOk(fields, res[a], a) {
      AllEntered(fields, res[a], a);
    }
  }

  lemma FieldEntered(fields: seq<Field>, i: nat, was: int, v: int, a: int)
    requires FieldsOk(fields, SPTR_MAX_OFF) && i < |fields| && Entered(fields, i, was, a)
    requires v == if a == fields[i].off then i + 1 else if Within(fields, i, a) then -1 else was
    ensures Entered(fields, i + 1, v, a)
  {
    assert Within(fields, i, fields[i].off);
    if Within(fields, i, a) {
      forall j: nat | j < i ensures !Within(fields, j, a) {}
    }
  }

  lemma AllEntered(fields: seq<Field>, v: int, a: int)
    requires FieldsOk(fields, SPTR_MAX_OFF) && Entered(fields, |fields|, v, a)
    ensures EntryOk(fields, v, a)
  {
    if Owner(fields, a) >= 0 {
      OwnerHas(fields, a);
    } else if i: nat :| Within(fields, i, a) {
      OwnerIs(fields, SPTR_MAX_OFF, i, a);
    }
  }

  /** GetFieldIdx. */
  function GetFieldIdx(m: seq<int>, off: nat): int {
    if off < |m| then m[off] else 0
  }

  lemma GetFieldOk(fields: seq<Field>, m: seq<int>, off: nat)
    requires MapOk(fields, m)
    ensures EntryOk(fields, GetFieldIdx(m, off), off)
  {
    if off >= |m| {
      if Owner(fields, off) >= 0 {
        OwnerHas(fields, off);
        assert false;
      }
    }
  }

  /** The loop over the bytes of an access: does it touch any field? */
  method Touches(fields: seq<Field>, m: seq<int>, off: nat, size: nat) returns (touches: bool)
    requires MapOk(fields, m)
    ensures touches <==> !Outside(fields, off, size)
  {
    for a := off to off + size
      invariant forall c :: off <= c < a ==> Owner(fields, c) < 0
    {
      GetFieldOk(fields, m, a);
      if GetFieldIdx(m, a) != 0 {
        OwnerHas(fields, a);
        assert !Apart(fields[Owner(fields, a)], off, size);
        return true;
      }
    }
    NoneTouched(fields, off, size);
    return false;
  }

  lemma NoneTouched(fields: seq<Field>, off: nat, size: nat)
    requires FieldsOk(fields, SPTR_MAX_OFF) && forall c :: off <= c < off + size ==> Owner(fields, c) < 0
    ensures Outside(fields, off, size)
  {
    forall i | 0 <= i < |fields| ensures Apart(fields[i], off, size) {
      if !Apart(fields[i], off, size) {
        var c := if off <= fields[i].off then fields[i].off else off;
        OwnerIs(fields, SPTR_MAX_OFF, i, c);
        assert false;
      }
    }
  }
}
