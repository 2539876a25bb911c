/**
 * What lifting a block leaves behind: code that packs registers into the CPU
 * struct and unpacks them again, and the dirty and cleaned sets of its register file.
 */
module PackLift {
  import opened Options
  import opened PackFlow

  /** The CPU struct traffic of a block. `host` registers travel in machine registers instead. */
  datatype Inst =
    | Assign(reg: nat)        // the lifted code gives a register a new value
    | Params(host: RegSet)    // UnpackParams
    | Stores(regs: RegSet)    // the stores of one pack
    | Call(host: RegSet)      // the call itself and the unpack behind it
    | Leave(host: RegSet)     // return or tail call

  /** CallConvPack: where the stores are, and which registers were dirty in the block before them. */
  datatype Pack = Pack(bb: nat, at: nat, dirty: RegSet, stores: RegSet)

  /** Registers with a slot in the CPU struct; entries without register are None. */
  function Registers(entries: seq<Option<nat>>): RegSet {
    set i | 0 <= i < |entries| && entries[i].Some? :: entries[i].value
  }

  /** Dirty registers of the block after its first `i` instructions. */
  ghost function DirtyAt(entries: RegSet, code: seq<Inst>, i: nat): RegSet
    requires i <= |code|
  {
    if i == 0 then {} else
      var d := DirtyAt(entries, code, i - 1);
      match code[i - 1]
      case Assign(r) => d + {r}
      case Stores(regs) => d - regs
      case Params(host) => (d - entries) + (entries * host)
      case Call(host) => (d - entries) + (entries * host)
      case Leave(_) => d
  }

  /** Registers of the block that were packed before instruction `i`. */
  ghost function CleanedAt(code: seq<Inst>, i: nat): RegSet
    requires i <= |code|
  {
    if i == 0 then {} else
      CleanedAt(code, i - 1) + if code[i - 1].Stores? then code[i - 1].regs else {}
  }

  lemma {:induction false} AtPrefix(entries: RegSet, code: seq<Inst>, more: seq<Inst>, i: nat)
    requires i <= |code|
    ensures DirtyAt(entries, code + more, i) == DirtyAt(entries, code, i)
    ensures CleanedAt(code + more, i) == CleanedAt(code, i)
  {
    if i > 0 {
      AtPrefix(entries, code, more, i - 1);
    }
  }

  ghost predicate PackOk(entries: RegSet, code: seq<Inst>, bb: nat, p: Pack) {
    p.bb == bb && p.at < |code| && code[p.at] == Stores(p.stores) && p.stores <= entries && p.dirty == DirtyAt(entries, code, p.at)
  }

  lemma PackOkPrefix(entries: RegSet, code: seq<Inst>, more: seq<Inst>, bb: nat, packs: seq<Pack>)
    requires forall k :: 0 <= k < |packs| ==> PackOk(entries, code, bb, packs[k])
    ensures forall k :: 0 <= k < |packs| ==> PackOk(entries, code + more, bb, packs[k])
  {
    forall k | 0 <= k < |packs| ensures PackOk(entries, code + more, bb, packs[k]) {
      AtPrefix(entries, code, more, packs[k].at);
    }
  }

  /** A basic block with its register file, and the packs recorded for it. */
  class BlockLifter {
    const bb: nat
    const entries: seq<Option<nat>>
    var code: seq<Inst>
    var dirty: RegSet
    var cleaned: RegSet
    var packs: seq<Pack>

    ghost predicate Valid()
      reads this
    {
      && dirty == DirtyAt(Registers(entries), code, |code|)
      && cleaned == CleanedAt(code, |code|)
      && (forall k :: 0 <= k < |packs| ==> PackOk(Registers(entries), code, bb, packs[k]))
      && (forall i :: 0 <= i < |code| && code[i].Stores? ==> code[i].regs <= Registers(entries))
    }

    constructor (bb: nat, entries: seq<Option<nat>>)
      ensures Valid() && code == [] && packs == [] && this.bb == bb && this.entries == entries
    {
      this.bb := bb;
      this.entries := entries;
      code, dirty, cleaned, packs := [], {}, {}, [];
    }

    method Emit(inst: Inst)
      requires forall k :: 0 <= k < |packs| ==> PackOk(Registers(entries), code, bb, packs[k])
      modifies `code
      ensures code == old(code) + [inst]
      ensures forall k :: 0 <= k < |packs| ==> PackOk(Registers(entries), code, bb, packs[k])
      ensures forall i :: 0 <= i <= |old(code)| ==> DirtyAt(Registers(entries), code, i) == DirtyAt(Registers(entries), old(code), i)
      ensures forall i :: 0 <= i <= |old(code)| ==> CleanedAt(code, i) == CleanedAt(old(code), i)
    {
      PackOkPrefix(Registers(entries), code, [inst], bb, packs);
      forall i | 0 <= i <= |code|
        ensures DirtyAt(Registers(entries), code + [inst], i) == DirtyAt(Registers(entries), code, i)
        ensures CleanedAt(code + [inst], i) == CleanedAt(code, i)
      {
        AtPrefix(Registers(entries), code, [inst], i);
      }
      code := code + [inst];
    }

    /** RegFile::SetReg by the lifted code. */
    method SetReg(r: nat)
      requires Valid()
      modifies this
      ensures Valid() && code == old(code) + [Assign(r)] && packs == old(packs)
      ensures dirty == old(dirty) + {r} && cleaned == old(cleaned)
    {
      Emit(Assign(r));
      dirty := dirty + {r};
    }

    /** Store every register that has a slot, except the host registers. */
    method PackRegs(host: RegSet)
      requires Valid()
      modifies this
      ensures Valid() && code == old(code) + [Stores(Registers(entries) - host)]
      ensures packs == old(packs) + [Pack(bb, |old(code)|, old(dirty), Registers(entries) - host)]
    {
      var before, stores := dirty, {};
      for i := 0 to |entries|
        invariant stores == Registers(entries[..i]) - host
        invariant dirty == before - stores && cleaned == old(cleaned) + stores
        invariant code == old(code) && packs == old(packs)
      {
        SnocRegisters(entries, i);
        if entries[i].None? || entries[i].value in host {
          continue;
        }
        var r := entries[i].value;
        dirty := dirty - {r};
        cleaned := cleaned + {r};
        stores := stores + {r};
      }
      assert entries[..|entries|] == entries;
      Emit(Stores(stores));
      packs := packs + [Pack(bb, |code| - 1, before, stores)];
    }

    /** Read every register back: from its slot and clean, or from a host register and dirty. */
    method Unpack(inst: Inst, host: RegSet)
      requires Valid() && (inst == Params(host) || inst == Call(host))
      modifies this
      ensures Valid() && code == old(code) + [inst] && packs == old(packs)
    {
      ghost var before := dirty;
      for i := 0 to |entries|
        invariant dirty == (before - Registers(entries[..i])) + (Registers(entries[..i]) * host)
        invariant code == old(code) && packs == old(packs) && cleaned == old(cleaned)
      {
        SnocRegisters(entries, i);
        if entries[i].None? {
          continue;
        }
        var r := entries[i].value;
        dirty := dirty + {r};
        if r !in host {
          dirty := dirty - {r};
        }
      }
      assert entries[..|entries|] == entries;
      Emit(inst);
    }

    /** CallConv::Call; a tail call leaves the function. */
    method CallFn(host: RegSet, tail: bool)
      requires Valid()
      modifies this
      ensures Valid()
      ensures code == old(code) + [Stores(Registers(entries) - host), if tail then Leave(host) else Call(host)]
      ensures packs == old(packs) + [Pack(bb, |old(code)|, old(dirty), Registers(entries) - host)]
    {
      PackRegs(host);
      if tail {
        Emit(Leave(host));
      } else {
        Unpack(Call(host), host);
      }
    }

    /** CallConv::Return. */
    method Return(host: RegSet)
      requires Valid()
      modifies this
      ensures Valid() && code == old(code) + [Stores(Registers(entries) - host), Leave(host)]
      ensures packs == old(packs) + [Pack(bb, |old(code)|, old(dirty), Registers(entries) - host)]
    {
      PackRegs(host);
      Emit(Leave(host));
    }
  }

  lemma SnocRegisters(entries: seq<Option<nat>>, i: nat)
    requires i < |entries|
    ensures Registers(entries[..i + 1]) == Registers(entries[..i]) + if entries[i].Some? then {entries[i].value} else {}
  {
    var a, b := entries[..i + 1], entries[..i];
    forall r | r in Registers(b) ensures r in Registers(a) {
      var k :| 0 <= k < |b| && b[k] == Some(r);
      assert a[k] == Some(r);
    }
    if entries[i].Some? { assert a[i] == entries[i]; }
  }
}
