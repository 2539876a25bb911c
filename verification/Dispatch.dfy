/**
 * Dispatching guest addresses: the quick TLB in front of the code table, and
 * the server behind it.
 */
module Dispatch {
  import opened Options
  import opened Arith
  import opened CodeTable

  const TLB_SLOTS: nat := 1024
  const BITOFF: nat := 4

  /** QUICK_TLB_HASH. */
  function TlbHash(addr: nat): (h: nat)
    ensures h < TLB_SLOTS
  {
    Quot(addr, Pow2(BITOFF)) % TLB_SLOTS
  }

  /** A translated object: its functions with their entry points. The address of a name that is not a number is 0. */
  type Object = seq<(nat, nat)>

  /** The table with functions added one after the other. */
  ghost function Added(code: map<nat, nat>, obj: Object): map<nat, nat> {
    if obj == [] then code
    else Added(code, obj[..|obj| - 1])[obj[|obj| - 1].0 := obj[|obj| - 1].1]
  }

  /** All functions have addresses, which are new and differ from each other. */
  ghost predicate AllNew(code: map<nat, nat>, obj: Object) {
    forall j :: 0 <= j < |obj| ==> obj[j].0 != 0 && obj[j].0 !in Added(code, obj[..j])
  }

  lemma AllNewMore(code: map<nat, nat>, obj: Object, k: nat)
    requires k < |obj| && AllNew(code, obj[..k]) && obj[k].0 != 0 && obj[k].0 !in Added(code, obj[..k])
    ensures AllNew(code, obj[..k + 1]) && Added(code, obj[..k + 1]) == Added(code, obj[..k])[obj[k].0 := obj[k].1]
  {
    assert obj[..k + 1][..k] == obj[..k];
    forall j | 0 <= j < k + 1 ensures obj[j].0 != 0 && obj[j].0 !in Added(code, obj[..k + 1][..j]) {
      assert obj[..k + 1][..j] == obj[..j];
      if j < k {
        assert obj[..k][..j] == obj[..j] && obj[..k][j] == obj[j];
      }
    }
  }

  lemma {:induction false} AddedHas(code: map<nat, nat>, obj: Object)
    requires AllNew(code, obj)
    ensures Grown(code, Added(code, obj))
    ensures forall k :: 0 <= k < |obj| ==> obj[k].0 in Added(code, obj) && Added(code, obj)[obj[k].0] == obj[k].1
  {
    if obj != [] {
      var before, last := obj[..|obj| - 1], obj[|obj| - 1];
      AllNewBefore(code, obj);
      AddedHas(code, before);
      hide Added, AllNew;
      forall k | 0 <= k < |obj| ensures obj[k].0 in Added(code, obj) && Added(code, obj)[obj[k].0] == obj[k].1 {
        if k < |before| { assert before[k] == obj[k]; }
      }
    }
  }

  lemma NoneAdded(code: map<nat, nat>)
    ensures AllNew(code, []) && Added(code, []) == code
  {
  }

  lemma AllNewBefore(code: map<nat, nat>, obj: Object)
    requires obj != [] && AllNew(code, obj)
    ensures AllNew(code, obj[..|obj| - 1]) && obj[|obj| - 1].0 !in Added(code, obj[..|obj| - 1])
    ensures Added(code, obj) == Added(code, obj[..|obj| - 1])[obj[|obj| - 1].0 := obj[|obj| - 1].1]
  {
    var before := obj[..|obj| - 1];
    forall j | 0 <= j < |before| ensures before[j].0 != 0 && before[j].0 !in Added(code, before[..j]) {
      assert before[j] == obj[j] && before[..j] == obj[..j];
    }
  }

  class Dispatcher {
    const table: Table
    const trace: bool
    var tags: seq<nat>
    var funcs: seq<nat>

    /** Every tag in use agrees with the table; the others are as they were at the beginning. */
    ghost predicate Valid()
      reads this, table, table.addrs, table.entries
    {
      && table.Valid() && |tags| == |funcs| == TLB_SLOTS
      && (forall h :: 0 <= h < TLB_SLOTS && tags[h] != 0 ==> tags[h] in table.Code() && table.Code()[tags[h]] == funcs[h])
      && (forall h :: 0 <= h < TLB_SLOTS && tags[h] == 0 ==> funcs[h] == 0)
    }

    constructor (trace: bool)
      ensures Valid() && this.trace == trace && table.Code() == map[] && forall h :: 0 <= h < TLB_SLOTS ==> tags[h] == 0
      ensures fresh(table) && fresh(table.addrs) && fresh(table.entries)
    {
      this.trace := trace;
      table := new Table();
      tags := seq(TLB_SLOTS, _ => 0);
      funcs := seq(TLB_SLOTS, _ => 0);
    }

    lemma TagsStay(code: map<nat, nat>, code': map<nat, nat>)
      requires |tags| == |funcs| == TLB_SLOTS && Grown(code, code')
      requires forall h :: 0 <= h < TLB_SLOTS && tags[h] != 0 ==> tags[h] in code && code[tags[h]] == funcs[h]
      ensures forall h :: 0 <= h < TLB_SLOTS && tags[h] != 0 ==> tags[h] in code' && code'[tags[h]] == funcs[h]
    {
    }

    /**
     * The last pass of rtld_add_object: register the functions, up to the first
     * that cannot be. A function without address ends it with success.
     */
    method AddObject(obj: Object) returns (ok: bool, ghost n: nat)
      requires Valid()
      modifies table, table.addrs, table.entries
      ensures Valid() && Grown(old(table.Code()), table.Code())
      ensures n <= |obj| && AllNew(old(table.Code()), obj[..n]) && table.Code() == Added(old(table.Code()), obj[..n])
      ensures forall k :: 0 <= k < n ==> obj[k].0 in table.Code() && table.Code()[obj[k].0] == obj[k].1
      ensures ok <==> n == |obj| || obj[n].0 == 0
      ensures !ok ==> obj[n].0 in table.Code() || table.Full()
    {
      hide AllNew, Added, Grown, Table.Valid, Table.Full;
      ok, n := true, 0;
      assert obj[..0] == [];
      NoneAdded(table.Code());
      AddedHas(table.Code(), []);
      for k := 0 to |obj|
        invariant Valid() && ok && n == k
        invariant AllNew(old(table.Code()), obj[..k]) && table.Code() == Added(old(table.Code()), obj[..k])
        invariant Grown(old(table.Code()), table.Code())
        invariant forall j :: 0 <= j < k ==> obj[j].0 in table.Code() && table.Code()[obj[j].0] == obj[j].1
      {
        if obj[k].0 == 0 {
          return;
        }
        ok := AddFunction(obj[k].0, obj[k].1);
        if !ok {
          return;
        }
        n := k + 1;
        AllNewMore(old(table.Code()), obj, k);
        AddedHas(old(table.Code()), obj[..k + 1]);
        assert forall j :: 0 <= j < k + 1 ==> obj[..k + 1][j] == obj[j];
      }
    }

    /** rtld_set for one function of an object. */
    method AddFunction(addr: nat, entry: nat) returns (ok: bool)
      requires Valid() && addr != 0
      modifies table, table.addrs, table.entries
      ensures Valid()
      ensures ok <==> addr !in old(table.Code()) && !old(table.Full())
      ensures table.Code() == if ok then old(table.Code())[addr := entry] else old(table.Code())
      ensures !ok ==> addr in table.Code() || table.Full()
    {
      hide Table.Valid, Table.Full;
      ghost var code := table.Code();
      FullIs(table);
      var r := table.Set(addr, entry);
      TagsStay(code, table.Code());
      ok := r == OK;
      FullIs(table);
    }

    /** resolve_func: `obj` is what the server would send, or None if that fails; None means that the client exits. */
    method Resolve(addr: nat, patch: Option<nat>, obj: Option<Object>) returns (func: Option<nat>)
      requires Valid()
      modifies this, table, table.addrs, table.entries
      ensures Valid() && Grown(old(table.Code()), table.Code())
      ensures var a := if patch.Some? then patch.value else addr;
        && (func.Some? ==> a in table.Code() && table.Code()[a] == func.value)
        && (a in old(table.Code()) ==> func.Some?)
        && tags == (if func.Some? && !trace then old(tags)[TlbHash(a) := a] else old(tags))
    {
      var a := if patch.Some? then patch.value else addr;
      func := table.Resolve(a);
      if func.None? {
        if obj.None? {
          return;
        }
        var ok, _ := AddObject(obj.value);
        if !ok {
          return;
        }
        func := table.Resolve(a);
        if func.None? {
          return;
        }
      }
      if !trace {
        var h := TlbHash(a);
        tags := tags[h := a];
        funcs := funcs[h := func.value];
      }
    }

    /**
     * dispatch_cdecl: which function is called for a guest address. It is the
     * one of the table, except that an unused entry of the quick TLB answers
     * for address 0, with a null function.
     */
    method Dispatch(addr: nat, obj: Option<Object>) returns (func: Option<nat>)
      requires Valid()
      modifies this, table, table.addrs, table.entries
      ensures Valid() && Grown(old(table.Code()), table.Code())
      ensures func.Some? && addr in table.Code() ==> table.Code()[addr] == func.value
      ensures func.Some? && addr !in table.Code() <==> addr == 0 && old(tags[TlbHash(0)]) == 0
      ensures func.Some? && addr !in table.Code() ==> func.value == 0
      ensures addr in old(table.Code()) ==> func.Some?
      ensures tags == if func.Some? && !trace then old(tags)[TlbHash(addr) := addr] else old(tags)
    {
      ZeroAbsent(table);
      var h := TlbHash(addr);
      if tags[h] == addr {
        assert tags == tags[h := addr];
        return Some(funcs[h]);
      }
      func := Resolve(addr, None, obj);
      ZeroAbsent(table);
    }

    /**
     * The dispatch loop, until the client exits: every call of an address went to
     * the one entry that the table has for it. Calls of address 0 go to a null
     * function, and happen exactly as long as their entry of the quick TLB is unused.
     */
    method Run(addrs: seq<nat>, objects: seq<Option<Object>>) returns (called: seq<nat>)
      requires Valid() && |addrs| == |objects|
      modifies this, table, table.addrs, table.entries
      ensures Valid() && |called| <= |addrs|
      ensures forall k :: 0 <= k < |called| && addrs[k] != 0 ==> addrs[k] in table.Code() && table.Code()[addrs[k]] == called[k]
      ensures forall k :: 0 <= k < |called| && addrs[k] == 0 ==> called[k] == 0 && Unused(old(tags), trace, addrs, k)
      ensures |called| < |addrs| && addrs[|called|] == 0 ==> !Unused(old(tags), trace, addrs, |called|)
      ensures forall j, k :: 0 <= j < k < |called| && addrs[j] == addrs[k] ==> called[j] == called[k]
    {
      hide TlbHash, Table.Valid;
      called := [];
      for k := 0 to |addrs|
        invariant Valid() && |called| == k
        invariant forall j :: 0 <= j < k && addrs[j] != 0 ==> addrs[j] in table.Code() && table.Code()[addrs[j]] == called[j]
        invariant forall j :: 0 <= j < k && addrs[j] == 0 ==> called[j] == 0 && Unused(old(tags), trace, addrs, j)
        invariant tags[TlbHash(0)] == 0 <==> Unused(old(tags), trace, addrs, k)
      {
        UsedUp(old(tags), trace, addrs, k);
        var func := Dispatch(addrs[k], objects[k]);
        ZeroAbsent(table);
        if func.None? {
          return;
        }
        called := called + [func.value];
      }
    }
  }

  ghost predicate NoneFree(addrs: seq<nat>) {
    forall s :: 0 <= s < |addrs| ==> addrs[s] != 0
  }

  lemma FullIs(table: Table)
    requires table.Valid()
    ensures table.Full() <==> NoneFree(table.addrs[..])
  {
    var a := table.addrs[..];
    assert forall s :: 0 <= s < SLOTS ==> a[s] == table.addrs[s];
  }

  /** After the first `k` dispatches nothing was entered where address 0 belongs. */
  ghost predicate Unused(tags: seq<nat>, trace: bool, addrs: seq<nat>, k: nat)
    requires |tags| == TLB_SLOTS && k <= |addrs|
  {
    tags[TlbHash(0)] == 0 && (trace || forall j :: 0 <= j < k && addrs[j] != 0 ==> TlbHash(addrs[j]) != TlbHash(0))
  }

  lemma UsedUp(tags: seq<nat>, trace: bool, addrs: seq<nat>, k: nat)
    requires |tags| == TLB_SLOTS && k < |addrs|
    ensures Unused(tags, trace, addrs, k + 1) <==>
      Unused(tags, trace, addrs, k) && (trace || addrs[k] == 0 || TlbHash(addrs[k]) != TlbHash(0))
  {
    hide TlbHash;
  }

  /** Address 0 is never in the table. */
  lemma ZeroAbsent(table: Table)
    requires table.Valid()
    ensures 0 !in table.Code()
  {
  }

  /** A new dispatcher calls a null function for address 0. */
  method DispatchNull(trace: bool, obj: Option<Object>) returns (func: Option<nat>)
    ensures func == Some(0)
  {
    var d := new Dispatcher(trace);
    func := d.Dispatch(0, obj);
  }

  // ----------------------------------------------------- the assembly index

  function BitShift(a: bv64, off: nat): bv64 {
    if off == 1 then a >> 1 else if off == 2 then a >> 2 else if off == 3 then a >> 3 else a >> 4
  }

  function Mask(off: nat): bv64 {
    if off == 1 then 0x3ff << 1 else if off == 2 then 0x3ff << 2 else if off == 3 then 0x3ff << 3 else 0x3ff << 4
  }

  /** QUICK_TLB_IDXSCALE, as the shift that it stands for. */
  function Scaled(x: bv64, off: nat): bv64 {
    if off == 1 then x << 3 else if off == 2 then x << 2 else if off == 3 then x << 1 else x
  }

  /** Masking in place and scaling gives the byte offset of the entry that the hash names, for every permitted bit offset. */
  lemma AssemblyIndex(a: bv64, off: nat)
    requires 1 <= off <= 4
    ensures Scaled(a & Mask(off), off) == (BitShift(a, off) & 0x3ff) << 4
  {
  }

  function Bit(a: bv64): (b: nat)
    ensures b < 2
  {
    if a & 1 == 1 then 1 else 0
  }

  function Half(a: bv64): bv64 { a >> 1 }

  /** The number that the low `n` bits of a word stand for. */
  function Low(a: bv64, n: nat): nat {
    if n == 0 then 0 else Bit(a) + 2 * Low(Half(a), n - 1)
  }

  lemma LowHalf(a: bv64, n: nat)
    ensures Low(a, n + 1) / 2 == Low(Half(a), n)
  {
    hide Bit, Half;
  }

  lemma Low4(a: bv64, n: nat)
    ensures Low(a, n + 4) / 16 == Low(a >> 4, n)
  {
    HalfFour(a);
    LowHalf(a, n + 3);
    LowHalf(Half(a), n + 2);
    LowHalf(Half(Half(a)), n + 1);
    LowHalf(Half(Half(Half(a))), n);
    hide Low, Half;
  }

  lemma HalfFour(a: bv64)
    ensures Half(Half(Half(Half(a)))) == a >> 4
  {
  }

  lemma {:induction false} LowRem(a: bv64, n: nat, k: nat)
    requires k <= n
    ensures Low(a, n) % Pow2(k) == Low(a, k)
    decreases n
  {
    hide Bit, Half;
    if k > 0 {
      LowRem(Half(a), n - 1, k - 1);
      DoubleRem(Bit(a), Low(Half(a), n - 1), Pow2(k - 1));
    }
  }

  lemma DoubleRem(b: nat, x: nat, d: nat)
    requires b < 2 && d >= 1
    ensures (b + 2 * x) % (2 * d) == b + 2 * (x % d)
  {
    var q := x / d;
    assert x == d * q + x % d;
    assert b + 2 * x == (2 * d) * q + (b + 2 * (x % d));
    Unique(b + 2 * x, 2 * d, q, b + 2 * (x % d));
  }

  lemma Unique(x: nat, d: nat, q: nat, r: nat)
    requires x == d * q + r && r < d
    ensures x % d == r
  {
    QuotRem(x, d, q, r);
    QuotRem(x, d, x / d, x % d);
  }

  /** The hash on machine words is the hash on the numbers that they stand for. */
  lemma HashOfWord(a: bv64)
    ensures TlbHash(Low(a, 64)) == Low((a >> 4) & 0x3ff, 10)
  {
    Low4(a, 60);
    LowRem(a >> 4, 60, 10);
    TlbHashIs(Low(a, 64));
    TenOnes();
    LowMasked(a >> 4, 0x3ff, 10);
    hide *;
  }

  lemma TlbHashIs(x: nat)
    ensures TlbHash(x) == x / 16 % Pow2(10)
  {
    assert Pow2(4) == 16 && Pow2(10) == 1024;
    QuotRem(x, 16, x / 16, x % 16);
  }

  /** The low `n` bits of a mask are set. */
  predicate Ones(m: bv64, n: nat) {
    n > 0 ==> Bit(m) == 1 && Ones(Half(m), n - 1)
  }

  lemma TenOnes()
    ensures Ones(0x3ff, 10)
  {
    assert Ones(0, 0) && Ones(1, 1) && Ones(3, 2) && Ones(7, 3) && Ones(0xf, 4) && Ones(0x1f, 5);
    assert Ones(0x3f, 6) && Ones(0x7f, 7) && Ones(0xff, 8) && Ones(0x1ff, 9);
  }

  lemma {:induction false} LowMasked(x: bv64, m: bv64, n: nat)
    requires Ones(m, n)
    ensures Low(x & m, n) == Low(x, n)
    decreases n
  {
    hide Bit, Half;
    if n > 0 {
      LowMasked(Half(x), Half(m), n - 1);
      MaskedBit(x, m);
    }
  }

  lemma MaskedBit(x: bv64, m: bv64)
    ensures Half(x & m) == Half(x) & Half(m) && (Bit(m) == 1 ==> Bit(x & m) == Bit(x))
  {
  }
}
