/**
 * The table of translated code: open addressing with linear probing that wraps
 * around, address 0 meaning empty. Entries are never removed or changed.
 */
module CodeTable {
  import opened Options

  const SLOTS: nat := 0x20000

  /** RTLD_HASH. */
  function Hash(addr: nat): (h: nat)
    ensures h < SLOTS
  {
    addr / 4 % SLOTS
  }

  /** The slot that is looked at in step `i`. */
  function Slot(h: nat, i: nat): (s: nat)
    requires h < SLOTS && i < SLOTS
    ensures s < SLOTS
  {
    if h + i < SLOTS then h + i else h + i - SLOTS
  }

  /** The step in which slot `s` is looked at. */
  function Dist(h: nat, s: nat): (i: nat)
    requires h < SLOTS && s < SLOTS
    ensures i < SLOTS && Slot(h, i) == s
  {
    if s >= h then s - h else s + SLOTS - h
  }

  lemma SlotOnce(h: nat, i: nat)
    requires h < SLOTS && i < SLOTS
    ensures Dist(h, Slot(h, i)) == i
  {
  }

  /** `at` says where each address is; the slots in front of it on its path are taken. */
  ghost predicate Probed(addrs: seq<nat>, at: map<nat, nat>) {
    && |addrs| == SLOTS
    && (forall a :: a in at ==> a != 0 && at[a] < SLOTS && addrs[at[a]] == a && Reached(addrs, a, at[a]))
    && (forall s :: 0 <= s < SLOTS && addrs[s] != 0 ==> addrs[s] in at && at[addrs[s]] == s)
  }

  ghost predicate Reached(addrs: seq<nat>, a: nat, s: nat)
    requires |addrs| == SLOTS && s < SLOTS
  {
    forall i: nat :: i < Dist(Hash(a), s) ==> addrs[Slot(Hash(a), i)] != 0
  }

  /** The first `i` slots on the path of `a` are taken by others. */
  ghost predicate Passed(addrs: seq<nat>, a: nat, i: nat)
    requires |addrs| == SLOTS && i <= SLOTS
  {
    forall j: nat :: j < i ==> addrs[Slot(Hash(a), j)] != 0 && addrs[Slot(Hash(a), j)] != a
  }

  /** An address that is there is not passed. */
  lemma NotPassed(addrs: seq<nat>, at: map<nat, nat>, a: nat, i: nat)
    requires Probed(addrs, at) && a in at && i <= SLOTS && Passed(addrs, a, i)
    ensures i <= Dist(Hash(a), at[a])
  {
    var d := Dist(Hash(a), at[a]);
    assert addrs[Slot(Hash(a), d)] == a;
  }

  /** An empty slot on its path: the address is not there. */
  lemma EmptyMeansAbsent(addrs: seq<nat>, at: map<nat, nat>, a: nat, i: nat)
    requires Probed(addrs, at) && a != 0 && i < SLOTS && Passed(addrs, a, i) && addrs[Slot(Hash(a), i)] == 0
    ensures a !in at
  {
    if a in at {
      NotPassed(addrs, at, a, i);
      assert false;
    }
  }

  /** The whole table passed: it is full, and the address is not there. */
  lemma AllPassed(addrs: seq<nat>, at: map<nat, nat>, a: nat)
    requires Probed(addrs, at) && Passed(addrs, a, SLOTS)
    ensures a !in at && forall s :: 0 <= s < SLOTS ==> addrs[s] != 0
  {
    if a in at {
      NotPassed(addrs, at, a, SLOTS);
      assert false;
    }
    forall s | 0 <= s < SLOTS ensures addrs[s] != 0 {
      assert Slot(Hash(a), Dist(Hash(a), s)) == s;
    }
  }

  /** Putting an address into the first empty slot of its path keeps every path intact. */
  lemma Put(addrs: seq<nat>, at: map<nat, nat>, a: nat, i: nat)
    requires Probed(addrs, at) && a != 0 && i < SLOTS && Passed(addrs, a, i) && addrs[Slot(Hash(a), i)] == 0
    ensures var s := Slot(Hash(a), i); Probed(addrs[s := a], at[a := s]) && a !in at
  {
    EmptyMeansAbsent(addrs, at, a, i);
    SlotOnce(Hash(a), i);
    var s := Slot(Hash(a), i);
    var addrs', at' := addrs[s := a], at[a := s];
    forall b | b in at' ensures b != 0 && at'[b] < SLOTS && addrs'[at'[b]] == b && Reached(addrs', b, at'[b]) {
      if b != a {
        assert Reached(addrs, b, at[b]);
      }
    }
  }

  /** Entries are only added. */
  ghost predicate Grown(old_: map<nat, nat>, new_: map<nat, nat>) {
    forall a :: a in old_ ==> a in new_ && new_[a] == old_[a]
  }

  datatype Status = OK | EINVAL | EEXIST | ENOSPC

  /** Rtld with its objects: the addresses, and for each the entry point. */
  class Table {
    const addrs: array<nat>
    const entries: array<nat>
    ghost var at: map<nat, nat>

    ghost predicate Valid()
      reads this, addrs, entries
    {
      addrs.Length == entries.Length == SLOTS && addrs != entries && Probed(addrs[..], at)
    }

    /** What the table stands for. */
    ghost function Code(): map<nat, nat>
      requires Valid()
      reads this, addrs, entries
    {
      map a | a in at :: entries[at[a]]
    }

    constructor ()
      ensures Valid() && Code() == map[] && fresh(addrs) && fresh(entries)
    {
      addrs := new nat[SLOTS](_ => 0);
      entries := new nat[SLOTS](_ => 0);
      at := map[];
    }

    ghost predicate Full()
      requires addrs.Length == SLOTS
      reads this, addrs
    {
      forall s :: 0 <= s < SLOTS ==> addrs[s] != 0
    }

    /** rtld_set. */
    method Set(addr: nat, entry: nat) returns (r: Status)
      requires Valid()
      modifies this, addrs, entries
      ensures Valid()
      ensures r == EINVAL <==> addr == 0
      ensures r == EEXIST <==> addr != 0 && addr in old(Code())
      ensures r == ENOSPC <==> addr != 0 && addr !in old(Code()) && old(Full())
      ensures Code() == if r == OK then old(Code())[addr := entry] else old(Code())
      ensures r != OK ==> addrs[..] == old(addrs[..])
    {
      if addr == 0 {
        return EINVAL;
      }
      var h := Hash(addr);
      hide Probed, Hash, Slot;
      for i := 0 to SLOTS
        invariant Valid() && Passed(addrs[..], addr, i) && at == old(at) && addrs[..] == old(addrs[..]) && entries[..] == old(entries[..])
      {
        var s := Slot(h, i);
        if addrs[s] == addr {
          Found(addrs[..], at, addr, s);
          return EEXIST;
        }
        if addrs[s] == 0 {
          Put(addrs[..], at, addr, i);
          Stored(entries[..], at, addr, s, entry, addrs[..]);
          entries[s] := entry;
          addrs[s] := addr;
          at := at[addr := s];
          return OK;
        }
      }
      AllPassed(addrs[..], at, addr);
      return ENOSPC;
    }

    /** rtld_resolve: finds exactly what was set. */
    method Resolve(addr: nat) returns (entry: Option<nat>)
      requires Valid()
      ensures entry == if addr in Code() then Some(Code()[addr]) else None
    {
      hide Probed, Hash, Slot;
      if addr == 0 {
        NoZero(addrs[..], at);
        return None;
      }
      var h := Hash(addr);
      for i := 0 to SLOTS
        invariant Passed(addrs[..], addr, i)
      {
        var s := Slot(h, i);
        if addrs[s] == 0 {
          EmptyMeansAbsent(addrs[..], at, addr, i);
          return None;
        }
        if addrs[s] == addr {
          Found(addrs[..], at, addr, s);
          return Some(entries[s]);
        }
      }
      AllPassed(addrs[..], at, addr);
      return None;
    }
  }

  lemma Found(addrs: seq<nat>, at: map<nat, nat>, a: nat, s: nat)
    requires Probed(addrs, at) && s < SLOTS && addrs[s] == a != 0
    ensures a in at && at[a] == s
  {
  }

  lemma NoZero(addrs: seq<nat>, at: map<nat, nat>)
    requires Probed(addrs, at)
    ensures 0 !in at
  {
  }

  /** Writing the entry of an empty slot changes none that is in use. */
  lemma Stored(entries: seq<nat>, at: map<nat, nat>, a: nat, s: nat, entry: nat, addrs: seq<nat>)
    requires Probed(addrs, at) && |entries| == SLOTS && s < SLOTS && addrs[s] == 0
    ensures forall b :: b in at ==> at[b] != s && at[b] < SLOTS
  {
  }
}
