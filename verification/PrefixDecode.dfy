/**
 * The front of fd_decode in 64-bit mode: legacy prefixes, REX, escape bytes
 * and the VEX prefix, up to the opcode byte; and that it reads back what
 * enc_opc writes.
 */
module PrefixDecode {
  import opened OpcodeBytes

  datatype Error = PARTIAL | UD

  datatype Result<+T> = Ok(value: T) | Err(error: Error)

  /** Prefixes so far. `seg` is 5 for FS, 6 for GS, 0 for none; `rep` is 2 for F3, 3 for F2. */
  datatype Seen = Seen(seg: nat, addr32: bool, lock: bool, p66: bool, rep: Byte, rex: Byte, rexOff: int, off: nat)

  const START: Seen := Seen(0, false, false, false, 0, 0, -1, 0)

  predicate IsRex(b: Byte) {
    b & 0xf0 == 0x40
  }

  predicate IsPrefix(b: Byte) {
    || b == 0x26 || b == 0x2e || b == 0x36 || b == 0x3e || b == 0x64 || b == 0x65
    || b == 0x66 || b == 0x67 || b == 0xf0 || b == 0xf2 || b == 0xf3 || IsRex(b)
  }

  /** One prefix byte. Overrides with ES, CS, SS and DS are ignored. */
  function Apply(b: Byte, s: Seen): Seen {
    var s' := s.(off := s.off + 1);
    if b == 0x64 then s'.(seg := 5)
    else if b == 0x65 then s'.(seg := 6)
    else if b == 0x66 then s'.(p66 := true)
    else if b == 0x67 then s'.(addr32 := true)
    else if b == 0xf0 then s'.(lock := true)
    else if b == 0xf3 then s'.(rep := 2)
    else if b == 0xf2 then s'.(rep := 3)
    else if IsRex(b) then s'.(rex := b, rexOff := s.off)
    else s'
  }

  function Scan(buf: seq<Byte>, len: nat, s: Seen): Seen
    requires len <= |buf|
    decreases len - s.off
  {
    if s.off < len && IsPrefix(buf[s.off]) then Scan(buf, len, Apply(buf[s.off], s)) else s
  }

  method ScanPrefixes(buf: seq<Byte>, len: nat) returns (s: Seen)
    requires len <= |buf|
    ensures s == Scan(buf, len, START)
  {
    s := START;
    while s.off < len && IsPrefix(buf[s.off])
      invariant Scan(buf, len, s) == Scan(buf, len, START)
      decreases len - s.off
    {
      s := Apply(buf[s.off], s);
    }
  }

  /** What is known in front of the opcode byte at `off`. `escape` is the index into the root table. */
  datatype Head = Head(seg: nat, addr32: bool, lock: bool, p66: bool, rep: Byte, rex: Byte, escape: nat, vexOperand: Byte, off: nat)

  const REXB: Byte := 0x01
  const REXX: Byte := 0x02
  const REXR: Byte := 0x04
  const REXW: Byte := 0x08
  const VEXL: Byte := 0x10

  function EscapeOf(b: Byte): nat {
    if b & 3 == 0 then 0 else if b & 3 == 1 then 1 else if b & 3 == 2 then 2 else 3
  }

  /** The last byte of a VEX prefix, with what the earlier ones said. */
  function VexHead(s: Seen, rex: Byte, escape: nat, b: Byte, off: nat): Head {
    Head(s.seg, s.addr32, s.lock, b & 3 == 1, if b & 2 != 0 then b & 3 else 0,
         rex | If(b & 4 != 0, VEXL), escape + 4, ((b & 0x78) >> 3) ^ 0xf, off)
  }

  /** R, X and B of a VEX prefix, which are stored inverted. */
  function InvertedBits(b: Byte): Byte {
    If(b & 0x80 == 0, REXR) | If(b & 0x40 == 0, REXX) | If(b & 0x20 == 0, REXB)
  }

  function VexOf(buf: seq<Byte>, len: nat, s: Seen, rex: Byte): Result<Head>
    requires s.off + 1 < len <= |buf|
  {
    var b1 := buf[s.off + 1];
    if s.p66 || s.rep != 0 || rex != 0 then Err(UD)
    else if buf[s.off] == 0xc4 then
      if b1 & 0x1c != 0 then Err(UD)
      else if s.off + 2 >= len then Err(PARTIAL)
      else
        var b2 := buf[s.off + 2];
        Ok(VexHead(s, InvertedBits(b1) | If(b2 & 0x80 != 0, REXW), EscapeOf(b1), b2, s.off + 3))
    else Ok(VexHead(s, If(b1 & 0x80 == 0, REXR), 1, b1, s.off + 2))
  }

  /** What follows the prefixes: an escape, a VEX prefix or the opcode itself. */
  function HeadAt(buf: seq<Byte>, len: nat, s: Seen): Result<Head>
    requires len <= |buf|
  {
    var rex := if s.rexOff != s.off - 1 then 0 else s.rex;
    if s.off >= len then Err(PARTIAL)
    else if buf[s.off] == 0x0f then
      if s.off + 1 >= len then Err(PARTIAL)
      else
        var escape := if buf[s.off + 1] == 0x38 then 2 else if buf[s.off + 1] == 0x3a then 3 else 1;
        Ok(Head(s.seg, s.addr32, s.lock, s.p66, s.rep, rex, escape, 0, s.off + if escape >= 2 then 2 else 1))
    else if buf[s.off] & 0xfe == 0xc4 then
      if s.off + 1 >= len then Err(PARTIAL) else VexOf(buf, len, s, rex)
    else Ok(Head(s.seg, s.addr32, s.lock, s.p66, s.rep, rex, 0, 0, s.off))
  }

  function DecodeHead(buf: seq<Byte>): Result<Head> {
    var len := if |buf| > 15 then 15 else |buf|;
    HeadAt(buf, len, Scan(buf, len, START))
  }

  // ------------------------------------------------ prefixes read back

  function ApplyAll(bs: seq<Byte>, s: Seen): Seen {
    if bs == [] then s else ApplyAll(bs[1..], Apply(bs[0], s))
  }

  lemma {:induction false} ApplyBoth(a: seq<Byte>, b: seq<Byte>, s: Seen)
    ensures ApplyAll(a + b, s) == ApplyAll(b, ApplyAll(a, s))
  {
    if a == [] {
      assert a + b == b;
    } else {
      ApplyBoth(a[1..], b, Apply(a[0], s));
      assert (a + b)[1..] == a[1..] + b;
    }
  }

  lemma ApplyNone(s: Seen)
    ensures ApplyAll([], s) == s
  {
  }

  lemma ApplyOpt(c: bool, b: Byte, s: Seen)
    ensures ApplyAll(Opt(c, b), s) == if c then Apply(b, s) else s
  {
    if c {
      assert [b][1..] == [];
    }
  }

  ghost predicate AllPrefixes(bs: seq<Byte>) {
    forall k :: 0 <= k < |bs| ==> IsPrefix(bs[k])
  }

  lemma {:induction false} ScanAll(buf: seq<Byte>, len: nat, s: Seen, bs: seq<Byte>)
    requires AllPrefixes(bs) && s.off + |bs| <= len <= |buf| && buf[s.off..s.off + |bs|] == bs
    ensures Scan(buf, len, s) == Scan(buf, len, ApplyAll(bs, s)) && ApplyAll(bs, s).off == s.off + |bs|
    decreases |bs|
  {
    if bs != [] {
      assert buf[s.off] == bs[0];
      var s' := Apply(bs[0], s);
      assert buf[s'.off..s'.off + |bs[1..]|] == bs[1..];
      ScanAll(buf, len, s', bs[1..]);
    }
  }

  /** What the prefixes that the encoder writes say. */
  function SeenOf(o: Opc): Seen {
    Seen(if o.seg == 5 || o.seg == 6 then o.seg else 0, o.p67, !o.vex && o.lock, !o.vex && o.p66,
         if o.vex then 0 else if o.f3 then 2 else if o.f2 then 3 else 0,
         if !o.vex && NeedsRex(o) then RexByte(o) else 0,
         if !o.vex && NeedsRex(o) then |PrefixBytes(o)| - 1 else -1,
         |PrefixBytes(o)|)
  }

  lemma RexIsRex(o: Opc)
    ensures IsRex(RexByte(o)) && IsPrefix(RexByte(o))
    ensures RexByte(o) != 0x64 && RexByte(o) != 0x65 && RexByte(o) != 0x66 && RexByte(o) != 0x67 &&
      RexByte(o) != 0xf0 && RexByte(o) != 0xf3 && RexByte(o) != 0xf2
  {
  }

  lemma {:induction false} OffOf(bs: seq<Byte>, s: Seen)
    ensures ApplyAll(bs, s).off == s.off + |bs|
  {
    if bs != [] {
      OffOf(bs[1..], Apply(bs[0], s));
    }
  }

  lemma LegacySeen(o: Opc, s: Seen)
    requires s.rep == 0 && !s.p66 && !s.lock && s.rex == 0 && s.rexOff == -1
    ensures ApplyAll(LegacyBytes(o), s) ==
      s.(lock := o.lock, p66 := o.p66, rep := if o.f3 then 2 else if o.f2 then 3 else 0, off := s.off + |LegacyBytes(o)|,
         rex := if NeedsRex(o) then RexByte(o) else 0, rexOff := if NeedsRex(o) then s.off + |LegacyBytes(o)| - 1 else -1)
  {
    OffOf(LegacyBytes(o), s);
    RexIsRex(o);
    hide RexByte, IsRex, NeedsRex, Opt, ApplyAll;
    var b1, b2, b3, b4, b5 := Opt(o.lock, 0xf0), Opt(o.p66, 0x66), Opt(o.f2, 0xf2), Opt(o.f3, 0xf3), Opt(NeedsRex(o), RexByte(o));
    ApplyBoth(b1 + b2 + b3 + b4, b5, s);
    ApplyBoth(b1 + b2 + b3, b4, s);
    ApplyBoth(b1 + b2, b3, s);
    ApplyBoth(b1, b2, s);
    ApplyOpt(o.lock, 0xf0, s);
    var s1 := ApplyAll(b1, s);
    ApplyOpt(o.p66, 0x66, s1);
    var s2 := ApplyAll(b2, s1);
    ApplyOpt(o.f2, 0xf2, s2);
    var s3 := ApplyAll(b3, s2);
    ApplyOpt(o.f3, 0xf3, s3);
    var s4 := ApplyAll(b4, s3);
    ApplyOpt(NeedsRex(o), RexByte(o), s4);
    OffOf(b1 + b2 + b3 + b4, s);
  }

  lemma PrefixesSeen(o: Opc)
    requires ValidOpc(o) && o.seg != 7
    ensures ApplyAll(PrefixBytes(o), START) == SeenOf(o)
  {
    hide LegacyBytes, Opt, NeedsRex, RexByte, ApplyAll;
    var b1, b2, b3 := Opt(o.seg != 0, SegByte(o.seg)), Opt(o.p67, 0x67), if o.vex then [] else LegacyBytes(o);
    ApplyBoth(b1 + b2, b3, START);
    ApplyBoth(b1, b2, START);
    ApplyOpt(o.seg != 0, SegByte(o.seg), START);
    ApplyOpt(o.p67, 0x67, ApplyAll(b1, START));
    OffOf(b1 + b2, START);
    if !o.vex {
      LegacySeen(o, ApplyAll(b1 + b2, START));
    } else {
      ApplyNone(ApplyAll(b1 + b2, START));
    }
  }

  lemma BothPrefixes(a: seq<Byte>, b: seq<Byte>)
    requires AllPrefixes(a) && AllPrefixes(b)
    ensures AllPrefixes(a + b)
  {
  }

  lemma OptPrefix(c: bool, b: Byte)
    requires c ==> IsPrefix(b)
    ensures AllPrefixes(Opt(c, b))
  {
  }

  lemma LegacyAll(o: Opc)
    ensures AllPrefixes(LegacyBytes(o))
  {
    RexIsRex(o);
    hide RexByte, NeedsRex, Opt, AllPrefixes;
    var b1, b2, b3, b4, b5 := Opt(o.lock, 0xf0), Opt(o.p66, 0x66), Opt(o.f2, 0xf2), Opt(o.f3, 0xf3), Opt(NeedsRex(o), RexByte(o));
    OptPrefix(o.lock, 0xf0);
    OptPrefix(o.p66, 0x66);
    BothPrefixes(b1, b2);
    OptPrefix(o.f2, 0xf2);
    BothPrefixes(b1 + b2, b3);
    OptPrefix(o.f3, 0xf3);
    BothPrefixes(b1 + b2 + b3, b4);
    OptPrefix(NeedsRex(o), RexByte(o));
    BothPrefixes(b1 + b2 + b3 + b4, b5);
  }

  lemma PrefixesAll(o: Opc)
    requires ValidOpc(o) && o.seg != 7
    ensures AllPrefixes(PrefixBytes(o))
  {
    assert AllPrefixes([]);
    hide LegacyBytes, Opt, AllPrefixes;
    var b1, b2 := Opt(o.seg != 0, SegByte(o.seg)), Opt(o.p67, 0x67);
    OptPrefix(o.seg != 0, SegByte(o.seg));
    OptPrefix(o.p67, 0x67);
    BothPrefixes(b1, b2);
    LegacyAll(o);
    BothPrefixes(b1 + b2, if o.vex then [] else LegacyBytes(o));
  }
}
