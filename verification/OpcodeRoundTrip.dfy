/**
 * The decoder reads back the prefixes, escapes and VEX fields of every opcode
 * word whose opcode byte cannot be mistaken for one of them.
 */
module OpcodeRoundTrip {
  import opened OpcodeBytes
  import opened PrefixDecode

  /** The VEX fields of an opcode word as the decoder has them. */
  function VexBits(o: Opc): Byte {
    If(o.rexr, REXR) | If(o.rexx, REXX) | If(o.rexb, REXB) | If(o.rexw, REXW) | If(o.vexl, VEXL)
  }

  /** What the decoder should know in front of the opcode byte. Of two contradicting prefixes the effective one counts. */
  function HeadFor(o: Opc): Head
    requires ValidOpc(o)
  {
    var seg := if o.seg == 5 || o.seg == 6 then o.seg else 0;
    var off := |PrefixBytes(o)| + |Middle(o)|;
    if o.vex then
      Head(seg, o.p67, false, o.p66 && !o.f2 && !o.f3, if o.f2 then 3 else if o.f3 then 2 else 0, VexBits(o), o.escape + 4, o.vexop, off)
    else
      Head(seg, o.p67, o.lock, o.p66, if o.f3 then 2 else if o.f2 then 3 else 0, if NeedsRex(o) then RexByte(o) else 0, o.escape, 0, off)
  }

  /** The segment is one of the six, and what follows prefixes and escapes is none itself. */
  predicate Plain(o: Opc) {
    && o.seg != 7
    && (!o.vex && o.escape == 0 ==> !IsPrefix(o.op) && o.op != 0x0f && o.op & 0xfe != 0xc4)
    && (!o.vex && o.escape == 1 ==> o.op != 0x38 && o.op != 0x3a)
  }

  lemma Vex3Fields(o: Opc)
    requires ValidOpc(o) && o.vex && NeedsVex3(o)
    ensures Vex1(o) & 0x1c == 0 && EscapeOf(Vex1(o)) == o.escape
    ensures (Vex1(o) & 0x80 == 0) == o.rexr && (Vex1(o) & 0x40 == 0) == o.rexx && (Vex1(o) & 0x20 == 0) == o.rexb
    ensures (Vex2(o) & 0x80 != 0) == o.rexw
  {
  }

  lemma Vex2Fields(o: Opc)
    requires ValidOpc(o) && o.vex && !NeedsVex3(o)
    ensures (Vex2(o) & 0x80 == 0) == o.rexr && !o.rexw && !o.rexx && !o.rexb && o.escape == 1
  {
  }

  lemma LastVexFields(o: Opc)
    requires ValidOpc(o) && o.vex
    ensures Vex2(o) & 3 == VexPP(o) && (Vex2(o) & 4 != 0) == o.vexl && ((Vex2(o) & 0x78) >> 3) ^ 0xf == o.vexop
    ensures (Vex2(o) & 2 != 0) == (o.f2 || o.f3)
  {
  }

  lemma VexHeadIs(o: Opc, s: Seen, rex: Byte, off: nat)
    requires ValidOpc(o) && o.vex && s == SeenOf(o) && off == |PrefixBytes(o)| + |Middle(o)|
    requires rex == If(o.rexr, REXR) | If(o.rexx, REXX) | If(o.rexb, REXB) | If(o.rexw, REXW)
    ensures VexHead(s, rex, o.escape, Vex2(o), off) == HeadFor(o)
  {
    LastVexFields(o);
    hide Vex2, PrefixBytes, Middle;
  }

  lemma VexReadBack(o: Opc, buf: seq<Byte>, len: nat)
    requires ValidOpc(o) && o.vex && |PrefixBytes(o)| + |Middle(o)| < len <= |buf|
    requires buf[|PrefixBytes(o)|..|PrefixBytes(o)| + |Middle(o)|] == Middle(o)
    ensures HeadAt(buf, len, SeenOf(o)) == Ok(HeadFor(o))
  {
    var s, off := SeenOf(o), |PrefixBytes(o)|;
    var m := Middle(o);
    hide PrefixBytes, Vex1, Vex2, HeadFor;
    if NeedsVex3(o) {
      Vex3Fields(o);
      assert buf[off] == m[0] && buf[off + 1] == m[1] && buf[off + 2] == m[2];
      assert m[0] == 0xc4 && m[1] == Vex1(o) && m[2] == Vex2(o);
      var bits := If(o.rexr, REXR) | If(o.rexx, REXX) | If(o.rexb, REXB) | If(o.rexw, REXW);
      VexHeadIs(o, s, bits, off + 3);
    } else {
      Vex2Fields(o);
      assert buf[off] == m[0] && buf[off + 1] == m[1];
      assert m[0] == 0xc5 && m[1] == Vex2(o);
      var bits := If(o.rexr, REXR) | If(o.rexx, REXX) | If(o.rexb, REXB) | If(o.rexw, REXW);
      assert bits == If(o.rexr, REXR);
      VexHeadIs(o, s, bits, off + 2);
    }
  }

  lemma PlainReadBack(o: Opc, buf: seq<Byte>, len: nat)
    requires ValidOpc(o) && !o.vex && Plain(o) && |PrefixBytes(o)| + |Middle(o)| < len <= |buf|
    requires buf[|PrefixBytes(o)|..|PrefixBytes(o)| + |Middle(o)|] == Middle(o) && buf[|PrefixBytes(o)| + |Middle(o)|] == o.op
    ensures HeadAt(buf, len, SeenOf(o)) == Ok(HeadFor(o))
  {
    var off, m := |PrefixBytes(o)|, Middle(o);
    hide PrefixBytes, RexByte, IsPrefix;
    if o.escape >= 1 { assert buf[off] == m[0] == 0x0f; }
    if o.escape >= 2 { assert buf[off + 1] == m[1]; }
  }

  ghost predicate Buffered(o: Opc, rest: seq<Byte>, buf: seq<Byte>, len: nat) {
    && ValidOpc(o) && buf == OpcBytes(o) + rest && len == if |buf| > 15 then 15 else |buf|
  }

  lemma FirstIsOp(o: Opc)
    ensures OpcodePart(o) != [] && OpcodePart(o)[0] == o.op
  {
  }

  lemma Positions(o: Opc, rest: seq<Byte>, buf: seq<Byte>, len: nat)
    requires Buffered(o, rest, buf, len)
    ensures var p, m := |PrefixBytes(o)|, |Middle(o)|;
      && p + m < len <= |buf| && p + |OpcodePart(o)| + m <= len
      && buf[0..p] == PrefixBytes(o) && buf[p..p + m] == Middle(o) && buf[p + m] == o.op
  {
    hide PrefixBytes, Middle, OpcSize, OpcodePart, ValidOpc;
    SizeIsCount(o);
    FirstIsOp(o);
    Slices(PrefixBytes(o), Middle(o), OpcodePart(o), rest);
  }

  lemma Slices(a: seq<Byte>, b: seq<Byte>, c: seq<Byte>, d: seq<Byte>)
    ensures var s := a + b + c + d;
      s[0..|a|] == a && s[|a|..|a| + |b|] == b && (c != [] ==> s[|a| + |b|] == c[0])
  {
  }

  /** Up to the end of the encoder's prefixes. */
  lemma ScanStart(o: Opc, rest: seq<Byte>, buf: seq<Byte>, len: nat)
    requires Buffered(o, rest, buf, len) && o.seg != 7
    ensures Scan(buf, len, START) == Scan(buf, len, SeenOf(o))
  {
    Positions(o, rest, buf, len);
    PrefixesAll(o);
    PrefixesSeen(o);
    hide PrefixBytes, Middle, OpcodePart, AllPrefixes, ApplyAll;
    ScanAll(buf, len, START, PrefixBytes(o));
  }

  lemma {:induction false} ScanGrows(buf: seq<Byte>, len: nat, s: Seen)
    requires len <= |buf|
    ensures Scan(buf, len, s).off >= s.off
    decreases len - s.off
  {
    if s.off < len && IsPrefix(buf[s.off]) {
      ScanGrows(buf, len, Apply(buf[s.off], s));
    }
  }

  lemma HeadGrows(buf: seq<Byte>, len: nat, s: Seen)
    requires len <= |buf|
    ensures HeadAt(buf, len, s).Ok? ==> HeadAt(buf, len, s).value.off >= s.off
    ensures HeadAt(buf, len, s).Ok? && s.off < len && buf[s.off] & 0xfe == 0xc4 ==> HeadAt(buf, len, s).value.escape >= 4
  {
  }

  lemma NotPrefix()
    ensures !IsPrefix(0x0f) && !IsPrefix(0xc4) && !IsPrefix(0xc5)
  {
  }

  lemma ScanStops(buf: seq<Byte>, len: nat, s: Seen)
    requires s.off < len <= |buf| && !IsPrefix(buf[s.off])
    ensures Scan(buf, len, s) == s
  {
  }

  /** Behind the prefixes stands no prefix. */
  lemma ScanEnds(o: Opc, rest: seq<Byte>, buf: seq<Byte>, len: nat)
    requires Buffered(o, rest, buf, len) && o.seg != 7 && (!o.vex && o.escape == 0 ==> !IsPrefix(o.op))
    ensures Scan(buf, len, SeenOf(o)) == SeenOf(o)
    ensures !o.vex && o.escape > 0 ==> buf[|PrefixBytes(o)|] == 0x0f
  {
    Positions(o, rest, buf, len);
    MiddleFirst(o);
    var p, m := |PrefixBytes(o)|, Middle(o);
    assert SeenOf(o).off == p;
    hide *;
    if |m| > 0 {
      assert buf[p] == buf[p..p + |m|][0];
    }
    ScanStops(buf, len, SeenOf(o));
  }

  lemma MiddleFirst(o: Opc)
    requires ValidOpc(o)
    ensures |Middle(o)| > 0 ==> !IsPrefix(Middle(o)[0])
    ensures |Middle(o)| == 0 <==> !o.vex && o.escape == 0
    ensures !o.vex && o.escape > 0 ==> Middle(o)[0] == 0x0f
  {
    NotPrefix();
    hide IsPrefix;
  }

  lemma ReadsBack(o: Opc, rest: seq<Byte>)
    requires ValidOpc(o) && Plain(o)
    ensures DecodeHead(OpcBytes(o) + rest) == Ok(HeadFor(o))
  {
    var buf := OpcBytes(o) + rest;
    var len := if |buf| > 15 then 15 else |buf|;
    Positions(o, rest, buf, len);
    ScanStart(o, rest, buf, len);
    ScanEnds(o, rest, buf, len);
    hide OpcBytes, PrefixBytes, Middle, HeadFor, HeadAt, Scan, Plain;
    if o.vex { VexReadBack(o, buf, len); } else { PlainReadBack(o, buf, len); }
  }

  /** A byte of zero is written for the eighth segment, and taken for the opcode. */
  lemma NoSuchSegment(o: Opc, rest: seq<Byte>, buf: seq<Byte>, len: nat)
    requires Buffered(o, rest, buf, len) && o.seg == 7
    ensures HeadAt(buf, len, Scan(buf, len, START)) != Ok(HeadFor(o))
  {
    Positions(o, rest, buf, len);
    assert PrefixBytes(o)[0] == 0;
    hide OpcBytes, PrefixBytes, Middle, OpcodePart;
    assert buf[0] == buf[0..|PrefixBytes(o)|][0];
    assert !IsPrefix(buf[0]);
    ScanStops(buf, len, START);
  }

  /** The opcode byte is taken for a prefix. */
  lemma TakenForPrefix(o: Opc, rest: seq<Byte>, buf: seq<Byte>, len: nat)
    requires Buffered(o, rest, buf, len) && o.seg != 7 && !o.vex && o.escape == 0 && IsPrefix(o.op)
    ensures HeadAt(buf, len, Scan(buf, len, START)) != Ok(HeadFor(o))
  {
    Positions(o, rest, buf, len);
    ScanStart(o, rest, buf, len);
    var s := SeenOf(o);
    var s' := Apply(o.op, s);
    assert Scan(buf, len, s) == Scan(buf, len, s');
    ScanGrows(buf, len, s');
    hide OpcBytes, PrefixBytes, Middle, OpcodePart, RexByte, NeedsRex, HeadAt, Scan, IsPrefix;
    HeadGrows(buf, len, Scan(buf, len, s'));
    assert s'.off > HeadFor(o).off by { NoMiddle(o); }
  }

  lemma NoMiddle(o: Opc)
    requires ValidOpc(o) && !o.vex && o.escape == 0
    ensures HeadFor(o).off == |PrefixBytes(o)|
  {
  }

  /** The opcode byte is taken for an escape, or for the start of a VEX prefix. */
  lemma TakenForEscape(o: Opc, rest: seq<Byte>, buf: seq<Byte>, len: nat)
    requires Buffered(o, rest, buf, len) && o.seg != 7 && !Plain(o) && !(o.escape == 0 && IsPrefix(o.op))
    ensures HeadAt(buf, len, Scan(buf, len, START)) != Ok(HeadFor(o))
  {
    Positions(o, rest, buf, len);
    ScanStart(o, rest, buf, len);
    ScanEnds(o, rest, buf, len);
    HeadGrows(buf, len, SeenOf(o));
    hide OpcBytes, PrefixBytes, OpcodePart, RexByte, NeedsRex, VexOf, Scan, IsPrefix;
  }

  lemma Misread(o: Opc, rest: seq<Byte>)
    requires ValidOpc(o) && !Plain(o)
    ensures DecodeHead(OpcBytes(o) + rest) != Ok(HeadFor(o))
  {
    var buf := OpcBytes(o) + rest;
    var len := if |buf| > 15 then 15 else |buf|;
    hide OpcBytes, HeadFor, HeadAt, Scan, IsPrefix;
    if o.seg == 7 {
      NoSuchSegment(o, rest, buf, len);
    } else if o.escape == 0 && IsPrefix(o.op) {
      TakenForPrefix(o, rest, buf, len);
    } else {
      TakenForEscape(o, rest, buf, len);
    }
  }

  /** For every opcode word: the decoder reads back exactly what was written, if and only if the word is plain. */
  lemma HeadRoundTrip(o: Opc, rest: seq<Byte>)
    requires ValidOpc(o)
    ensures DecodeHead(OpcBytes(o) + rest) == Ok(HeadFor(o)) <==> Plain(o)
  {
    if Plain(o) { ReadsBack(o, rest); } else { Misread(o, rest); }
  }

  /** All opcode words that the bytes could begin with. */
  lemma HeadsReadBack(buf: seq<Byte>)
    ensures forall o: Opc :: ValidOpc(o) && OpcBytes(o) <= buf ==> (DecodeHead(buf) == Ok(HeadFor(o)) <==> Plain(o))
  {
    hide OpcBytes, DecodeHead, HeadFor, Plain, ValidOpc;
    forall o: Opc | ValidOpc(o) && OpcBytes(o) <= buf ensures DecodeHead(buf) == Ok(HeadFor(o)) <==> Plain(o) {
      var rest := buf[|OpcBytes(o)|..];
      assert buf == OpcBytes(o) + rest;
      HeadRoundTrip(o, rest);
    }
  }

  /** The VEX prefix, byte by byte. */
  method ReadVex(buf: seq<Byte>, len: nat, s: Seen, rex0: Byte) returns (r: Result<Head>)
    requires s.off + 1 < len <= |buf|
    ensures r == VexOf(buf, len, s, rex0)
  {
    hide EscapeOf, If;
    if s.p66 || s.rep != 0 || rex0 != 0 {
      return Err(UD);
    }
    if buf[s.off] == 0xc4 {
      r := ReadVex3(buf, len, s);
      return;
    }
    return Ok(VexHead(s, If(buf[s.off + 1] & 0x80 == 0, REXR), 1, buf[s.off + 1], s.off + 2));
  }

  method ReadInverted(byte: Byte) returns (rex: Byte)
    ensures rex == InvertedBits(byte)
  {
    hide If;
    rex := If(byte & 0x80 == 0, REXR);
    rex := rex | If(byte & 0x40 == 0, REXX);
    rex := rex | If(byte & 0x20 == 0, REXB);
  }

  method ReadVex3(buf: seq<Byte>, len: nat, s: Seen) returns (r: Result<Head>)
    requires s.off + 1 < len <= |buf| && buf[s.off] == 0xc4 && !s.p66 && s.rep == 0
    ensures r == VexOf(buf, len, s, 0)
  {
    hide EscapeOf, If, VexHead, InvertedBits;
    var byte := buf[s.off + 1];
    var rex := ReadInverted(byte);
    if byte & 0x1c != 0 {
      return Err(UD);
    }
    var escape := EscapeOf(byte);
    if s.off + 2 >= len {
      return Err(PARTIAL);
    }
    byte := buf[s.off + 2];
    rex := rex | If(byte & 0x80 != 0, REXW);
    return Ok(VexHead(s, rex, escape, byte, s.off + 3));
  }

  /**
   * fd_decode up to the opcode byte, step by step: whatever opcode word the
   * bytes begin with, its head is what is found, if and only if it is plain.
   */
  method ReadHead(buf: seq<Byte>) returns (r: Result<Head>)
    ensures r == DecodeHead(buf)
    ensures forall o: Opc :: ValidOpc(o) && OpcBytes(o) <= buf ==> (r == Ok(HeadFor(o)) <==> Plain(o))
  {
    hide OpcBytes, HeadFor, Plain, ValidOpc;
    HeadsReadBack(buf);
    r := ReadHeadBytes(buf);
  }

  method ReadHeadBytes(buf: seq<Byte>) returns (r: Result<Head>)
    ensures r == DecodeHead(buf)
  {
    var len := if |buf| > 15 then 15 else |buf|;
    var s := ScanPrefixes(buf, len);
    hide Scan, VexOf;
    var off, rex, escape := s.off, s.rex, 0;
    // REX counts only as the last prefix.
    if s.rexOff != off - 1 {
      rex := 0;
    }
    if off >= len {
      return Err(PARTIAL);
    }
    if buf[off] == 0x0f {
      if off + 1 >= len {
        return Err(PARTIAL);
      }
      escape := if buf[off + 1] == 0x38 then 2 else if buf[off + 1] == 0x3a then 3 else 1;
      off := off + if escape >= 2 then 2 else 1;
    } else if buf[off] & 0xfe == 0xc4 {
      if off + 1 >= len {
        return Err(PARTIAL);
      }
      r := ReadVex(buf, len, s, rex);
      return;
    }
    return Ok(Head(s.seg, s.addr32, s.lock, s.p66, s.rep, rex, escape, 0, off));
  }
}
