/**
 * Messages as bytes: little-endian numbers and the eight-byte header of the
 * Instrew protocol.
 */
module Wire {

  type Byte = b: int | 0 <= b < 256

  function Pow256(k: nat): nat {
    if k == 0 then 1 else 256 * Pow256(k - 1)
  }

  function Le(n: nat, k: nat): (s: seq<Byte>)
    ensures |s| == k
  {
    if k == 0 then [] else [n % 256] + Le(n / 256, k - 1)
  }

  function UnLe(s: seq<Byte>): nat {
    if s == [] then 0 else s[0] + 256 * UnLe(s[1..])
  }

  lemma {:induction false} LeBack(n: nat, k: nat)
    requires n < Pow256(k)
    ensures UnLe(Le(n, k)) == n
  {
    if k > 0 {
      var s := Le(n, k);
      assert s[1..] == Le(n / 256, k - 1);
      LeBack(n / 256, k - 1);
    }
  }

  datatype Id = UNKNOWN | C_EXIT | C_TRANSLATE | S_MEMREQ | C_MEMBUF | S_OBJECT | C_INIT | S_INIT

  function IdNum(id: Id): nat {
    match id
    case UNKNOWN => 0
    case C_EXIT => 1
    case C_TRANSLATE => 2
    case S_MEMREQ => 3
    case C_MEMBUF => 4
    case S_OBJECT => 5
    case C_INIT => 9
    case S_INIT => 10
  }

  const INT32_MAX: nat := 0x7fff_ffff

  const HDR: nat := 8

  /** A header; the receiver sees numbers. */
  datatype Hdr = Hdr(id: int, sz: int)

  const NO_HDR: Hdr := Hdr(0, 0)

  function H(id: Id, sz: nat): (s: seq<Byte>)
    ensures |s| == HDR
  {
    Le(IdNum(id), 4) + Le(sz, 4)
  }

  /** A 32-bit number read as signed. */
  function Signed(n: nat): int {
    if n <= INT32_MAX then n else n - 0x1_0000_0000
  }

  function ReadHdr(s: seq<Byte>): Hdr
    requires |s| == HDR
  {
    Hdr(UnLe(s[..4]), Signed(UnLe(s[4..])))
  }

  /** A header is read as it was written. */
  lemma HdrBack(id: Id, sz: nat)
    requires sz <= INT32_MAX
    ensures ReadHdr(H(id, sz)) == Hdr(IdNum(id), sz)
  {
    var s := H(id, sz);
    assert s[..4] == Le(IdNum(id), 4) && s[4..] == Le(sz, 4);
    assert Pow256(4) == 0x1_0000_0000;
    LeBack(IdNum(id), 4);
    LeBack(sz, 4);
  }

  lemma AddrBack(a: nat)
    requires a < 0x1_0000_0000_0000_0000
    ensures UnLe(Le(a, 8)) == a
  {
    assert Pow256(4) == 0x1_0000_0000;
    assert Pow256(8) == 0x1_0000_0000_0000_0000;
    LeBack(a, 8);
  }

  /** Two numbers in a row. */
  lemma PairBack(a: nat, b: nat)
    requires a < 0x1_0000_0000_0000_0000 && b < 0x1_0000_0000_0000_0000
    ensures var s := Le(a, 8) + Le(b, 8); |s| == 16 && UnLe(s[..8]) == a && UnLe(s[8..]) == b
  {
    var s := Le(a, 8) + Le(b, 8);
    assert s[..8] == Le(a, 8) && s[8..] == Le(b, 8);
    AddrBack(a);
    AddrBack(b);
  }

  lemma Prefix(a: seq<Byte>, b: seq<Byte>)
    ensures (a + b)[..|a|] == a && (a + b)[|a|..] == b
  {
  }
}
