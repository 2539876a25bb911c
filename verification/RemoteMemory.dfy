/**
 * RemoteMemory: reading the client's memory page by page, with a cache that is
 * never invalidated.
 */
module RemoteMemory {
  import opened Options
  import opened Protocol
  import opened Wire

  /** The start of the page that an address lies in. */
  function PageOf(a: nat): nat {
    a - a % PAGE
  }

  /** The client's memory does not change; a byte can be read if its page can. */
  ghost predicate CanRead(e: Env, a: nat) {
    (e.page)(PageOf(a)).Some?
  }

  ghost function ByteAt(e: Env, a: nat): Byte
    requires ValidEnv(e) && CanRead(e, a)
  {
    (e.page)(PageOf(a)).value[a % PAGE]
  }

  /** Reading directly: from `start`, up to `end` or to the first byte that cannot be read. */
  ghost function Direct(e: Env, start: nat, end: nat): (s: seq<Byte>)
    requires ValidEnv(e) && start <= end
    ensures |s| <= end - start
    decreases end - start
  {
    if start == end || !CanRead(e, start) then [] else [ByteAt(e, start)] + Direct(e, start + 1, end)
  }

  /** `s` is what stands from `start` on, and all of it can be read. */
  ghost predicate Stands(e: Env, start: nat, s: seq<Byte>)
    requires ValidEnv(e)
  {
    forall a: nat :: start <= a < start + |s| ==> CanRead(e, a) && s[a - start] == ByteAt(e, a)
  }

  lemma {:induction false} DirectSplit(e: Env, start: nat, s: seq<Byte>, end: nat)
    requires ValidEnv(e) && Stands(e, start, s) && start + |s| <= end
    ensures Direct(e, start, end) == s + Direct(e, start + |s|, end)
    decreases |s|
  {
    hide PageOf;
    if s != [] {
      var rest := s[1..];
      assert CanRead(e, start) && s[0] == ByteAt(e, start);
      forall a: nat | start + 1 <= a < start + 1 + |rest| ensures CanRead(e, a) && rest[a - (start + 1)] == ByteAt(e, a) {
        assert s[a - start] == ByteAt(e, a);
      }
      DirectSplit(e, start + 1, rest, end);
      assert s == [s[0]] + rest;
      assert [s[0]] + (rest + Direct(e, start + |s|, end)) == s + Direct(e, start + |s|, end);
    }
  }

  /** All addresses of a page have the same start. */
  lemma SamePage(p: nat, i: nat)
    requires p % PAGE == 0 && i < PAGE
    ensures PageOf(p + i) == p && (p + i) % PAGE == i
  {
  }

  class Memory {
    ghost const e: Env
    /** Stands for the conversation with the client: what it answers for a page. */
    const ask: nat -> Option<seq<Byte>>
    var cache: map<nat, seq<Byte>>

    ghost predicate Valid()
      reads this
    {
      && ValidEnv(e) && ask == e.page
      && forall p :: p in cache ==> (e.page)(p) == Some(cache[p])
    }

    constructor (e: Env)
      requires ValidEnv(e)
      ensures Valid() && this.e == e && cache == map[]
    {
      this.e := e;
      ask, cache := e.page, map[];
    }

    /** GetPage: from the cache, or from the client; pages that cannot be read are not cached. */
    method GetPage(p: nat) returns (page: Option<seq<Byte>>)
      requires Valid()
      modifies `cache
      ensures Valid() && page == (e.page)(p) && cache == if page.Some? then old(cache)[p := page.value] else old(cache)
    {
      if p in cache {
        assert cache == cache[p := cache[p]];
        return Some(cache[p]);
      }
      page := ask(p);
      if page.Some? {
        cache := cache[p := page.value];
      }
    }

    /**
     * Get: bytes are copied page by page, with all sums modulo the address space.
     * The loop also looks at the page that `end` lies in when none of it is wanted.
     * In the last page the sum is zero: the page is copied to its end, and the
     * loop goes on with the first page. If it comes back to where it began, it
     * never ends, as nothing has changed.
     */
    method Get(start: nat, end: nat) returns (out: Outcome)
      requires Valid() && start <= end < SPACE
      modifies `cache
      ensures Valid()
      ensures out == Bytes(Direct(e, start, end)) <==> Ends(e, start, end)
      ensures out.Bytes? && !Ends(e, start, end) ==> Direct(e, start, end) <= out.bytes && |out.bytes| > end - start
      ensures out.Endless? <==> end >= SPACE - PAGE && AllReadable(e, 0, SPACE)
      ensures forall p :: p in old(cache) ==> p in cache
    {
      hide PageOf, Direct, Stands, Wrap, Going, Ends, AllReadable, ValidEnv;
      var buf := [];
      var cur := PageOf(start);
      ghost var pos: nat := cur;
      AtStart(e, start, end);
      var left: nat := SPACE / PAGE;
      while cur <= PageOf(end)
        invariant Valid() && cur == Wrap(pos) && pos + left * PAGE == PageOf(start) + SPACE
        invariant Going(e, start, end, pos, buf)
        invariant forall p :: p in old(cache) ==> p in cache
        decreases left
      {
        if left == 0 {
          GoneAround(e, start, end, pos, buf);
          return Endless;
        }
        var page := GetPage(cur);
        if page.None? {
          Halted(e, start, end, pos, buf);
          return Bytes(buf);
        }
        var startOff := if cur < start then start % PAGE else 0;
        var endOff := if Wrap(cur + PAGE) > end then end % PAGE else PAGE;
        Advanced(e, start, end, pos, buf, startOff, endOff);
        buf := buf + page.value[startOff..endOff];
        cur, pos, left := Wrap(cur + PAGE), pos + PAGE, left - 1;
      }
      Passed(e, start, end, pos, buf);
      return Bytes(buf);
    }
  }

  /** What a read comes to: bytes, or a loop without end. */
  datatype Outcome = Bytes(bytes: seq<Byte>) | Endless

  function Wrap(x: nat): (y: nat)
    ensures y < SPACE
  {
    x % SPACE
  }

  /** All pages from `lo` to `hi` can be read, where the first page follows the last one. */
  ghost predicate AllReadable(e: Env, lo: nat, hi: nat) {
    forall p: nat :: lo <= p < hi && p % PAGE == 0 ==> (e.page)(Wrap(p)).Some?
  }

  /** The read stops in time: its end is not in the last page, or it does not get as far as that. */
  ghost predicate Ends(e: Env, start: nat, end: nat) {
    end < SPACE - PAGE || !AllReadable(e, PageOf(start), SPACE)
  }

  function Reached(start: nat, end: nat, pos: nat): nat {
    if pos <= start then start else if pos <= end then pos else end
  }

  /** Before the page at `pos`, counted on beyond the end of the address space. */
  ghost predicate Going(e: Env, start: nat, end: nat, pos: nat, buf: seq<Byte>)
    requires ValidEnv(e) && start <= end < SPACE
  {
    && pos % PAGE == 0 && PageOf(start) <= pos && AllReadable(e, PageOf(start), pos)
    && (end < SPACE - PAGE ==> pos <= PageOf(end) + PAGE)
    && if pos < SPACE then start + |buf| == Reached(start, end, pos) && Stands(e, start, buf)
       else |buf| >= SPACE - start && Stands(e, start, buf[..SPACE - start])
  }

  lemma AtStart(e: Env, start: nat, end: nat)
    requires ValidEnv(e) && start <= end < SPACE
    ensures Going(e, start, end, PageOf(start), []) && PageOf(start) == Wrap(PageOf(start))
    ensures SPACE / PAGE * PAGE == SPACE
  {
    Multiples(start, PageOf(start));
    Multiples(end, PageOf(start));
  }

  lemma WrapBelow(x: nat)
    requires x < SPACE
    ensures Wrap(x) == x
  {
  }

  lemma WrapAround(x: nat)
    requires SPACE <= x < 2 * SPACE
    ensures Wrap(x) == x - SPACE
  {
  }

  lemma WrapNext(pos: nat)
    ensures Wrap(Wrap(pos) + PAGE) == Wrap(pos + PAGE)
  {
  }

  /** Aligned addresses and the end of the address space. */
  lemma LastMultiple(pos: nat)
    requires pos % PAGE == 0
    ensures pos < SPACE ==> pos <= SPACE - PAGE
  {
  }

  lemma OneMorePage(e: Env, lo: nat, pos: nat)
    requires pos % PAGE == 0 && AllReadable(e, lo, pos) && (e.page)(Wrap(pos)).Some?
    ensures AllReadable(e, lo, pos + PAGE) && (pos + PAGE) % PAGE == 0
  {
    hide Wrap;
    NextPage(pos);
    forall p: nat | lo <= p < pos + PAGE && p % PAGE == 0 ensures (e.page)(Wrap(p)).Some? {
      if p >= pos { assert p == pos by { Between(pos, p); } }
    }
  }

  lemma Between(pos: nat, p: nat)
    requires pos % PAGE == 0 && p % PAGE == 0 && pos <= p < pos + PAGE
    ensures p == pos
  {
  }

  /** One page is copied. */
  lemma Advanced(e: Env, start: nat, end: nat, pos: nat, buf: seq<Byte>, startOff: nat, endOff: nat)
    requires ValidEnv(e) && start <= end < SPACE && pos < PageOf(start) + SPACE && Going(e, start, end, pos, buf)
    requires Wrap(pos) <= PageOf(end) && (e.page)(Wrap(pos)).Some?
    requires startOff == if Wrap(pos) < start then start % PAGE else 0
    requires endOff == if Wrap(Wrap(pos) + PAGE) > end then end % PAGE else PAGE
    ensures Wrap(Wrap(pos) + PAGE) == Wrap(pos + PAGE) && startOff <= endOff <= PAGE == |(e.page)(Wrap(pos)).value|
    ensures Going(e, start, end, pos + PAGE, buf + (e.page)(Wrap(pos)).value[startOff..endOff])
  {
    hide Wrap, Stands, AllReadable, PageOf;
    WrapNext(pos);
    OneMorePage(e, PageOf(start), pos);
    LastMultiple(pos);
    Multiples(end, SPACE - PAGE);
    Multiples(start, pos);
    Multiples(end, pos);
    if pos >= SPACE {
      AdvancedAgain(e, start, end, pos, buf, startOff, endOff);
    } else if pos < SPACE - PAGE {
      WrapBelow(pos);
      AdvancedPlain(e, start, end, pos, buf, startOff, endOff);
    } else {
      WrapBelow(pos);
      AdvancedLast(e, start, end, pos, buf, startOff, endOff);
    }
  }

  lemma AdvancedPlain(e: Env, start: nat, end: nat, pos: nat, buf: seq<Byte>, startOff: nat, endOff: nat)
    requires ValidEnv(e) && start <= end < SPACE && pos < SPACE - PAGE && pos % PAGE == 0 && PageOf(start) <= pos <= PageOf(end)
    requires start + |buf| == Reached(start, end, pos) && Stands(e, start, buf)
    requires (e.page)(pos).Some?
    requires startOff == (if pos < start then start % PAGE else 0)
    requires endOff == if Wrap(pos + PAGE) > end then end % PAGE else PAGE
    ensures startOff <= endOff <= PAGE
    ensures var buf' := buf + (e.page)(pos).value[startOff..endOff];
      start + |buf'| == Reached(start, end, pos + PAGE) && Stands(e, start, buf')
  {
    WrapBelow(pos + PAGE);
    Offsets(start, end, pos);
    Multiples(start, pos);
    Multiples(end, pos);
    hide Wrap, Stands, PageOf;
    Copied(e, start, buf, pos, startOff, endOff);
  }

  /** In the last page everything to its end is copied. */
  lemma AdvancedLast(e: Env, start: nat, end: nat, pos: nat, buf: seq<Byte>, startOff: nat, endOff: nat)
    requires ValidEnv(e) && start <= end < SPACE && pos == SPACE - PAGE && pos <= PageOf(end)
    requires start + |buf| == Reached(start, end, pos) && Stands(e, start, buf) && PageOf(start) <= pos
    requires (e.page)(pos).Some?
    requires startOff == (if pos < start then start % PAGE else 0)
    requires endOff == if Wrap(pos + PAGE) > end then end % PAGE else PAGE
    ensures end >= SPACE - PAGE && startOff <= endOff == PAGE
    ensures var buf' := buf + (e.page)(pos).value[startOff..endOff]; |buf'| == SPACE - start && Stands(e, start, buf'[..SPACE - start])
  {
    WrapAround(SPACE);
    Multiples(end, pos);
    Multiples(start, pos);
    Offsets(start, end, pos);
    Copied(e, start, buf, pos, startOff, PAGE);
    var buf' := buf + (e.page)(pos).value[startOff..endOff];
    assert buf'[..|buf'|] == buf';
  }

  /** Behind the last page bytes are only added. */
  lemma AdvancedAgain(e: Env, start: nat, end: nat, pos: nat, buf: seq<Byte>, startOff: nat, endOff: nat)
    requires ValidEnv(e) && start <= end < SPACE && SPACE <= pos < PageOf(start) + SPACE && pos % PAGE == 0
    requires end >= SPACE - PAGE && (e.page)(Wrap(pos)).Some?
    requires |buf| >= SPACE - start && Stands(e, start, buf[..SPACE - start])
    requires startOff == if Wrap(pos) < start then start % PAGE else 0
    requires endOff == if Wrap(Wrap(pos) + PAGE) > end then end % PAGE else PAGE
    ensures startOff <= endOff == PAGE
    ensures var buf' := buf + (e.page)(Wrap(pos)).value[startOff..endOff];
      |buf'| >= SPACE - start && Stands(e, start, buf'[..SPACE - start])
  {
    WrapAround(pos);
    var cur := pos - SPACE;
    Multiples(start, cur);
    WrapBelow(cur + PAGE);
    var buf' := buf + (e.page)(Wrap(pos)).value[startOff..endOff];
    assert buf'[..SPACE - start] == buf[..SPACE - start];
  }

  /** A page cannot be read. */
  lemma Halted(e: Env, start: nat, end: nat, pos: nat, buf: seq<Byte>)
    requires ValidEnv(e) && start <= end < SPACE && Going(e, start, end, pos, buf)
    requires Wrap(pos) <= PageOf(end) && (e.page)(Wrap(pos)).None?
    ensures buf == Direct(e, start, end) <==> Ends(e, start, end)
    ensures !Ends(e, start, end) ==> Direct(e, start, end) <= buf && |buf| > end - start
    ensures !AllReadable(e, 0, SPACE)
  {
    WrapAligned(pos);
    WrapBelow(Wrap(pos));
    assert !AllReadable(e, 0, SPACE);
    if pos < SPACE {
      WrapBelow(pos);
      Multiples(end, pos);
      hide Wrap;
      Stopped(e, start, buf, end, pos);
      assert !AllReadable(e, PageOf(start), SPACE);
    } else {
      Exceeded(e, start, end, pos, buf);
    }
  }

  /** More bytes than were asked for, of which the first ones are right. */
  lemma Exceeded(e: Env, start: nat, end: nat, pos: nat, buf: seq<Byte>)
    requires ValidEnv(e) && start <= end < SPACE <= pos && Going(e, start, end, pos, buf)
    ensures !Ends(e, start, end) && Direct(e, start, end) <= buf && |buf| > end - start
  {
    Multiples(end, SPACE - PAGE);
    var s := buf[..end - start];
    hide Wrap, PageOf, ByteAt;
    forall a: nat | start <= a < start + |s| ensures CanRead(e, a) && s[a - start] == ByteAt(e, a) {
      assert s[a - start] == buf[..SPACE - start][a - start];
    }
    hide Stands;
    DirectSplit(e, start, s, end);
    DirectNone(e, end);
    assert s + [] == s;
  }

  /** Every page has been read. */
  lemma GoneAround(e: Env, start: nat, end: nat, pos: nat, buf: seq<Byte>)
    requires ValidEnv(e) && start <= end < SPACE && Going(e, start, end, pos, buf) && pos == PageOf(start) + SPACE
    ensures !Ends(e, start, end) && end >= SPACE - PAGE && AllReadable(e, 0, SPACE)
  {
    Multiples(end, SPACE - PAGE);
    Multiples(start, SPACE - PAGE);
    forall p: nat | 0 <= p < SPACE && p % PAGE == 0 ensures (e.page)(Wrap(p)).Some? {
      if p < PageOf(start) {
        assert (e.page)(Wrap(p + SPACE)).Some?;
        WrapAround(p + SPACE);
      }
    }
  }

  /** The end is passed. */
  lemma Passed(e: Env, start: nat, end: nat, pos: nat, buf: seq<Byte>)
    requires ValidEnv(e) && start <= end < SPACE && Going(e, start, end, pos, buf) && Wrap(pos) > PageOf(end)
    ensures buf == Direct(e, start, end) && Ends(e, start, end) && end < SPACE - PAGE
  {
    Multiples(end, SPACE - PAGE);
    LastMultiple(pos);
    Multiples(end, Wrap(pos));
    Multiples(end, pos);
    WrapAligned(pos);
    if pos < SPACE { WrapBelow(pos); }
    hide Wrap, PageOf, Stands, AllReadable;
    DirectSplit(e, start, buf, end);
    DirectNone(e, end);
    assert buf + [] == buf;
  }

  lemma WrapAligned(pos: nat)
    requires pos % PAGE == 0
    ensures Wrap(pos) % PAGE == 0 && Wrap(pos) <= SPACE - PAGE
  {
  }

  /** Reading nothing at the last address, where that can be read: some byte is returned. */
  lemma EmptyRead(e: Env)
    requires ValidEnv(e) && CanRead(e, SPACE - 1)
    ensures Direct(e, SPACE - 1, SPACE - 1) == [] && !Ends(e, SPACE - 1, SPACE - 1)
  {
    assert PageOf(SPACE - 1) == SPACE - PAGE;
    forall p: nat | SPACE - PAGE <= p < SPACE && p % PAGE == 0 ensures (e.page)(Wrap(p)).Some? {
      Between(SPACE - PAGE, p);
      WrapBelow(p);
    }
  }

  lemma DirectNone(e: Env, end: nat)
    requires ValidEnv(e)
    ensures Direct(e, end, end) == []
  {
  }

  lemma NextPage(cur: nat)
    requires cur % PAGE == 0
    ensures (cur + PAGE) % PAGE == 0
  {
  }

  /** Where a page's share of the wanted bytes begins and ends. */
  lemma Offsets(start: nat, end: nat, cur: nat)
    requires start <= end && cur % PAGE == 0 && PageOf(start) <= cur <= PageOf(end)
    ensures var startOff := if cur < start then start % PAGE else 0;
      var endOff := if cur + PAGE > end then end % PAGE else PAGE;
      && startOff <= endOff <= PAGE
      && cur + startOff == (if cur <= start then start else cur)
      && cur + endOff == (if cur + PAGE <= end then cur + PAGE else end)
  {
    Multiples(start, cur);
    Multiples(end, cur);
  }

  /** An aligned address at or above the page of `a` is that page or lies behind `a`. */
  lemma Multiples(a: nat, cur: nat)
    requires cur % PAGE == 0
    ensures cur >= PageOf(a) ==> cur == PageOf(a) || cur > a
    ensures cur <= PageOf(a) ==> cur == PageOf(a) || cur + PAGE <= PageOf(a)
    ensures PageOf(a) <= a < PageOf(a) + PAGE && PageOf(a) % PAGE == 0
  {
    var p, q := a / PAGE, cur / PAGE;
    assert a == PAGE * p + a % PAGE && cur == PAGE * q;
    if q < p {
      assert PAGE * q + PAGE <= PAGE * p;
    } else if q > p {
      assert PAGE * p + PAGE <= PAGE * q;
    }
  }

  lemma Copied(e: Env, start: nat, buf: seq<Byte>, cur: nat, startOff: nat, endOff: nat)
    requires ValidEnv(e) && Stands(e, start, buf) && cur % PAGE == 0 && (e.page)(cur).Some?
    requires startOff <= endOff <= PAGE && start + |buf| == cur + startOff
    ensures Stands(e, start, buf + (e.page)(cur).value[startOff..endOff])
  {
    var page := (e.page)(cur).value;
    var s := buf + page[startOff..endOff];
    forall a: nat | start <= a < start + |s| ensures CanRead(e, a) && s[a - start] == ByteAt(e, a) {
      if a >= start + |buf| {
        SamePage(cur, a - cur);
        assert s[a - start] == page[a - cur];
      }
    }
  }

  /** At a page that cannot be read, the direct read ends as well. */
  lemma Stopped(e: Env, start: nat, buf: seq<Byte>, end: nat, cur: nat)
    requires ValidEnv(e) && start <= end && Stands(e, start, buf) && cur % PAGE == 0 && (e.page)(cur).None?
    requires PageOf(start) <= cur <= PageOf(end) && start + |buf| == (if cur <= start then start else cur)
    ensures Direct(e, start, end) == buf
  {
    Multiples(start, cur);
    Multiples(end, cur);
    DirectSplit(e, start, buf, end);
    var a := start + |buf|;
    assert PageOf(a) == cur by {
      if cur <= start { assert cur == PageOf(start); } else { SamePage(cur, 0); }
    }
    assert buf + [] == buf;
  }
}
