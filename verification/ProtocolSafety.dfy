/**
 * What the protocol promises, for every state of every run.
 */
module ProtocolSafety {
  import opened Options
  import opened Wire
  import opened Protocol
  import opened ProtocolInv

  // ---------------------------------------------------------------- framing

  /** The server waits for bytes from the client. */
  predicate ServerReads(pc: ServerPc) {
    pc == RecvInit || pc == ReadInit || pc == Loop || pc == ReadAddr || pc.RecvPage? || pc.ReadPage? || pc.ReadFlag?
  }

  predicate ServerAtMessage(pc: ServerPc) {
    pc == RecvInit || pc == Loop || pc.RecvPage?
  }

  /** The client is about to send a message header. */
  predicate ClientSendsHdr(pc: ClientPc) {
    pc == InitHdr || pc == Idle || pc.MemHdr?
  }

  /**
   * No assertion of the server and no check of the client fails; nothing of a
   * message is unread at the next one; the client holds no header back when it
   * sends one; and the header that it does hold back is that of an object.
   */
  ghost predicate Framed(x: Sys) {
    && x.s.pc != Aborted && x.c.pc != Failed
    && (ServerAtMessage(x.s.pc) ==> x.s.recv == 0)
    && (ServerAtMessage(x.s.pc) && |x.c2s| >= HDR ==>
          ReceivedId(x) == IdNum(if x.s.pc == RecvInit then C_INIT else if x.s.pc == Loop then C_TRANSLATE else C_MEMBUF))
    && (ClientSendsHdr(x.c.pc) ==> x.c.last.id == 0)
    && (x.c.last.id != 0 ==> x.c.pc == ObjHdr && x.c.last.id == IdNum(S_OBJECT))
  }

  /** A header that is not the one asked for: only in translator_get's loop, and then an object's. */
  ghost predicate OnlyDeliberatePeek(x: Sys) {
    CanPeek(x) ==>
      && (x.c.pc == CfgHdr ==> Peeked(x).c.last == Hdr(IdNum(S_INIT), CONFIG))
      && (x.c.pc == ObjHdr ==> Peeked(x).c.last.id == IdNum(S_OBJECT) && Peeked(x).c.last.sz >= 0)
      && (x.c.pc == LoopHdr ==> Peeked(x).c.last.id == IdNum(S_MEMREQ) || Peeked(x).c.last.id == IdNum(S_OBJECT))
  }

  lemma InvFramed(e: Env, x: Sys)
    requires ValidEnv(e) && Inv(e, x)
    ensures Framed(x)
  {
    hide Inv, H, ReadHdr;
    InvCalm(e, x);
    if |x.c2s| >= HDR && ServerAtMessage(x.s.pc) {
      HdrBack(C_INIT, CONFIG);
      HdrBack(C_TRANSLATE, 8);
      HdrBack(C_MEMBUF, PAGE + 1);
      InvMessage(e, x);
    }
  }

  lemma InvCalm(e: Env, x: Sys)
    requires ValidEnv(e) && Inv(e, x)
    ensures x.s.pc != Aborted && x.c.pc != Failed && (ServerAtMessage(x.s.pc) ==> x.s.recv == 0)
    ensures ClientSendsHdr(x.c.pc) ==> x.c.last.id == 0
    ensures x.c.last.id != 0 ==> x.c.pc == ObjHdr && x.c.last.id == IdNum(S_OBJECT)
  {
    hide H, CacheOk, Coming, PageBytes, FlagByte, Le, Level;
  }

  lemma InvMessage(e: Env, x: Sys)
    requires ValidEnv(e) && Inv(e, x) && |x.c2s| >= HDR && ServerAtMessage(x.s.pc)
    ensures x.c2s[..HDR] ==
      if x.s.pc == RecvInit then H(C_INIT, CONFIG) else if x.s.pc == Loop then H(C_TRANSLATE, 8) else H(C_MEMBUF, PAGE + 1)
  {
    hide H, CacheOk, Coming, Le;
    if Hello(e, x) {
      TakeFront(x.c2s, if x.c.pc == InitBody then e.tsc else [], H(C_INIT, CONFIG), e.tsc);
    } else if Asking(x) {
      var a := x.asked[|x.asked| - 1];
      TakeFront(x.c2s, if x.c.pc.TransBody? then Le(a, 8) else [], H(C_TRANSLATE, 8), Le(a, 8));
    } else {
      ReplyMessage(e, x);
    }
  }

  lemma ReplyMessage(e: Env, x: Sys)
    requires ValidEnv(e) && Replying(e, x) && |x.c2s| >= HDR && x.s.pc.RecvPage?
    ensures x.c2s[..HDR] == H(C_MEMBUF, PAGE + 1)
  {
    hide H;
    var p := x.s.pc.p;
    var rest := if x.c.pc.MemData? then PageBytes(e, p) + FlagByte(e, p) else if x.c.pc.MemFlag? then FlagByte(e, p) else [];
    TakeFront(x.c2s, rest, H(C_MEMBUF, PAGE + 1), PageBytes(e, p) + FlagByte(e, p));
  }

  lemma InvPeek(e: Env, x: Sys)
    requires ValidEnv(e) && Inv(e, x)
    ensures OnlyDeliberatePeek(x)
  {
    hide H, ReadHdr, CacheOk, Coming, Welcome, Requesting, Delivering, OnlyDeliberatePeek;
    if Welcome(e, x) { PeekWelcome(e, x); }
    else if Requesting(e, x) { PeekRequesting(e, x); }
    else if Delivering(e, x) { PeekDelivering(e, x); }
    else { PeekNothing(e, x); }
  }

  lemma PeekWelcome(e: Env, x: Sys)
    requires ValidEnv(e) && Welcome(e, x)
    ensures OnlyDeliberatePeek(x)
  {
    var o := x.sent[0];
    HdrBack(S_INIT, CONFIG);
    HdrBack(S_OBJECT, |o|);
    hide H, ReadHdr, Coming;
    if CanPeek(x) {
      var y := Peeked(x);
      if x.c.pc == CfgHdr { ReadFront(e, x, H(S_INIT, CONFIG), e.cfg + (H(S_OBJECT, |o|) + o), Back(x, y)); }
      if x.c.pc == ObjHdr { ReadFront(e, x, H(S_OBJECT, |o|), o, Back(x, y)); }
    }
  }

  lemma PeekRequesting(e: Env, x: Sys)
    requires Requesting(e, x)
    ensures OnlyDeliberatePeek(x)
  {
    HdrBack(S_MEMREQ, 16);
    hide H, ReadHdr, Coming, Request;
    if CanPeek(x) && x.c.pc == LoopHdr {
      ReadFront(e, x, H(S_MEMREQ, 16), Request(x.s.pc.p), Back(x, Peeked(x)));
    }
  }

  lemma PeekDelivering(e: Env, x: Sys)
    requires Delivering(e, x)
    ensures OnlyDeliberatePeek(x)
  {
    var o := x.sent[|x.sent| - 1];
    HdrBack(S_OBJECT, |o|);
    hide H, ReadHdr, Coming;
    if CanPeek(x) && x.c.pc == LoopHdr {
      ReadFront(e, x, H(S_OBJECT, |o|), o, Back(x, Peeked(x)));
    }
  }

  lemma PeekNothing(e: Env, x: Sys)
    requires Hello(e, x) || Running(x) || Asking(x) || Translating(x) || Replying(e, x)
    ensures !CanPeek(x) && OnlyDeliberatePeek(x)
  {
    hide H, ReadHdr, Le, PageBytes, FlagByte;
  }

  /** Only the bytes are looked at. */
  ghost function Back(x: Sys, y: Sys): Sys {
    x.(s2c := y.s2c)
  }

  // --------------------------------------------------------------- progress

  /** The client can take a step: it writes, chooses, or has the bytes that it waits for. */
  predicate ClientReady(x: Sys) {
    match x.c.pc
    case CfgHdr => CanPeek(x)
    case CfgBody => |x.s2c| >= CONFIG
    case ObjHdr => CanPeek(x)
    case ObjBody(n) => |x.s2c| >= n
    case LoopHdr => CanPeek(x)
    case MemBody(sz) => |x.s2c| >= 16
    case Failed => false
    case Exited => false
    case _ => true
  }

  predicate ServerReady(x: Sys) {
    match x.s.pc
    case RecvInit => |x.c2s| >= HDR
    case ReadInit => |x.c2s| >= CONFIG
    case Loop => |x.c2s| >= HDR || x.c.pc == Exited
    case ReadAddr => |x.c2s| >= 8
    case RecvPage(_, _) => |x.c2s| >= HDR
    case ReadPage(_, _) => |x.c2s| >= PAGE
    case ReadFlag(_, _, _) => |x.c2s| >= 1
    case Done => false
    case Aborted => false
    case _ => true
  }

  /** While the server waits, nothing is left in its buffer; and the two sides never both wait. */
  ghost predicate Live(x: Sys) {
    && (ServerReads(x.s.pc) ==> x.s.out == [])
    && (ClientReady(x) || ServerReady(x) || BothDone(x))
  }

  predicate BothDone(x: Sys) {
    x.c.pc == Exited && x.s.pc == Done
  }

  /** One of the two programs has a step to take. */
  ghost predicate CanGoOn(e: Env, x: Sys)
    requires |e.tsc| == CONFIG
  {
    (exists y :: ClientStep(e, x, y)) || exists y :: ServerStep(e, x, y)
  }

  lemma InvLive(e: Env, x: Sys)
    requires ValidEnv(e) && Inv(e, x)
    ensures Live(x)
  {
    hide H, ReadHdr, CacheOk, Le, PageBytes, FlagByte;
    if Replying(e, x) { ReplyLive(e, x); }
  }

  lemma ReplyLive(e: Env, x: Sys)
    requires ValidEnv(e) && Replying(e, x)
    ensures Live(x)
  {
    hide H;
    var p := x.s.pc.p;
    assert |PageBytes(e, p)| == PAGE;
  }

  lemma ClientMoves(e: Env, x: Sys)
    requires ValidEnv(e) && ClientReady(x)
    ensures exists y :: ClientStep(e, x, y)
  {
    hide H, ReadHdr, Le, UnLe;
    match x.c.pc
    case InitHdr => assert ClientStep(e, x, CSendHdr(x, C_INIT, CONFIG, InitBody));
    case InitBody => assert ClientStep(e, x, CSend(x, e.tsc, CfgHdr));
    case CfgHdr =>
      var z := Peeked(x);
      assert ClientStep(e, x, if z.c.last.id != IdNum(S_INIT) || z.c.last.sz != CONFIG then At(z, Failed) else Taken(z, CfgBody));
    case CfgBody => assert ClientStep(e, x, At(x, ObjHdr).(s2c := x.s2c[CONFIG..]));
    case ObjHdr =>
      var z := Peeked(x);
      assert ClientStep(e, x, if z.c.last.id != IdNum(S_OBJECT) || z.c.last.sz < 0 then At(z, Failed) else Taken(z, ObjBody(z.c.last.sz)));
    case ObjBody(n) => assert ClientStep(e, x, At(x, Idle).(s2c := x.s2c[n..], got := x.got + [x.s2c[..n]]));
    case Idle => assert ClientStep(e, x, At(x, Exited));
    case TransBody(a) => assert ClientStep(e, x, CSend(x, Le(a, 8), LoopHdr));
    case LoopHdr =>
      var z := Peeked(x);
      assert ClientStep(e, x, if z.c.last.id != IdNum(S_MEMREQ) then At(z, ObjHdr) else Taken(z, MemBody(z.c.last.sz)));
    case MemBody(sz) =>
      var p, n := UnLe(x.s2c[..8]), UnLe(x.s2c[8..16]);
      assert ClientStep(e, x, if sz != 16 then At(x, Failed) else At(x, MemHdr(p, if n > PAGE then PAGE else n)).(s2c := x.s2c[16..]));
    case MemHdr(p, n) => assert ClientStep(e, x, CSendHdr(x, C_MEMBUF, n + 1, MemData(p, n)));
    case MemData(p, n) =>
      assert ClientStep(e, x, if n == PAGE && (e.page)(p).Some? then CSend(x, (e.page)(p).value, MemFlag(false)) else
        CSend(x, Zeros(n), MemFlag(true)));
    case MemFlag(failed) => assert ClientStep(e, x, CSend(x, [if failed then 1 else 0], LoopHdr));
  }

  lemma ServerMoves(e: Env, x: Sys)
    requires ValidEnv(e) && ServerReady(x)
    ensures exists y :: ServerStep(e, x, y)
  {
    hide H, ReadHdr, Le, UnLe, Mode;
    match x.s.pc
    case RecvInit =>
      assert ServerStep(e, x,
        if x.s.recv != 0 || ReceivedId(x) != IdNum(C_INIT) then SAt(x, Aborted) else SAt(Received(x), ReadInit));
    case ReadInit =>
      if TooSmall(x, CONFIG) { assert ServerStep(e, x, SAt(x, Aborted)); } else { StartMoves(e, x); }
    case SendCfgHdr(obj) => assert ServerStep(e, x, SHdr(x, S_INIT, CONFIG, SendCfgBody(obj)));
    case SendCfgBody(obj) => assert ServerStep(e, x, SWrite(x, e.cfg, SendObjHdr(obj)));
    case SendObjHdr(obj) => assert ServerStep(e, x, SHdr(x, S_OBJECT, |obj|, SendObjBody(obj)));
    case SendObjBody(obj) => assert ServerStep(e, x, SWrite(x, obj, Loop));
    case Loop =>
      assert ServerStep(e, x,
        if x.s.recv != 0 then SAt(x, Aborted) else if |x.c2s| < HDR then SAt(x, Done) else SAt(Received(x), Next(ReceivedId(x))));
    case ReadAddr => assert ServerStep(e, x, if TooSmall(x, 8) then SAt(x, Aborted) else Begun(x, UnLe(x.c2s[..8])));
    case Working(addr) => WorkMoves(e, x);
    case ReqHdr(addr, p) => assert ServerStep(e, x, SHdr(x, S_MEMREQ, 16, ReqBody(addr, p)));
    case ReqBody(addr, p) => assert ServerStep(e, x, SWrite(x, Le(p, 8) + Le(PAGE, 8), RecvPage(addr, p)));
    case RecvPage(addr, p) =>
      assert ServerStep(e, x,
        if x.s.recv != 0 then SAt(x, Aborted)
        else if ReceivedId(x) != IdNum(C_MEMBUF) then SAt(Received(x), Working(addr))
        else SAt(Received(x), ReadPage(addr, p)));
    case ReadPage(addr, p) =>
      assert ServerStep(e, x,
        if TooSmall(x, PAGE) then SAt(x, Aborted) else SAt(SRead(x, PAGE), ReadFlag(addr, p, x.c2s[..PAGE])));
    case ReadFlag(addr, p, page) => assert ServerStep(e, x, if TooSmall(x, 1) then SAt(x, Aborted) else Cached(x, addr, p, page));
    case FileHdr(obj) =>
      assert ServerStep(e, x, x.(s := x.s.(pc := FileBody(obj), wr := |obj|, out := []), s2c := x.s2c + (x.s.out + H(S_OBJECT, |obj|))));
    case FileBody(obj) => assert ServerStep(e, x, SAt(x, Loop).(s2c := x.s2c + obj));
  }

  lemma StartMoves(e: Env, x: Sys)
    requires ValidEnv(e) && x.s.pc == ReadInit && |x.c2s| >= CONFIG && !TooSmall(x, CONFIG)
    ensures exists y :: ServerStep(e, x, y)
  {
    hide Mode;
    assert IsObject([]);
    var z := SRead(x, CONFIG);
    assert ServerStep(e, x, if Mode(x.c2s[..CONFIG]) == 0 then SAt(z, SendCfgHdr([])).(sent := x.sent + [[]]) else SAt(z, Loop));
  }

  lemma WorkMoves(e: Env, x: Sys)
    requires ValidEnv(e) && x.s.pc.Working?
    ensures exists y :: ServerStep(e, x, y)
  {
    assert IsObject([]);
    assert ServerStep(e, x, SAt(x, SendObjHdr([])).(sent := x.sent + [[]]));
  }

  // ------------------------------------------------------------------- mode

  ghost function Saying(pc: ClientPc, c2s: seq<Byte>): Sys {
    Sys(Client(pc, NO_HDR), Server(RecvInit, 0, 0, [], map[]), c2s, [], [], [], [], [])
  }

  ghost function Reading(e: Env): Sys {
    Sys(Client(CfgHdr, NO_HDR), Server(ReadInit, CONFIG, 0, [], map[]), e.tsc, [], [], [], [], [])
  }

  ghost function Sending(pc: ServerPc, out: seq<Byte>, s2c: seq<Byte>): Sys {
    Sys(Client(CfgHdr, NO_HDR), Server(pc, 0, 0, out, map[]), [], s2c, [], [], [[]], [])
  }

  ghost function GivenUp(): Sys {
    Sending(Loop, [], []).(c := Client(Failed, Hdr(IdNum(S_OBJECT), 0)))
  }

  /** A run for a client that asks for another mode: it expects its configuration and finds an object. */
  ghost function WrongMode(e: Env): seq<Sys> {
    [Saying(InitHdr, []), Saying(InitBody, H(C_INIT, CONFIG)), Saying(CfgHdr, H(C_INIT, CONFIG) + e.tsc), Reading(e),
     Sending(SendObjHdr([]), [], []), Sending(SendObjBody([]), H(S_OBJECT, 0), []), Sending(Loop, [], H(S_OBJECT, 0)), GivenUp()]
  }

  lemma WrongModeHello(e: Env)
    requires ValidEnv(e)
    ensures ClientStep(e, Saying(InitHdr, []), Saying(InitBody, H(C_INIT, CONFIG)))
    ensures ClientStep(e, Saying(InitBody, H(C_INIT, CONFIG)), Saying(CfgHdr, H(C_INIT, CONFIG) + e.tsc))
  {
    hide H;
    assert [] + H(C_INIT, CONFIG) == H(C_INIT, CONFIG);
  }

  lemma WrongModeReceived(e: Env)
    requires ValidEnv(e)
    ensures ServerStep(e, Saying(CfgHdr, H(C_INIT, CONFIG) + e.tsc), Reading(e))
  {
    HdrBack(C_INIT, CONFIG);
    hide H, ReadHdr;
    Prefix(H(C_INIT, CONFIG), e.tsc);
  }

  lemma WrongModeRead(e: Env)
    requires ValidEnv(e) && Mode(e.tsc) != 0
    ensures ServerStep(e, Reading(e), Sending(SendObjHdr([]), [], []))
  {
    hide Mode;
    var x := Reading(e);
    assert x.c2s[..CONFIG] == e.tsc && x.c2s[CONFIG..] == [];
    assert IsObject([]) && x.sent + [[]] == [[]];
    assert SAt(SRead(x, CONFIG), SendObjHdr([])).(sent := x.sent + [[]]) == Sending(SendObjHdr([]), [], []);
  }

  lemma WrongModeSend(e: Env)
    requires ValidEnv(e)
    ensures ServerStep(e, Sending(SendObjHdr([]), [], []), Sending(SendObjBody([]), H(S_OBJECT, 0), []))
    ensures ServerStep(e, Sending(SendObjBody([]), H(S_OBJECT, 0), []), Sending(Loop, [], H(S_OBJECT, 0)))
  {
    hide H;
    assert [] + H(S_OBJECT, 0) == H(S_OBJECT, 0) && H(S_OBJECT, 0) + [] == H(S_OBJECT, 0);
  }

  lemma WrongModeFails(e: Env)
    requires ValidEnv(e)
    ensures ClientStep(e, Sending(Loop, [], H(S_OBJECT, 0)), GivenUp())
  {
    HdrBack(S_OBJECT, 0);
    hide H, ReadHdr;
    var x := Sending(Loop, [], H(S_OBJECT, 0));
    assert x.s2c[..HDR] == H(S_OBJECT, 0) && x.s2c[HDR..] == [];
  }

  /** The promise needs mode 0: in any other mode there is a run in which the client gives up. */
  lemma ModeMatters(e: Env)
    requires ValidEnv(e) && Mode(e.tsc) != 0
    ensures IsRun(e, WrongMode(e)) && WrongMode(e)[7].c.pc == Failed
  {
    hide ClientStep, ServerStep, Spill, H, Mode;
    WrongModeHello(e);
    WrongModeReceived(e);
    WrongModeRead(e);
    WrongModeSend(e);
    WrongModeFails(e);
    var run := WrongMode(e);
    forall i | 0 <= i < |run| - 1 ensures Step(e, run[i], run[i + 1]) {
      assert i == 0 || i == 1 || i == 2 || i == 3 || i == 4 || i == 5 || i == 6;
    }
  }

  // -------------------------------------------------------------- contents

  /** Addresses are served in the order in which they were asked for, objects arrive as they were sent, pages are right. */
  ghost predicate Faithful(e: Env, x: Sys) {
    && x.served <= x.asked && |x.asked| <= |x.served| + 1
    && x.got <= x.sent && |x.sent| <= |x.got| + 1
    && CacheOk(e, x)
  }

  lemma InvFaithful(e: Env, x: Sys)
    requires Inv(e, x)
    ensures Faithful(e, x)
  {
    hide H, Coming, PageBytes, FlagByte, Le;
  }

  /** The main result, for every state of every run. */
  lemma EveryRun(e: Env, run: seq<Sys>, i: nat)
    requires ValidEnv(e) && Mode(e.tsc) == 0 && IsRun(e, run) && i < |run|
    ensures Framed(run[i]) && OnlyDeliberatePeek(run[i]) && Live(run[i]) && Faithful(e, run[i])
    ensures CanGoOn(e, run[i]) || BothDone(run[i])
  {
    hide *;
    RunKeeps(e, run, i);
    InvFramed(e, run[i]);
    InvPeek(e, run[i]);
    InvLive(e, run[i]);
    InvFaithful(e, run[i]);
    LiveGoesOn(e, run[i]);
  }

  lemma LiveGoesOn(e: Env, x: Sys)
    requires ValidEnv(e) && Live(x)
    ensures CanGoOn(e, x) || BothDone(x)
  {
    hide ClientReady, ServerReady, ClientStep, ServerStep;
    if ClientReady(x) { ClientMoves(e, x); } else if ServerReady(x) { ServerMoves(e, x); }
  }
}
