/**
 * What holds in every state of every run: which side is talking, and that the
 * bytes on the way are exactly those that the other side is about to read.
 */
module ProtocolInv {
  import opened Options
  import opened Wire
  import opened Protocol

  // ------------------------------------------------- what is still to come

  ghost function Readable(e: Env, p: nat): bool {
    (e.page)(p).Some?
  }

  ghost function PageBytes(e: Env, p: nat): seq<Byte> {
    if Readable(e, p) then (e.page)(p).value else Zeros(PAGE)
  }

  ghost function FlagByte(e: Env, p: nat): seq<Byte> {
    [if Readable(e, p) then 0 else 1]
  }

  ghost function Request(p: nat): seq<Byte> {
    Le(p, 8) + Le(PAGE, 8)
  }

  /** The server's current output that it has not yet written. */
  ghost function ServerRest(e: Env, pc: ServerPc): seq<Byte> {
    match pc
    case SendCfgHdr(o) => H(S_INIT, CONFIG) + (e.cfg + (H(S_OBJECT, |o|) + o))
    case SendCfgBody(o) => e.cfg + (H(S_OBJECT, |o|) + o)
    case SendObjHdr(o) => H(S_OBJECT, |o|) + o
    case SendObjBody(o) => o
    case FileHdr(o) => H(S_OBJECT, |o|) + o
    case FileBody(o) => o
    case ReqBody(_, p) => Request(p)
    case _ => []
  }

  /** Everything that the client will see before it has to say something. */
  ghost function Coming(e: Env, x: Sys): seq<Byte> {
    x.s2c + (x.s.out + ServerRest(e, x.s.pc))
  }

  ghost predicate Quiet(x: Sys) {
    x.s2c == [] && x.s.out == []
  }

  ghost predicate Level(x: Sys) {
    x.asked == x.served && x.sent == x.got
  }

  // ---------------------------------------------------------------- phases

  /** The client introduces itself. */
  ghost predicate Hello(e: Env, x: Sys) {
    && Quiet(x) && Level(x) && x.c.last == NO_HDR && x.asked == [] && x.sent == []
    && (x.s.pc == RecvInit || x.s.pc == ReadInit) && x.s.recv == (if x.s.pc == RecvInit then 0 else CONFIG)
    && var toCome := if x.s.pc == RecvInit then H(C_INIT, CONFIG) + e.tsc else e.tsc;
       match x.c.pc
       case InitHdr => x.s.pc == RecvInit && x.c2s == []
       case InitBody => x.c2s + e.tsc == toCome
       case CfgHdr => x.c2s == toCome
       case _ => false
  }

  /** The server answers with configuration and first object. */
  ghost predicate Welcome(e: Env, x: Sys) {
    && x.c2s == [] && x.s.recv == 0 && x.c.last == NO_HDR && x.asked == [] && x.served == [] && x.got == [] && |x.sent| == 1
    && var o := x.sent[0];
    && IsObject(o)
    && (match x.s.pc
        case SendCfgHdr(o') => o' == o
        case SendCfgBody(o') => o' == o && x.s.wr == CONFIG
        case SendObjHdr(o') => o' == o
        case SendObjBody(o') => o' == o && x.s.wr == |o|
        case Loop => x.s.out == []
        case _ => false)
    && (match x.c.pc
        case CfgHdr => Coming(e, x) == H(S_INIT, CONFIG) + (e.cfg + (H(S_OBJECT, |o|) + o))
        case CfgBody => Coming(e, x) == e.cfg + (H(S_OBJECT, |o|) + o)
        case ObjHdr => Coming(e, x) == H(S_OBJECT, |o|) + o
        case ObjBody(n) => n == |o| && Coming(e, x) == o
        case _ => false)
  }

  /** The server waits for a message, or has only to notice that an empty object is complete. */
  ghost predicate Listening(s: Server) {
    s.pc == Loop || (s.pc == SendObjBody([]) && s.wr == 0) || s.pc == FileBody([])
  }

  /** The client runs translated code. */
  ghost predicate Running(x: Sys) {
    && Quiet(x) && Level(x) && x.c2s == [] && x.s.recv == 0 && x.c.last == NO_HDR
    && (x.c.pc == Idle || x.c.pc == Exited) && (Listening(x.s) || (x.s.pc == Done && x.c.pc == Exited))
  }

  /** The client asks for an address. */
  ghost predicate Asking(x: Sys) {
    && Quiet(x) && x.sent == x.got && x.c.last == NO_HDR
    && |x.asked| > 0 && x.served == x.asked[..|x.asked| - 1]
    && (Listening(x.s) || x.s.pc == ReadAddr) && x.s.recv == (if x.s.pc == ReadAddr then 8 else 0)
    && var a := x.asked[|x.asked| - 1];
    && a < SPACE
    && var toCome := if x.s.pc == ReadAddr then Le(a, 8) else H(C_TRANSLATE, 8) + Le(a, 8);
       match x.c.pc
       case TransBody(a') => a' == a && x.c2s + Le(a, 8) == toCome
       case LoopHdr => x.c2s == toCome
       case _ => false
  }

  /** The server translates. */
  ghost predicate Translating(x: Sys) {
    && Level(x) && Quiet(x) && x.c2s == [] && x.s.recv == 0 && x.c == Client(LoopHdr, NO_HDR)
    && (x.s.pc.Working? || (x.s.pc.ReqHdr? && x.s.pc.p < SPACE))
  }

  /** The request for a page is on its way. */
  ghost predicate Requesting(e: Env, x: Sys) {
    && Level(x) && x.c2s == [] && x.s.recv == 0 && x.c.last == NO_HDR
    && ((x.s.pc.ReqBody? && x.s.wr == 16) || (x.s.pc.RecvPage? && x.s.out == [])) && x.s.pc.p < SPACE
    && (match x.c.pc
        case LoopHdr => Coming(e, x) == H(S_MEMREQ, 16) + Request(x.s.pc.p)
        case MemBody(sz) => sz == 16 && Coming(e, x) == Request(x.s.pc.p)
        case _ => false)
  }

  /** The page is on its way. */
  ghost predicate Replying(e: Env, x: Sys) {
    && Level(x) && Quiet(x) && x.c.last == NO_HDR && (x.s.pc.RecvPage? || x.s.pc.ReadPage? || x.s.pc.ReadFlag?)
    && var p := x.s.pc.p;
    && p < SPACE && (x.s.pc.ReadFlag? ==> x.s.pc.page == PageBytes(e, p))
    && x.s.recv == (if x.s.pc.RecvPage? then 0 else if x.s.pc.ReadPage? then PAGE + 1 else 1)
    && var toCome := if x.s.pc.RecvPage? then H(C_MEMBUF, PAGE + 1) + (PageBytes(e, p) + FlagByte(e, p))
                     else if x.s.pc.ReadPage? then PageBytes(e, p) + FlagByte(e, p) else FlagByte(e, p);
       match x.c.pc
       case MemHdr(p', n) => p' == p && n == PAGE && x.s.pc.RecvPage? && x.c2s == []
       case MemData(p', n) => p' == p && n == PAGE && x.c2s + (PageBytes(e, p) + FlagByte(e, p)) == toCome
       case MemFlag(failed) => failed == !Readable(e, p) && x.c2s + FlagByte(e, p) == toCome
       case LoopHdr => x.c2s == toCome
       case _ => false
  }

  /** The object is on its way. */
  ghost predicate Delivering(e: Env, x: Sys) {
    && x.asked == x.served && x.c2s == [] && x.s.recv == 0 && |x.sent| > 0 && x.got == x.sent[..|x.sent| - 1]
    && var o := x.sent[|x.sent| - 1];
    && IsObject(o)
    && (match x.s.pc
        case SendObjHdr(o') => o' == o
        case SendObjBody(o') => o' == o && x.s.wr == |o|
        case FileHdr(o') => o' == o
        case FileBody(o') => o' == o && x.s.out == []
        case Loop => x.s.out == []
        case _ => false)
    && (match x.c.pc
        case LoopHdr => x.c.last == NO_HDR && Coming(e, x) == H(S_OBJECT, |o|) + o
        case ObjHdr => x.c.last == Hdr(IdNum(S_OBJECT), |o|) && Coming(e, x) == o
        case ObjBody(n) => x.c.last == NO_HDR && n == |o| && Coming(e, x) == o
        case _ => false)
  }

  /** Cached pages are the client's pages. */
  ghost predicate CacheOk(e: Env, x: Sys) {
    forall p :: p in x.s.cache ==> (e.page)(p) == Some(x.s.cache[p])
  }

  ghost predicate Inv(e: Env, x: Sys) {
    && CacheOk(e, x)
    && (Hello(e, x) || Welcome(e, x) || Running(x) || Asking(x) || Translating(x) || Requesting(e, x) || Replying(e, x) || Delivering(e, x))
  }

  // ------------------------------------------------------------ the pieces

  /** If bytes `a` followed by `b` are `h` followed by `rest`, and `a` is long enough, then `h` is its start. */
  lemma TakeFront(a: seq<Byte>, b: seq<Byte>, h: seq<Byte>, rest: seq<Byte>)
    requires a + b == h + rest && |a| >= |h|
    ensures a[..|h|] == h && a[|h|..] + b == rest
  {
    var s := a + b;
    assert s[..|h|] == h && s[|h|..] == rest;
    assert s[..|h|] == a[..|h|] && s[|h|..] == a[|h|..] + b;
  }

  lemma Assoc(a: seq<Byte>, b: seq<Byte>, c: seq<Byte>)
    ensures a + (b + c) == a + b + c
  {
  }

  /** Writing moves bytes on, whether they stay in the buffer or not. */
  lemma HdrKeeps(e: Env, x: Sys, id: Id, sz: nat, pc: ServerPc)
    requires ServerRest(e, x.s.pc) == H(id, sz) + ServerRest(e, pc)
    ensures Coming(e, SHdr(x, id, sz, pc)) == Coming(e, x)
  {
    hide H, ServerRest;
    Assoc(x.s.out, H(id, sz), ServerRest(e, pc));
  }

  lemma BodyKeeps(e: Env, x: Sys, bytes: seq<Byte>, pc: ServerPc)
    requires ServerRest(e, x.s.pc) == bytes + ServerRest(e, pc) && x.s.wr == |bytes|
    ensures Coming(e, SWrite(x, bytes, pc)) == Coming(e, x)
  {
    hide ServerRest;
    var y, rest := SWrite(x, bytes, pc), ServerRest(e, pc);
    assert y.s.out + rest == rest;
    Assoc(x.s.out, bytes, rest);
    Assoc(x.s2c, x.s.out + bytes, rest);
  }

  lemma FileKeeps(e: Env, x: Sys, bytes: seq<Byte>, pc: ServerPc, y: Sys)
    requires ServerRest(e, x.s.pc) == bytes + ServerRest(e, pc)
    requires y.s.pc == pc && y.s.out == [] && y.s2c == x.s2c + (x.s.out + bytes)
    ensures Coming(e, y) == Coming(e, x)
  {
    hide ServerRest;
    var rest := ServerRest(e, pc);
    assert y.s.out + rest == rest;
    Assoc(x.s.out, bytes, rest);
    Assoc(x.s2c, x.s.out + bytes, rest);
  }

  /** Reading takes them from the front. */
  lemma ReadFront(e: Env, x: Sys, h: seq<Byte>, rest: seq<Byte>, y: Sys)
    requires Coming(e, x) == h + rest && |x.s2c| >= |h| && y.s2c == x.s2c[|h|..] && y.s == x.s
    ensures x.s2c[..|h|] == h && Coming(e, y) == rest
  {
    hide ServerRest;
    TakeFront(x.s2c, x.s.out + ServerRest(e, x.s.pc), h, rest);
  }

  /** All read: nothing else is coming. */
  lemma NothingMore(e: Env, x: Sys)
    requires Coming(e, x) == []
    ensures x.s2c == [] && x.s.out == [] && ServerRest(e, x.s.pc) == []
  {
    hide ServerRest;
  }

  // ---------------------------------------------------------- Hello

  lemma HelloClient(e: Env, x: Sys, y: Sys)
    requires ValidEnv(e) && Hello(e, x) && ClientStep(e, x, y)
    ensures Hello(e, y)
  {
    hide H, ReadHdr;
  }

  lemma HelloServer(e: Env, x: Sys, y: Sys)
    requires ValidEnv(e) && Mode(e.tsc) == 0 && Hello(e, x) && ServerStep(e, x, y)
    ensures Hello(e, y) || Welcome(e, y)
  {
    HdrBack(C_INIT, CONFIG);
    hide H, ReadHdr;
    var rest := if x.c.pc == InitBody then e.tsc else [];
    if x.s.pc == RecvInit {
      TakeFront(x.c2s, rest, H(C_INIT, CONFIG), e.tsc);
    } else {
      TakeFront(x.c2s, rest, e.tsc, []);
    }
  }

  // -------------------------------------------------------- Welcome

  lemma WelcomeClient(e: Env, x: Sys, y: Sys)
    requires ValidEnv(e) && Welcome(e, x) && ClientStep(e, x, y)
    ensures Welcome(e, y) || Running(y)
  {
    var o := x.sent[0];
    HdrBack(S_INIT, CONFIG);
    HdrBack(S_OBJECT, |o|);
    assert |e.cfg| == CONFIG;
    hide H, ReadHdr, Coming, ValidEnv;
    match x.c.pc
    case CfgHdr => ReadFront(e, x, H(S_INIT, CONFIG), e.cfg + (H(S_OBJECT, |o|) + o), y);
    case CfgBody => ReadFront(e, x, e.cfg, H(S_OBJECT, |o|) + o, y);
    case ObjHdr => ReadFront(e, x, H(S_OBJECT, |o|), o, y);
    case ObjBody(n) =>
      assert o == o + [];
      ReadFront(e, x, o, [], y);
      NothingMore(e, y);
  }

  lemma WelcomeServer(e: Env, x: Sys, y: Sys)
    requires ValidEnv(e) && Welcome(e, x) && ServerStep(e, x, y)
    ensures Welcome(e, y)
  {
    var o := x.sent[0];
    assert o == o + [] && |e.cfg| == CONFIG && |e.tsc| == CONFIG;
    hide H, ReadHdr, Coming, ValidEnv;
    match x.s.pc
    case SendCfgHdr(_) => HdrKeeps(e, x, S_INIT, CONFIG, SendCfgBody(o));
    case SendCfgBody(_) => BodyKeeps(e, x, e.cfg, SendObjHdr(o));
    case SendObjHdr(_) => HdrKeeps(e, x, S_OBJECT, |o|, SendObjBody(o));
    case SendObjBody(_) => BodyKeeps(e, x, o, Loop);
    case Loop =>
  }

  // -------------------------------------------------------- Running

  lemma RunningClient(e: Env, x: Sys, y: Sys)
    requires ValidEnv(e) && Running(x) && ClientStep(e, x, y)
    ensures Running(y) || Asking(y)
  {
    hide H, Le;
    if y.c.pc.TransBody? {
      var a := y.c.pc.addr;
      assert y.asked[..|y.asked| - 1] == x.asked;
      assert [] + H(C_TRANSLATE, 8) == H(C_TRANSLATE, 8);
    }
  }

  lemma RunningServer(e: Env, x: Sys, y: Sys)
    requires ValidEnv(e) && Running(x) && ServerStep(e, x, y)
    ensures Running(y)
  {
    hide H, ReadHdr;
  }

  // --------------------------------------------------------- Asking

  lemma AskingClient(e: Env, x: Sys, y: Sys)
    requires ValidEnv(e) && Asking(x) && ClientStep(e, x, y)
    ensures Asking(y)
  {
    hide H, ReadHdr, Le, UnLe;
  }

  lemma AskingServer(e: Env, x: Sys, y: Sys)
    requires ValidEnv(e) && Asking(x) && ServerStep(e, x, y)
    ensures Asking(y) || Translating(y)
  {
    assert |e.tsc| == CONFIG;
    hide Asking, Translating, ServerStep, ValidEnv;
    if x.s.pc == ReadAddr {
      AskingReads(e, x, y);
    } else if x.s.pc == Loop {
      AskingReceives(e, x, y);
    } else {
      AskingSettles(e, x, y);
    }
  }

  /** The server notices that an empty object is complete. */
  lemma AskingSettles(e: Env, x: Sys, y: Sys)
    requires Asking(x) && |e.tsc| == CONFIG && ServerStep(e, x, y) && x.s.pc != ReadAddr && x.s.pc != Loop
    ensures Asking(y)
  {
    hide H, Le, ReadHdr, UnLe;
    assert y.s.pc == Loop && y.s.out == [] && y.s2c == [] && y.c2s == x.c2s && y.s.recv == x.s.recv;
  }

  lemma AskingReads(e: Env, x: Sys, y: Sys)
    requires Asking(x) && |e.tsc| == CONFIG && ServerStep(e, x, y) && x.s.pc == ReadAddr
    ensures Translating(y)
  {
    var a := x.asked[|x.asked| - 1];
    AddrBack(a);
    hide H, ReadHdr, Le, UnLe;
    assert x.c.pc == LoopHdr;
    assert x.c2s[..8] == Le(a, 8);
    assert x.asked == x.served + [a];
  }

  lemma AskingReceives(e: Env, x: Sys, y: Sys)
    requires Asking(x) && |e.tsc| == CONFIG && ServerStep(e, x, y) && x.s.pc == Loop
    ensures Asking(y)
  {
    HdrBack(C_TRANSLATE, 8);
    LoopReceives(e, x, y);
    var a := x.asked[|x.asked| - 1];
    hide H, ReadHdr, Le, UnLe, ServerStep;
    TakeFront(x.c2s, if x.c.pc == LoopHdr then [] else Le(a, 8), H(C_TRANSLATE, 8), Le(a, 8));
  }

  lemma LoopReceives(e: Env, x: Sys, y: Sys)
    requires |e.tsc| == CONFIG && ServerStep(e, x, y) && x.s.pc == Loop && x.s.recv == 0 && x.c.pc != Exited
    ensures |x.c2s| >= HDR && y == SAt(Received(x), Next(ReceivedId(x)))
  {
    hide H, ReadHdr, Le, UnLe;
  }

  // ---------------------------------------------------- Translating

  lemma TranslatingStep(e: Env, x: Sys, y: Sys)
    requires ValidEnv(e) && Translating(x) && (ClientStep(e, x, y) || ServerStep(e, x, y))
    ensures Translating(y) || Requesting(e, y) || Delivering(e, y)
  {
    hide H, ReadHdr, Le, UnLe, Request;
    if x.s.pc.ReqHdr? {
      hide Delivering;
      RequestStarts(e, x, y);
    } else {
      hide Requesting;
    }
  }

  lemma RequestStarts(e: Env, x: Sys, y: Sys)
    requires ValidEnv(e) && Translating(x) && x.s.pc.ReqHdr? && (ClientStep(e, x, y) || ServerStep(e, x, y))
    ensures Requesting(e, y)
  {
    hide H, ReadHdr, Le, UnLe, Request;
    assert y == SHdr(x, S_MEMREQ, 16, ReqBody(x.s.pc.addr, x.s.pc.p));
  }

  // ----------------------------------------------------- Requesting

  lemma RequestingClient(e: Env, x: Sys, y: Sys)
    requires ValidEnv(e) && Requesting(e, x) && ClientStep(e, x, y)
    ensures Requesting(e, y) || Replying(e, y)
  {
    var p := x.s.pc.p;
    if x.c.pc == LoopHdr {
      HdrBack(S_MEMREQ, 16);
      hide H, ReadHdr, Le, UnLe, Coming, Request, Replying;
      ReadFront(e, x, H(S_MEMREQ, 16), Request(p), y);
    } else {
      RequestRead(e, x, y);
    }
  }

  lemma RequestRead(e: Env, x: Sys, y: Sys)
    requires ValidEnv(e) && Requesting(e, x) && ClientStep(e, x, y) && x.c.pc.MemBody?
    ensures Replying(e, y)
  {
    var p := x.s.pc.p;
    PairBack(p, PAGE);
    assert Request(p) == Request(p) + [] && |Request(p)| == 16;
    hide H, Le, UnLe, Coming, Request, PageBytes, FlagByte;
    ReadFront(e, x, Request(p), [], y);
    NothingMore(e, y);
    RequestParts(x.s2c, p);
    NotReqBody(e, x.s.pc);
  }

  lemma RequestParts(s: seq<Byte>, p: nat)
    requires |s| >= 16 && s[..16] == Request(p)
    ensures s[..8] == Request(p)[..8] && s[8..16] == Request(p)[8..]
    ensures Request(p) == Le(p, 8) + Le(PAGE, 8)
  {
    assert s[..8] == s[..16][..8] && s[8..16] == s[..16][8..];
  }

  lemma NotReqBody(e: Env, pc: ServerPc)
    requires ServerRest(e, pc) == []
    ensures !pc.ReqBody?
  {
  }

  lemma RequestingServer(e: Env, x: Sys, y: Sys)
    requires ValidEnv(e) && Requesting(e, x) && ServerStep(e, x, y)
    ensures Requesting(e, y)
  {
    var p := x.s.pc.p;
    assert Request(p) == Request(p) + [] && |Request(p)| == 16 && Request(p) == Le(p, 8) + Le(PAGE, 8);
    if x.s.pc.ReqBody? {
      hide H, ReadHdr, Le, UnLe, Coming, Request;
      BodyKeeps(e, x, Request(p), RecvPage(x.s.pc.addr, p));
    } else {
      NoReplyYet(e, x);
    }
  }

  /** The server cannot go on before the client has answered. */
  lemma NoReplyYet(e: Env, x: Sys)
    requires Requesting(e, x)
    ensures x.c2s == []
  {
  }

  // ------------------------------------------------------- Replying

  lemma ReplyingClient(e: Env, x: Sys, y: Sys)
    requires ValidEnv(e) && Replying(e, x) && ClientStep(e, x, y)
    ensures Replying(e, y)
  {
    hide H, ReadHdr;
    var p := x.s.pc.p;
    match x.c.pc
    case MemHdr(_, _) =>
    case MemData(_, _) => Assoc(x.c2s, PageBytes(e, p), FlagByte(e, p));
    case MemFlag(_) =>
    case LoopHdr =>
  }

  lemma ReplyingServer(e: Env, x: Sys, y: Sys)
    requires ValidEnv(e) && Replying(e, x) && CacheOk(e, x) && ServerStep(e, x, y)
    ensures CacheOk(e, y) && (Replying(e, y) || Translating(y))
  {
    HdrBack(C_MEMBUF, PAGE + 1);
    hide H, ReadHdr;
    var p := x.s.pc.p;
    var rest := if x.c.pc.MemData? then PageBytes(e, p) + FlagByte(e, p) else if x.c.pc.MemFlag? then FlagByte(e, p) else [];
    assert |PageBytes(e, p)| == PAGE;
    match x.s.pc
    case RecvPage(_, _) => TakeFront(x.c2s, rest, H(C_MEMBUF, PAGE + 1), PageBytes(e, p) + FlagByte(e, p));
    case ReadPage(_, _) => TakeFront(x.c2s, rest, PageBytes(e, p), FlagByte(e, p));
    case ReadFlag(_, _, _) => TakeFront(x.c2s, rest, FlagByte(e, p), []);
  }

  // ----------------------------------------------------- Delivering

  lemma DeliveringClient(e: Env, x: Sys, y: Sys)
    requires ValidEnv(e) && Delivering(e, x) && ClientStep(e, x, y)
    ensures Delivering(e, y) || Running(y)
  {
    assert x.c.pc == LoopHdr || x.c.pc == ObjHdr || x.c.pc.ObjBody?;
    hide *;
    if x.c.pc == LoopHdr {
      DeliveringPeeks(e, x, y);
    } else if x.c.pc == ObjHdr {
      DeliveringTakes(e, x, y);
    } else {
      DeliveredClient(e, x, y);
    }
  }

  lemma DeliveringPeeks(e: Env, x: Sys, y: Sys)
    requires Delivering(e, x) && ClientStep(e, x, y) && x.c.pc == LoopHdr
    ensures Delivering(e, y)
  {
    var o := x.sent[|x.sent| - 1];
    HdrBack(S_OBJECT, |o|);
    hide H, ReadHdr, Coming;
    ReadFront(e, x, H(S_OBJECT, |o|), o, y);
  }

  lemma DeliveringTakes(e: Env, x: Sys, y: Sys)
    requires Delivering(e, x) && ClientStep(e, x, y) && x.c.pc == ObjHdr
    ensures Delivering(e, y)
  {
    hide H, ReadHdr, Coming;
    SameComing(e, x, y);
  }

  lemma DeliveredClient(e: Env, x: Sys, y: Sys)
    requires Delivering(e, x) && ClientStep(e, x, y) && x.c.pc.ObjBody?
    ensures Running(y)
  {
    hide H, ReadHdr, Coming;
    var o := x.sent[|x.sent| - 1];
    assert o == o + [];
    ReadFront(e, x, o, [], y);
    NothingMore(e, y);
    assert x.sent == x.got + [o];
  }

  lemma SameComing(e: Env, x: Sys, y: Sys)
    requires y.s == x.s && y.s2c == x.s2c
    ensures Coming(e, y) == Coming(e, x)
  {
  }

  lemma DeliveringServer(e: Env, x: Sys, y: Sys)
    requires ValidEnv(e) && Delivering(e, x) && ServerStep(e, x, y)
    ensures Delivering(e, y)
  {
    var o := x.sent[|x.sent| - 1];
    assert o == o + [] && [] + o == o && |e.tsc| == CONFIG;
    hide H, ReadHdr, Coming, ValidEnv;
    match x.s.pc
    case SendObjHdr(_) => HdrKeeps(e, x, S_OBJECT, |o|, SendObjBody(o));
    case SendObjBody(_) => BodyKeeps(e, x, o, Loop);
    case FileHdr(_) => FileKeeps(e, x, H(S_OBJECT, |o|), FileBody(o), y);
    case FileBody(_) => FileKeeps(e, x, o, Loop, y);
    case Loop =>
  }

  // ------------------------------------------------------------- all steps

  lemma SpillStep(e: Env, x: Sys, y: Sys)
    requires Inv(e, x) && Spill(x, y)
    ensures Inv(e, y)
  {
    var k: nat :| k <= |x.s.out| && y == x.(s := x.s.(out := x.s.out[k..]), s2c := x.s2c + x.s.out[..k]);
    SpillComing(e, x, y, k);
    if x.s.out == [] {
      assert y == x;
    } else {
      hide H, Coming, PageBytes, FlagByte;
    }
  }

  lemma SpillComing(e: Env, x: Sys, y: Sys, k: nat)
    requires k <= |x.s.out| && y == x.(s := x.s.(out := x.s.out[k..]), s2c := x.s2c + x.s.out[..k])
    ensures Coming(e, y) == Coming(e, x)
  {
    hide ServerRest;
    var a, b, rest := x.s.out[..k], x.s.out[k..], ServerRest(e, x.s.pc);
    assert x.s.out == a + b;
    Assoc(a, b, rest);
    Assoc(x.s2c, a, b + rest);
  }

  lemma ClientKeeps(e: Env, x: Sys, y: Sys)
    requires ValidEnv(e) && Inv(e, x) && ClientStep(e, x, y)
    ensures Inv(e, y)
  {
    hide CacheOk, Hello, Welcome, Running, Asking, Translating, Requesting, Replying, Delivering, ClientStep;
    if Hello(e, x) { HelloClient(e, x, y); }
    else if Welcome(e, x) { WelcomeClient(e, x, y); }
    else if Running(x) { RunningClient(e, x, y); }
    else if Asking(x) { AskingClient(e, x, y); }
    else if Translating(x) { TranslatingStep(e, x, y); }
    else if Requesting(e, x) { RequestingClient(e, x, y); }
    else if Replying(e, x) { ReplyingClient(e, x, y); }
    else { DeliveringClient(e, x, y); }
    ClientCache(e, x, y);
  }

  /** The client has no part in the cache. */
  lemma ClientCache(e: Env, x: Sys, y: Sys)
    requires CacheOk(e, x) && ClientStep(e, x, y)
    ensures CacheOk(e, y)
  {
    hide H, ReadHdr, Le, UnLe, Zeros, CacheOk;
    assert y.s.cache == x.s.cache;
    SameCache(e, x, y);
  }

  /** Only the end of a page's message changes the cache. */
  lemma ServerCache(e: Env, x: Sys, y: Sys)
    requires CacheOk(e, x) && |e.tsc| == CONFIG && ServerStep(e, x, y) && !x.s.pc.ReadFlag?
    ensures CacheOk(e, y)
  {
    hide *;
    if Sending(x.s.pc) { SendKeepsCache(e, x, y); } else { ReceiveKeepsCache(e, x, y); }
    SameCache(e, x, y);
  }

  predicate Sending(pc: ServerPc) {
    || pc.SendCfgHdr? || pc.SendCfgBody? || pc.SendObjHdr? || pc.SendObjBody? || pc.FileHdr? || pc.FileBody?
    || pc.Working? || pc.ReqHdr? || pc.ReqBody?
  }

  lemma SendKeepsCache(e: Env, x: Sys, y: Sys)
    requires |e.tsc| == CONFIG && ServerStep(e, x, y) && Sending(x.s.pc)
    ensures y.s.cache == x.s.cache
  {
    hide H, ReadHdr, Le, UnLe, Mode, IsObject;
  }

  lemma ReceiveKeepsCache(e: Env, x: Sys, y: Sys)
    requires |e.tsc| == CONFIG && ServerStep(e, x, y) && !Sending(x.s.pc) && !x.s.pc.ReadFlag?
    ensures y.s.cache == x.s.cache
  {
    hide H, ReadHdr, Le, UnLe, Mode, IsObject;
  }

  lemma SameCache(e: Env, x: Sys, y: Sys)
    requires CacheOk(e, x) && y.s.cache == x.s.cache
    ensures CacheOk(e, y)
  {
  }

  lemma ServerKeeps(e: Env, x: Sys, y: Sys)
    requires ValidEnv(e) && Mode(e.tsc) == 0 && Inv(e, x) && ServerStep(e, x, y)
    ensures Inv(e, y)
  {
    hide CacheOk, Hello, Welcome, Running, Asking, Translating, Requesting, Replying, Delivering, ServerStep, Mode;
    if Hello(e, x) { HelloServer(e, x, y); }
    else if Welcome(e, x) { WelcomeServer(e, x, y); }
    else if Running(x) { RunningServer(e, x, y); }
    else if Asking(x) { AskingServer(e, x, y); }
    else if Translating(x) { TranslatingStep(e, x, y); }
    else if Requesting(e, x) { RequestingServer(e, x, y); }
    else if Replying(e, x) { ReplyingServer(e, x, y); }
    else { DeliveringServer(e, x, y); }
    if !x.s.pc.ReadFlag? { ServerCache(e, x, y); } else { OnlyReplying(e, x); }
  }

  lemma OnlyReplying(e: Env, x: Sys)
    requires Inv(e, x) && x.s.pc.ReadFlag?
    ensures Replying(e, x) && !Hello(e, x) && !Welcome(e, x) && !Running(x) && !Asking(x) && !Translating(x) && !Requesting(e, x)
  {
    hide H, CacheOk, Coming, PageBytes, FlagByte, Le, Request;
  }

  /** The invariant holds throughout every run with a client that asks for mode 0. */
  lemma {:induction false} RunKeeps(e: Env, run: seq<Sys>, i: nat)
    requires ValidEnv(e) && Mode(e.tsc) == 0 && IsRun(e, run) && i < |run|
    ensures Inv(e, run[i])
  {
    hide ClientStep, ServerStep, Spill, Mode;
    if i == 0 {
    } else {
      RunKeeps(e, run, i - 1);
      hide Inv;
      var x, y := run[i - 1], run[i];
      assert Step(e, x, run[i - 1 + 1]);
      if ClientStep(e, x, y) { ClientKeeps(e, x, y); }
      else if ServerStep(e, x, y) { ServerKeeps(e, x, y); }
      else { SpillStep(e, x, y); }
    }
  }
}
