/**
 * The client and the server as two programs that talk over two pipes. Each
 * step is one read or write of either; the server's writes pass through a
 * stdio buffer that may be flushed early, but must be flushed at the end of
 * each message.
 */
module Protocol {
  import opened Options
  import opened Wire

  const PAGE: nat := 0x1000
  const CONFIG: nat := 20
  const SPACE: nat := 0x1_0000_0000_0000_0000

  /** The two configurations, and the client's memory by pages; None where reading faults. */
  datatype Env = Env(tsc: seq<Byte>, cfg: seq<Byte>, page: nat -> Option<seq<Byte>>)

  ghost predicate ValidEnv(e: Env) {
    && |e.tsc| == CONFIG && |e.cfg| == CONFIG
    && forall p :: (e.page)(p).Some? ==> |(e.page)(p).value| == PAGE
  }

  /** tsc_server_mode is the fourth number of the configuration. */
  function Mode(tsc: seq<Byte>): int
    requires |tsc| == CONFIG
  {
    Signed(UnLe(tsc[12..16]))
  }

  // ---------------------------------------------------------------- states

  datatype ClientPc =
    | InitHdr | InitBody                      // translator_init
    | CfgHdr | CfgBody                        // translator_config_fetch
    | ObjHdr | ObjBody(n: nat)                // translator_get_object
    | Idle
    | TransBody(addr: nat)                    // translator_get
    | LoopHdr | MemBody(sz: int) | MemHdr(p: nat, n: nat) | MemData(p: nat, n: nat) | MemFlag(failed: bool)
    | Failed | Exited

  datatype Client = Client(pc: ClientPc, last: Hdr)

  datatype ServerPc =
    | RecvInit | ReadInit
    | SendCfgHdr(obj: seq<Byte>) | SendCfgBody(obj: seq<Byte>) | SendObjHdr(obj: seq<Byte>) | SendObjBody(obj: seq<Byte>)
    | Loop | ReadAddr | Working(addr: nat)
    | ReqHdr(addr: nat, p: nat) | ReqBody(addr: nat, p: nat) | RecvPage(addr: nat, p: nat)
    | ReadPage(addr: nat, p: nat) | ReadFlag(addr: nat, p: nat, page: seq<Byte>)
    | FileHdr(obj: seq<Byte>) | FileBody(obj: seq<Byte>)
    | Done | Aborted

  /** recv and wr are the sizes left in recv_hdr and wr_hdr; out is the stdio buffer. */
  datatype Server = Server(pc: ServerPc, recv: int, wr: int, out: seq<Byte>, cache: map<nat, seq<Byte>>)

  /** Both sides, both pipes, and what was asked for, worked on, sent and received. */
  datatype Sys = Sys(c: Client, s: Server, c2s: seq<Byte>, s2c: seq<Byte>, asked: seq<nat>, served: seq<nat>,
    sent: seq<seq<Byte>>, got: seq<seq<Byte>>)

  ghost predicate Init(x: Sys) {
    x == Sys(Client(InitHdr, NO_HDR), Server(RecvInit, 0, 0, [], map[]), [], [], [], [], [], [])
  }

  // ---------------------------------------------------------------- client

  function At(x: Sys, pc: ClientPc): Sys {
    x.(c := x.c.(pc := pc))
  }

  function CSend(x: Sys, bytes: seq<Byte>, pc: ClientPc): Sys {
    At(x, pc).(c2s := x.c2s + bytes)
  }

  /** translator_hdr_send: refused while a header is held back. */
  function CSendHdr(x: Sys, id: Id, sz: nat, pc: ClientPc): Sys {
    if x.c.last.id != 0 then At(x, Failed) else CSend(x, H(id, sz), pc)
  }

  /** translator_hdr_recv: the header that was held back, or a new one. */
  function Peeked(x: Sys): Sys
    requires x.c.last.id != 0 || |x.s2c| >= HDR
  {
    if x.c.last.id != 0 then x else x.(c := x.c.(last := ReadHdr(x.s2c[..HDR])), s2c := x.s2c[HDR..])
  }

  predicate CanPeek(x: Sys) {
    x.c.last.id != 0 || |x.s2c| >= HDR
  }

  function Taken(x: Sys, pc: ClientPc): Sys {
    x.(c := Client(pc, NO_HDR))
  }

  /** One step of the client. It may take none while it waits for bytes. */
  ghost predicate ClientStep(e: Env, x: Sys, y: Sys) {
    match x.c.pc
    case InitHdr => y == CSendHdr(x, C_INIT, CONFIG, InitBody)
    case InitBody => y == CSend(x, e.tsc, CfgHdr)
    case CfgHdr =>
      CanPeek(x) &&
      var z := Peeked(x);
      y == if z.c.last.id != IdNum(S_INIT) || z.c.last.sz != CONFIG then At(z, Failed) else Taken(z, CfgBody)
    case CfgBody => |x.s2c| >= CONFIG && y == At(x, ObjHdr).(s2c := x.s2c[CONFIG..])
    case ObjHdr =>
      CanPeek(x) &&
      var z := Peeked(x);
      y == if z.c.last.id != IdNum(S_OBJECT) || z.c.last.sz < 0 then At(z, Failed) else Taken(z, ObjBody(z.c.last.sz))
    case ObjBody(n) => |x.s2c| >= n && y == At(x, Idle).(s2c := x.s2c[n..], got := x.got + [x.s2c[..n]])
    case Idle =>
      || y == At(x, Exited)
      || exists a: nat :: a < SPACE && y == CSendHdr(x, C_TRANSLATE, 8, TransBody(a)).(asked := x.asked + [a])
    case TransBody(a) => y == CSend(x, Le(a, 8), LoopHdr)
    case LoopHdr =>
      CanPeek(x) &&
      var z := Peeked(x);
      y == if z.c.last.id != IdNum(S_MEMREQ) then At(z, ObjHdr) else Taken(z, MemBody(z.c.last.sz))
    case MemBody(sz) =>
      if sz != 16 then y == At(x, Failed) else
        |x.s2c| >= 16 &&
        var p, n := UnLe(x.s2c[..8]), UnLe(x.s2c[8..16]);
        y == At(x, MemHdr(p, if n > PAGE then PAGE else n)).(s2c := x.s2c[16..])
    case MemHdr(p, n) => y == CSendHdr(x, C_MEMBUF, n + 1, MemData(p, n))
    case MemData(p, n) =>
      if n == PAGE && (e.page)(p).Some? then y == CSend(x, (e.page)(p).value, MemFlag(false))
      else y == CSend(x, Zeros(n), MemFlag(true))
    case MemFlag(failed) => y == CSend(x, [if failed then 1 else 0], LoopHdr)
    case Failed => false
    case Exited => false
  }

  function Zeros(n: nat): (s: seq<Byte>)
    ensures |s| == n
  {
    seq(n, _ => 0)
  }

  // ---------------------------------------------------------------- server

  function SAt(x: Sys, pc: ServerPc): Sys {
    x.(s := x.s.(pc := pc))
  }

  /** RecvMsg, once there are enough bytes: nothing of the last message may be left. */
  function Received(x: Sys): Sys
    requires |x.c2s| >= HDR
  {
    x.(s := x.s.(recv := ReadHdr(x.c2s[..HDR]).sz), c2s := x.c2s[HDR..])
  }

  function ReceivedId(x: Sys): int
    requires |x.c2s| >= HDR
  {
    ReadHdr(x.c2s[..HDR]).id
  }

  /** Conn::Read stops if less is left of the message; a negative size counts as a large one. */
  predicate TooSmall(x: Sys, n: nat) {
    0 <= x.s.recv < n
  }

  /** Conn::Read of `n` bytes. */
  function SRead(x: Sys, n: nat): Sys
    requires |x.c2s| >= n
  {
    x.(s := x.s.(recv := x.s.recv - n), c2s := x.c2s[n..])
  }

  /** SendMsgHdr. */
  function SHdr(x: Sys, id: Id, sz: nat, pc: ServerPc): Sys {
    SAt(x, pc).(s := x.s.(pc := pc, wr := sz, out := x.s.out + H(id, sz)))
  }

  /** Conn::Write: flush when the message is complete. */
  function SWrite(x: Sys, bytes: seq<Byte>, pc: ServerPc): Sys {
    var wr := x.s.wr - |bytes|;
    if wr == 0 then x.(s := x.s.(pc := pc, wr := 0, out := []), s2c := x.s2c + (x.s.out + bytes))
    else x.(s := x.s.(pc := pc, wr := wr, out := x.s.out + bytes))
  }

  ghost predicate IsObject(obj: seq<Byte>) {
    |obj| <= INT32_MAX
  }

  /** With the configuration read: in mode 0 the client waits for its own configuration, and for a first object. */
  ghost predicate Started(x: Sys, y: Sys)
    requires |x.c2s| >= CONFIG
  {
    var z := SRead(x, CONFIG);
    if Mode(x.c2s[..CONFIG]) == 0
    then exists obj: seq<Byte> :: IsObject(obj) && y == SAt(z, SendCfgHdr(obj)).(sent := x.sent + [obj])
    else y == SAt(z, Loop) || exists obj: seq<Byte> :: IsObject(obj) && y == SAt(z, SendObjHdr(obj)).(sent := x.sent + [obj])
  }

  function Next(id: int): ServerPc {
    if id == IdNum(C_EXIT) then Done else if id == IdNum(C_TRANSLATE) then ReadAddr else Aborted
  }

  function Begun(x: Sys, addr: nat): Sys
    requires |x.c2s| >= 8
  {
    SAt(SRead(x, 8), Working(addr)).(served := x.served + [addr])
  }

  /** The page is kept if the client could read it. */
  function Cached(x: Sys, addr: nat, p: nat, page: seq<Byte>): Sys
    requires |x.c2s| >= 1
  {
    var z := SAt(SRead(x, 1), Working(addr));
    if x.c2s[0] != 0 then z else z.(s := z.s.(cache := z.s.cache[p := page]))
  }

  /** One step of the server. */
  ghost predicate ServerStep(e: Env, x: Sys, y: Sys)
    requires |e.tsc| == CONFIG
  {
    match x.s.pc
    case RecvInit =>
      |x.c2s| >= HDR && y == if x.s.recv != 0 || ReceivedId(x) != IdNum(C_INIT) then SAt(x, Aborted) else SAt(Received(x), ReadInit)
    case ReadInit =>
      if TooSmall(x, CONFIG) then y == SAt(x, Aborted) else |x.c2s| >= CONFIG && Started(x, y)
    case SendCfgHdr(obj) => y == SHdr(x, S_INIT, CONFIG, SendCfgBody(obj))
    case SendCfgBody(obj) => y == SWrite(x, e.cfg, SendObjHdr(obj))
    case SendObjHdr(obj) => y == SHdr(x, S_OBJECT, |obj|, SendObjBody(obj))
    case SendObjBody(obj) => y == SWrite(x, obj, Loop)
    case Loop =>
      if x.s.recv != 0 then y == SAt(x, Aborted)
      else if x.c.pc == Exited && |x.c2s| < HDR then y == SAt(x, Done)
      else |x.c2s| >= HDR && y == SAt(Received(x), Next(ReceivedId(x)))
    case ReadAddr =>
      if TooSmall(x, 8) then y == SAt(x, Aborted)
      else |x.c2s| >= 8 && y == Begun(x, UnLe(x.c2s[..8]))
    case Working(addr) =>
      || (exists p: nat :: p < SPACE && p % PAGE == 0 && p !in x.s.cache && y == SAt(x, ReqHdr(addr, p)))
      || (exists obj: seq<Byte> :: IsObject(obj) && y == SAt(x, SendObjHdr(obj)).(sent := x.sent + [obj]))
      || (exists obj: seq<Byte> :: IsObject(obj) && y == SAt(x, FileHdr(obj)).(sent := x.sent + [obj]))
    case ReqHdr(addr, p) => y == SHdr(x, S_MEMREQ, 16, ReqBody(addr, p))
    case ReqBody(addr, p) => y == SWrite(x, Le(p, 8) + Le(PAGE, 8), RecvPage(addr, p))
    case RecvPage(addr, p) =>
      |x.c2s| >= HDR &&
      y == if x.s.recv != 0 then SAt(x, Aborted)
           else if ReceivedId(x) != IdNum(C_MEMBUF) then SAt(Received(x), Working(addr)) else SAt(Received(x), ReadPage(addr, p))
    case ReadPage(addr, p) =>
      if TooSmall(x, PAGE) then y == SAt(x, Aborted)
      else |x.c2s| >= PAGE && y == SAt(SRead(x, PAGE), ReadFlag(addr, p, x.c2s[..PAGE]))
    case ReadFlag(addr, p, page) =>
      if TooSmall(x, 1) then y == SAt(x, Aborted) else |x.c2s| >= 1 && y == Cached(x, addr, p, page)
    case FileHdr(obj) =>
      // The header goes out before sendfile writes behind the buffer's back.
      y == x.(s := x.s.(pc := FileBody(obj), wr := |obj|, out := []), s2c := x.s2c + (x.s.out + H(S_OBJECT, |obj|)))
    case FileBody(obj) => y == SAt(x, Loop).(s2c := x.s2c + obj)
    case Done => false
    case Aborted => false
  }

  /** stdio may write out part of its buffer at any time. */
  ghost predicate Spill(x: Sys, y: Sys) {
    exists k: nat :: k <= |x.s.out| && y == x.(s := x.s.(out := x.s.out[k..]), s2c := x.s2c + x.s.out[..k])
  }

  ghost predicate Step(e: Env, x: Sys, y: Sys)
    requires |e.tsc| == CONFIG
  {
    ClientStep(e, x, y) || ServerStep(e, x, y) || Spill(x, y)
  }

  /** A run of the whole system. */
  ghost predicate IsRun(e: Env, run: seq<Sys>)
    requires |e.tsc| == CONFIG
  {
    |run| > 0 && Init(run[0]) && forall i :: 0 <= i < |run| - 1 ==> Step(e, run[i], run[i + 1])
  }
}
