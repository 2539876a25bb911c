/**
 * One writer and a reader on the code table at the same time: every load and
 * store of either is a step. The writer fills in the entry before it publishes
 * the address.
 */
module TableReaders {
  import opened CodeTable

  datatype Writer =
    | Resting
    | Seeking(a: nat, entry: nat, i: nat)      // the probing loop of rtld_set
    | Chosen(a: nat, entry: nat, i: nat)       // an empty slot is found
    | Filled(a: nat, entry: nat, i: nat)       // its entry is written

  /** `known` is what the table held when the reader started. */
  datatype Reader =
    | Off
    | Probing(a: nat, i: nat, known: map<nat, nat>)
    | Matched(a: nat, s: nat, known: map<nat, nat>)
    | Hit(a: nat, entry: nat, known: map<nat, nat>)
    | Miss(a: nat, known: map<nat, nat>)

  /** `at` and `code` follow what is published. */
  datatype Sys = Sys(addrs: seq<nat>, entries: seq<nat>, w: Writer, r: Reader, at: map<nat, nat>, code: map<nat, nat>)

  ghost predicate Init(x: Sys) {
    && |x.addrs| == |x.entries| == SLOTS && (forall s :: 0 <= s < SLOTS ==> x.addrs[s] == 0)
    && x.w == Resting && x.r == Off && x.at == map[] && x.code == map[]
  }

  ghost predicate WriterStep(x: Sys, y: Sys)
    requires |x.addrs| == |x.entries| == SLOTS
  {
    match x.w
    case Resting => exists a: nat, entry: nat :: a != 0 && y == x.(w := Seeking(a, entry, 0))
    case Seeking(a, entry, i) =>
      if i >= SLOTS then y == x.(w := Resting)
      else
        var seen := x.addrs[Slot(Hash(a), i)];
        y == x.(w := if seen == a then Resting else if seen == 0 then Chosen(a, entry, i) else Seeking(a, entry, i + 1))
    case Chosen(a, entry, i) => i < SLOTS && y == x.(entries := x.entries[Slot(Hash(a), i) := entry], w := Filled(a, entry, i))
    case Filled(a, entry, i) =>
      i < SLOTS &&
      var s := Slot(Hash(a), i);
      y == x.(addrs := x.addrs[s := a], w := Resting, at := x.at[a := s], code := x.code[a := entry])
  }

  ghost predicate ReaderStep(x: Sys, y: Sys)
    requires |x.addrs| == |x.entries| == SLOTS
  {
    match x.r
    case Off => exists a: nat :: a != 0 && y == x.(r := Probing(a, 0, x.code))
    case Probing(a, i, known) =>
      if i >= SLOTS then y == x.(r := Miss(a, known))
      else
        var s := Slot(Hash(a), i);
        y == x.(r := if x.addrs[s] == 0 then Miss(a, known) else if x.addrs[s] == a then Matched(a, s, known) else Probing(a, i + 1, known))
    case Matched(a, s, known) => s < SLOTS && y == x.(r := Hit(a, x.entries[s], known))
    case Hit(_, _, _) => y == x.(r := Off)
    case Miss(_, _) => y == x.(r := Off)
  }

  ghost predicate Step(x: Sys, y: Sys) {
    |x.addrs| == |x.entries| == SLOTS && (WriterStep(x, y) || ReaderStep(x, y))
  }

  ghost predicate IsRun(run: seq<Sys>) {
    |run| > 0 && Init(run[0]) && forall i :: 0 <= i < |run| - 1 ==> Step(run[i], run[i + 1])
  }

  // ------------------------------------------------------------- invariant

  ghost predicate TableOk(x: Sys) {
    && |x.entries| == SLOTS && Probed(x.addrs, x.at) && x.code.Keys == x.at.Keys
    && forall a :: a in x.at ==> x.entries[x.at[a]] == x.code[a]
  }

  ghost predicate WriterOk(x: Sys)
    requires |x.addrs| == |x.entries| == SLOTS
  {
    match x.w
    case Resting => true
    case Seeking(a, _, i) => a != 0 && i <= SLOTS && Passed(x.addrs, a, i)
    case Chosen(a, _, i) => a != 0 && i < SLOTS && Passed(x.addrs, a, i) && x.addrs[Slot(Hash(a), i)] == 0
    case Filled(a, entry, i) =>
      && a != 0 && i < SLOTS && Passed(x.addrs, a, i) && x.addrs[Slot(Hash(a), i)] == 0
      && x.entries[Slot(Hash(a), i)] == entry
  }

  ghost predicate ReaderOk(x: Sys)
    requires |x.addrs| == SLOTS
  {
    match x.r
    case Off => true
    case Probing(a, i, known) => a != 0 && i <= SLOTS && Passed(x.addrs, a, i) && Grown(known, x.code)
    case Matched(a, s, known) => a != 0 && s < SLOTS && x.addrs[s] == a && Grown(known, x.code)
    case Hit(a, entry, known) => a in x.code && x.code[a] == entry && Grown(known, x.code)
    case Miss(a, known) => a !in known && Grown(known, x.code)
  }

  ghost predicate Inv(x: Sys) {
    TableOk(x) && WriterOk(x) && ReaderOk(x)
  }

  lemma PassedMore(addrs: seq<nat>, addrs': seq<nat>, a: nat, i: nat, s: nat, b: nat)
    requires |addrs| == SLOTS && i <= SLOTS && s < SLOTS && addrs' == addrs[s := b] && addrs[s] == 0 && Passed(addrs, a, i)
    ensures Passed(addrs', a, i)
  {
  }

  lemma PassedNext(addrs: seq<nat>, a: nat, i: nat)
    requires |addrs| == SLOTS && i < SLOTS && Passed(addrs, a, i) && addrs[Slot(Hash(a), i)] != 0 && addrs[Slot(Hash(a), i)] != a
    ensures Passed(addrs, a, i + 1)
  {
  }

  /** Publishing an address disturbs no reader. */
  lemma Published(x: Sys, y: Sys)
    requires Inv(x) && WriterStep(x, y) && x.w.Filled?
    ensures Inv(y)
  {
    var a, i := x.w.a, x.w.i;
    var s := Slot(Hash(a), i);
    Put(x.addrs, x.at, a, i);
    Stored(x.entries, x.at, a, s, x.w.entry, x.addrs);
    if x.r.Probing? {
      PassedMore(x.addrs, y.addrs, x.r.a, x.r.i, s, a);
    }
    hide Probed, Passed, Hash, Slot;
  }

  lemma WriterKeeps(x: Sys, y: Sys)
    requires Inv(x) && WriterStep(x, y)
    ensures Inv(y)
  {
    match x.w
    case Resting =>
    case Seeking(a, _, i) =>
      if i < SLOTS && x.addrs[Slot(Hash(a), i)] != 0 && x.addrs[Slot(Hash(a), i)] != a { PassedNext(x.addrs, a, i); }
      hide Probed, Passed, Hash, Slot;
    case Chosen(a, entry, i) => Stored(x.entries, x.at, a, Slot(Hash(a), i), entry, x.addrs);
    case Filled(_, _, _) => Published(x, y);
  }

  lemma ReaderKeeps(x: Sys, y: Sys)
    requires Inv(x) && ReaderStep(x, y)
    ensures Inv(y)
  {
    match x.r
    case Off =>
    case Probing(a, i, known) =>
      if i >= SLOTS {
        AllPassed(x.addrs, x.at, a);
      } else {
        var seen := x.addrs[Slot(Hash(a), i)];
        if seen == 0 { EmptyMeansAbsent(x.addrs, x.at, a, i); } else if seen != a { PassedNext(x.addrs, a, i); }
      }
    case Matched(a, s, known) => Found(x.addrs, x.at, a, s);
    case Hit(_, _, _) =>
    case Miss(_, _) =>
  }

  /**
   * Every state of every run: a reader that finds the address gets the entry
   * that was published for it, and a reader that does not find it started
   * before it was published.
   */
  lemma {:induction false} ReadersSafe(run: seq<Sys>, i: nat)
    requires IsRun(run) && i < |run|
    ensures Inv(run[i])
    ensures run[i].r.Hit? ==> run[i].r.a in run[i].code && run[i].code[run[i].r.a] == run[i].r.entry
    ensures run[i].r.Miss? ==> run[i].r.a !in run[i].r.known
    ensures i + 1 < |run| ==> Grown(run[i].code, run[i + 1].code)
  {
    if i > 0 {
      ReadersSafe(run, i - 1);
      assert Step(run[i - 1], run[i - 1 + 1]);
      if WriterStep(run[i - 1], run[i]) { WriterKeeps(run[i - 1], run[i]); } else { ReaderKeeps(run[i - 1], run[i]); }
    }
    if i + 1 < |run| {
      assert Step(run[i], run[i + 1]);
      CodeGrows(run[i], run[i + 1]);
    }
  }

  lemma CodeGrows(x: Sys, y: Sys)
    requires Inv(x) && Step(x, y)
    ensures Grown(x.code, y.code)
  {
    if x.w.Filled? {
      EmptyMeansAbsent(x.addrs, x.at, x.w.a, x.w.i);
    }
  }
}
