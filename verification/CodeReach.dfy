/**
 * What recovering a control flow graph should find: the instructions that
 * control can reach, and those at which a basic block has to start.
 */
module CodeReach {
  import opened Options
  import opened InstrFlow

  datatype Program = Program(code: Code, entry: Addr, followCalls: bool)

  ghost predicate Decodable(p: Program, a: Addr) {
    (p.code)(a).Some?
  }

  /** The instruction at `a` simply runs on. */
  ghost predicate RunsOn(p: Program, a: Addr) {
    Decodable(p, a) && KindOf((p.code)(a).value.op) == OTHER
  }

  ghost function After(p: Program, a: Addr): Addr
    requires Decodable(p, a)
  {
    Plus(a, (p.code)(a).value.len)
  }

  ghost function JumpsTo(p: Program, a: Addr): set<Addr> {
    if Decodable(p, a) then Targets(a, (p.code)(a).value, p.followCalls) else {}
  }

  ghost predicate Follows(p: Program, a: Addr, b: Addr) {
    b in JumpsTo(p, a) || (RunsOn(p, a) && After(p, a) == b)
  }

  ghost predicate IsTrace(p: Program, trace: seq<Addr>, a: Addr) {
    && |trace| > 0 && trace[0] == p.entry && trace[|trace| - 1] == a
    && (forall i :: 0 <= i < |trace| ==> Decodable(p, trace[i]))
    && (forall i :: 0 <= i < |trace| - 1 ==> Follows(p, trace[i], trace[i + 1]))
  }

  /** Control can reach `a`, and there is an instruction. */
  ghost predicate Reached(p: Program, a: Addr) {
    exists trace: seq<Addr> :: IsTrace(p, trace, a)
  }

  /** A jump, a call or the start of the function leads to `a`. */
  ghost predicate Entered(p: Program, a: Addr) {
    a == p.entry || exists b: Addr :: Reached(p, b) && a in JumpsTo(p, b)
  }

  /** Two different instructions run on into `a`. */
  ghost predicate Joined(p: Program, a: Addr) {
    exists b: Addr, c: Addr :: b != c && RunsInto(p, b, a) && RunsInto(p, c, a)
  }

  ghost predicate RunsInto(p: Program, b: Addr, a: Addr) {
    Reached(p, b) && RunsOn(p, b) && After(p, b) == a
  }

  ghost predicate Leader(p: Program, a: Addr) {
    Reached(p, a) && (Entered(p, a) || Joined(p, a))
  }

  lemma ReachedEntry(p: Program)
    requires Decodable(p, p.entry)
    ensures Reached(p, p.entry)
  {
    assert IsTrace(p, [p.entry], p.entry);
  }

  lemma ReachedNext(p: Program, a: Addr, b: Addr)
    requires Reached(p, a) && Follows(p, a, b) && Decodable(p, b)
    ensures Reached(p, b)
  {
    var trace: seq<Addr> :| IsTrace(p, trace, a);
    assert IsTrace(p, trace + [b], b);
  }

  lemma ReachedDecodable(p: Program, a: Addr)
    requires Reached(p, a)
    ensures Decodable(p, a)
  {
    var trace: seq<Addr> :| IsTrace(p, trace, a);
    assert Decodable(p, trace[|trace| - 1]);
  }

  // ----------------------------------------------------------------- facts

  /** The reached, entered and joined addresses as sets, for use in invariants. */
  datatype Facts = Facts(reached: iset<Addr>, entered: iset<Addr>, joined: iset<Addr>)

  ghost function FactsOf(p: Program): Facts {
    Facts(iset a: Addr | Reached(p, a), iset a: Addr | Entered(p, a), iset a: Addr | Joined(p, a))
  }

  ghost predicate EnterRule(p: Program, f: Facts, a: Addr) {
    a in f.entered && Decodable(p, a) ==> a in f.reached
  }

  ghost predicate JumpRule(p: Program, f: Facts, a: Addr) {
    a in f.reached ==> forall b :: b in JumpsTo(p, a) ==> b in f.entered
  }

  ghost predicate RunRule(p: Program, f: Facts, a: Addr) {
    a in f.reached && RunsOn(p, a) && Decodable(p, After(p, a)) ==> After(p, a) in f.reached
  }

  ghost predicate JoinRule(p: Program, f: Facts, a: Addr, b: Addr) {
    a in f.reached && b in f.reached && a != b && RunsOn(p, a) && RunsOn(p, b) && After(p, a) == After(p, b) ==> After(p, a) in f.joined
  }

  ghost predicate Laws(p: Program, f: Facts) {
    && p.entry in f.entered
    && (forall a: Addr :: EnterRule(p, f, a))
    && (forall a: Addr :: JumpRule(p, f, a))
    && (forall a: Addr :: RunRule(p, f, a))
    && (forall a: Addr, b: Addr :: JoinRule(p, f, a, b))
  }

  lemma FactsLaws(p: Program)
    ensures Laws(p, FactsOf(p))
  {
    var f := FactsOf(p);
    forall a: Addr ensures EnterRule(p, f, a) {
      if a in f.entered && Decodable(p, a) { EnteredReached(p, a); }
    }
    forall a: Addr ensures RunRule(p, f, a) {
      if a in f.reached && RunsOn(p, a) && Decodable(p, After(p, a)) { ReachedNext(p, a, After(p, a)); }
    }
    forall a: Addr, b: Addr ensures JoinRule(p, f, a, b) {
      if a in f.reached && b in f.reached && a != b && RunsOn(p, a) && RunsOn(p, b) && After(p, a) == After(p, b) {
        assert RunsInto(p, a, After(p, a)) && RunsInto(p, b, After(p, a));
      }
    }
  }

  lemma EnteredReached(p: Program, a: Addr)
    requires Entered(p, a) && Decodable(p, a)
    ensures Reached(p, a)
  {
    if a == p.entry {
      ReachedEntry(p);
    } else {
      var b: Addr :| Reached(p, b) && a in JumpsTo(p, b);
      ReachedNext(p, b, a);
    }
  }

  /** A set of addresses that contains the entry and is closed under control flow contains all reached ones. */
  lemma {:induction false} ClosedContains(p: Program, s: set<Addr>, trace: seq<Addr>, a: Addr)
    requires Decodable(p, p.entry) ==> p.entry in s
    requires forall b: Addr, c: Addr :: b in s && Follows(p, b, c) && Decodable(p, c) ==> c in s
    requires IsTrace(p, trace, a)
    ensures a in s
  {
    if |trace| > 1 {
      var before := trace[..|trace| - 1];
      ClosedContains(p, s, before, before[|before| - 1]);
      assert Follows(p, trace[|trace| - 2], trace[|trace| - 1]);
    }
  }

  /** A set of addresses has at most SPACE elements. */
  lemma {:induction false} Bounded(s: set<nat>, n: nat)
    requires forall x :: x in s ==> x < n
    ensures |s| <= n
  {
    if n == 0 {
      assert s == {};
    } else {
      Bounded(s - {n - 1}, n - 1);
      assert |s| <= |s - {n - 1}| + 1 by {
        if n - 1 in s { assert s == (s - {n - 1}) + {n - 1}; } else { assert s - {n - 1} == s; }
      }
    }
  }
}
