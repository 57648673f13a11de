/** The overshoot bounds cannot be improved: for all limits, every answer length and every number
    of requests there is a run without failures that reaches both of them. */
module Tightness {
  import opened Domain
  import opened Protocol
  import opened Sums
  import opened WriteBehind
  import opened Overshoot
  import opened Progress
  import opened LinkServices
  import opened CounterStores
  import opened Drive
  import opened Admission
  import Restart

  /** Two limits, and the length every answer has. */
  datatype Case = Case(max: int, maxBytes: int, cap: nat)

  const SMOOTH := Env(false, 3, false, false, false, false, (f: Field) => 2, false, TermFaults(false, false, false), false)

  function Reached(k: Case, j: nat): Counters {
    Counters(k.max - 1 + j, k.maxBytes - 1 + j * k.cap, 0)
  }

  /** `n` requests have been let in just below both limits, and the first `j` are counted. */
  function Rush(k: Case, n: nat, j: nat): System {
    var c := Reached(k, j);
    System(EffectivePolicy(Some(k.max), Some(k.maxBytes), None, DEFAULT_MAX_VIOLATIONS),
           Stores(map[Requests := c.requests, Bytes := c.bytes, Violations := 0], j > 0, Some(Reached(k, 0)), Active, []),
           seq(n, i requires 0 <= i => if i < j then Mark(Bytes, k.cap, Reached(k, i + 1).bytes) else Forward),
           Idle, seq(j, i requires 0 <= i => Answer(i, k.cap)), 0)
  }

  function All(part: nat -> seq<Event>, n: nat): seq<Event> {
    if n == 0 then [] else All(part, n - 1) + part(n - 1)
  }

  lemma {:induction false} ChainAll(state: nat -> System, part: nat -> seq<Event>, n: nat)
    requires forall i: nat :: i < n ==> Exec(state(i), part(i)) == state(i + 1)
    ensures Exec(state(0), All(part, n)) == state(n)
  {
    if n > 0 {
      ChainAll(state, part, n - 1);
      ExecAppend(state(0), All(part, n - 1), part(n - 1));
    }
  }

  // ----- n requests come in one after the other -----

  function EnterOne(k: Case, n: nat): seq<Event> {
    var s := Rush(k, n, 0);
    [Arrive] + AloneRun(s.policy, s.stores, Lookup, SMOOTH, n)
  }

  lemma EnterDriven(k: Case, n: nat)
    ensures var s := Rush(k, n, 0); Driven(s.policy, s.stores, Lookup, SMOOTH) == (s.stores, Forward)
  {
    var s := Rush(k, n, 0);
    DriveStep(s.policy, s.stores, Lookup, SMOOTH);
    DriveWarmLoad(s.policy, s.stores, SMOOTH);
    assert SeedKeys(s.stores.keys, Usage(s.stores.durable), 3) == s.stores.keys;
    GateVerdict(s.policy, s.stores, SMOOTH);
    assert Snapshot(s.stores.keys) == Reached(k, 0);
  }

  lemma {:induction false} AloneRunHistory(s: System, i: nat)
    requires i < |s.procs|
    ensures var t := Exec(s, AloneRun(s.policy, s.stores, s.procs[i], SMOOTH, i));
            t.answers == s.answers && t.blocked == s.blocked
    decreases Left(s.procs[i])
  {
    var pc := s.procs[i];
    if !(pc.Done? || pc.Forward?) {
      var c := ChoiceAt(SMOOTH, pc);
      StepGetsOn(s.policy, s.stores, pc, c);
      var s1 := Next(s, Run(i, c));
      var rest := AloneRun(s.policy, s1.stores, s1.procs[i], SMOOTH, i);
      assert ([Run(i, c)] + rest)[1..] == rest;
      AloneRunHistory(s1, i);
    }
  }

  lemma Entered(k: Case, n: nat)
    ensures Exec(Rush(k, n, 0), EnterOne(k, n)) == Rush(k, n + 1, 0)
  {
    var s := Rush(k, n, 0);
    var s1 := Next(s, Arrive);
    var rest := AloneRun(s.policy, s.stores, Lookup, SMOOTH, n);
    assert ([Arrive] + rest)[1..] == rest;
    assert s1.procs[n] == Lookup;
    EnterDriven(k, n);
    AloneRunIsDriven(s1, n, SMOOTH);
    AloneRunHistory(s1, n);
    assert s1.procs[n := Forward] == Rush(k, n + 1, 0).procs;
  }

  function Entering(k: Case): nat -> seq<Event> {
    (j: nat) => EnterOne(k, j)
  }

  function EnterAll(k: Case, n: nat): seq<Event> {
    All(Entering(k), n)
  }

  lemma AllEntered(k: Case, n: nat)
    ensures Exec(Rush(k, 0, 0), EnterAll(k, n)) == Rush(k, n, 0)
  {
    forall j: nat | j < n ensures Exec(Rush(k, j, 0), EnterOne(k, j)) == Rush(k, j + 1, 0) {
      Entered(k, j);
    }
    ChainAll((j: nat) => Rush(k, j, 0), Entering(k), n);
  }

  // ----- then all of them are answered and counted -----

  /** Forward, INCRBY requests, SADD, INCRBY bytes of process `j`. */
  function CountOne(k: Case, j: nat): seq<Event> {
    var e := Run(j, Choice(false, false, false, false, k.cap));
    [e, e, e, e]
  }

  function Counting(k: Case): nat -> seq<Event> {
    (j: nat) => CountOne(k, j)
  }

  function CountAll(k: Case, n: nat): seq<Event> {
    All(Counting(k), n)
  }

  lemma AnswerStep(s: System, i: nat, c: Choice)
    requires i < |s.procs| && s.procs[i] == Forward && !c.fail
    ensures Next(s, Run(i, c)) ==
      s.(procs := s.procs[i := Incr(Requests, c.sent)], answers := s.answers + [Answer(i, c.sent)])
  {
  }

  /** INCRBY and SADD of one counter, together. */
  lemma IncrSteps(s: System, i: nat, f: Field, sent: nat, c: Choice)
    requires i < |s.procs| && s.procs[i] == Incr(f, sent) && !c.fail
    ensures var keys := IncrBy(s.stores.keys, f, Delta(f, sent));
            var s1 := Next(s, Run(i, c));
            && s1 == s.(stores := s.stores.(keys := keys), procs := s.procs[i := Mark(f, sent, keys[f])])
            && Next(s1, Run(i, c)) ==
                 s1.(stores := s1.stores.(dirty := true), procs := s.procs[i := AfterIncr(s.policy, f, sent, keys[f])])
  {
    var keys := IncrBy(s.stores.keys, f, Delta(f, sent));
    var s1 := Next(s, Run(i, c));
    assert s1.procs[i := AfterIncr(s.policy, f, sent, keys[f])] == s.procs[i := AfterIncr(s.policy, f, sent, keys[f])];
  }

  /** What `CountOne` does to a system whose process `j` has been let in. */
  function AfterCount(s: System, j: nat, sent: nat): System
    requires j < |s.procs|
  {
    var keys := IncrBy(IncrBy(s.stores.keys, Requests, 1), Bytes, sent);
    s.(stores := s.stores.(keys := keys, dirty := true),
       procs := s.procs[j := Mark(Bytes, sent, keys[Bytes])],
       answers := s.answers + [Answer(j, sent)])
  }

  lemma FourSteps(k: Case, s: System, j: nat)
    requires j < |s.procs| && s.procs[j] == Forward
    ensures Exec(s, CountOne(k, j)) == AfterCount(s, j, k.cap)
  {
    var c := Choice(false, false, false, false, k.cap);
    var e := Run(j, c);
    Restart.Unfold4(s, e, e, e, e);
    AnswerStep(s, j, c);
    var s1 := s.(procs := s.procs[j := Incr(Requests, k.cap)], answers := s.answers + [Answer(j, k.cap)]);
    IncrSteps(s1, j, Requests, k.cap, c);
    var s3 := Next(Next(s1, e), e);
    IncrSteps(s3, j, Bytes, k.cap, c);
  }

  lemma RushAdvances(k: Case, n: nat, j: nat)
    requires j < n
    ensures AfterCount(Rush(k, n, j), j, k.cap) == Rush(k, n, j + 1)
  {
    var c, c' := Reached(k, j), Reached(k, j + 1);
    assert c'.bytes == c.bytes + k.cap;
    var keys := map[Requests := c.requests, Bytes := c.bytes, Violations := 0];
    assert IncrBy(IncrBy(keys, Requests, 1), Bytes, k.cap) ==
      map[Requests := c'.requests, Bytes := c'.bytes, Violations := 0];
    assert Rush(k, n, j).procs[j := Mark(Bytes, k.cap, c'.bytes)] == Rush(k, n, j + 1).procs;
    assert Rush(k, n, j).answers + [Answer(j, k.cap)] == Rush(k, n, j + 1).answers;
  }

  lemma CountedOne(k: Case, n: nat, j: nat)
    requires j < n
    ensures Exec(Rush(k, n, j), CountOne(k, j)) == Rush(k, n, j + 1)
  {
    FourSteps(k, Rush(k, n, j), j);
    RushAdvances(k, n, j);
  }

  lemma AllCounted(k: Case, n: nat)
    ensures Exec(Rush(k, n, 0), CountAll(k, n)) == Rush(k, n, n)
  {
    forall j: nat | j < n ensures Exec(Rush(k, n, j), CountOne(k, j)) == Rush(k, n, j + 1) {
      CountedOne(k, n, j);
    }
    ChainAll((j: nat) => Rush(k, n, j), Counting(k), n);
  }

  // ----- the run stays within the hypotheses -----

  function Arrivals(evs: seq<Event>): nat {
    if evs == [] then 0 else (if evs[0].Arrive? || evs[0].OwnerClick? then 1 else 0) + Arrivals(evs[1..])
  }

  lemma {:induction false} ArrivalsAppend(a: seq<Event>, b: seq<Event>)
    ensures Arrivals(a + b) == Arrivals(a) + Arrivals(b)
  {
    if a == [] {
      assert a + b == b;
    } else {
      assert (a + b)[1..] == a[1..] + b;
      ArrivalsAppend(a[1..], b);
    }
  }

  lemma {:induction false} NoArrivals(evs: seq<Event>)
    requires forall e :: e in evs ==> !e.Arrive? && !e.OwnerClick?
    ensures Arrivals(evs) == 0
  {
    if evs != [] {
      assert evs[0] in evs;
      NoArrivals(evs[1..]);
    }
  }

  predicate Plain(cap: nat, e: Event) {
    !e.Wipe? && !Fails(e) && (e.Run? ==> e.choice.sent <= cap)
  }

  lemma {:induction false} AloneRunIsPlain(p: EffectivePolicy, st: Stores, pc: Pc, i: nat, cap: nat)
    ensures var evs := AloneRun(p, st, pc, SMOOTH, i);
            Arrivals(evs) == 0 && forall e :: e in evs ==> Plain(cap, e)
    decreases Left(pc)
  {
    if !(pc.Done? || pc.Forward?) {
      var c := ChoiceAt(SMOOTH, pc);
      StepGetsOn(p, st, pc, c);
      var (st', pc') := StepPc(p, st, pc, c);
      var rest := AloneRun(p, st', pc', SMOOTH, i);
      AloneRunIsPlain(p, st', pc', i, cap);
      assert ([Run(i, c)] + rest)[1..] == rest;
    }
  }

  lemma {:induction false} AllArePlain(cap: nat, part: nat -> seq<Event>, n: nat)
    requires forall i: nat :: i < n ==> forall e :: e in part(i) ==> Plain(cap, e)
    ensures forall e :: e in All(part, n) ==> Plain(cap, e)
  {
    if n > 0 {
      AllArePlain(cap, part, n - 1);
    }
  }

  lemma {:induction false} ArrivalsOfAll(part: nat -> seq<Event>, one: bool, n: nat)
    requires forall i: nat :: i < n ==> Arrivals(part(i)) == (if one then 1 else 0)
    ensures Arrivals(All(part, n)) == if one then n else 0
  {
    if n > 0 {
      ArrivalsOfAll(part, one, n - 1);
      ArrivalsAppend(All(part, n - 1), part(n - 1));
    }
  }

  lemma EnterOneIsPlain(k: Case, n: nat)
    ensures Arrivals(EnterOne(k, n)) == 1 && forall e :: e in EnterOne(k, n) ==> Plain(k.cap, e)
  {
    var s := Rush(k, n, 0);
    var rest := AloneRun(s.policy, s.stores, Lookup, SMOOTH, n);
    AloneRunIsPlain(s.policy, s.stores, Lookup, n, k.cap);
    assert ([Arrive] + rest)[1..] == rest;
  }

  lemma {:induction false} SumAtMost(w: Pc -> int, ps: seq<Pc>)
    requires forall pc :: w(pc) <= 1
    ensures Sum(w, ps) <= |ps|
  {
    if ps != [] {
      SumAtMost(w, ps[1..]);
    }
  }

  /** No more processes than `n`, no more admitted requests than `n`. */
  lemma {:induction false} FewProcesses(w: Pc -> int, n: int, s: System, evs: seq<Event>)
    requires (forall pc :: w(pc) <= 1) && |s.procs| + Arrivals(evs) <= n
    ensures AtMost(w, n, s, evs)
    decreases |evs|
  {
    SumAtMost(w, s.procs);
    if evs != [] {
      FewProcesses(w, n, Next(s, evs[0]), evs[1..]);
    }
  }

  // ----- the result -----

  function FullRun(k: Case, n: nat): seq<Event> {
    EnterAll(k, n) + CountAll(k, n)
  }

  lemma FullRunReaches(k: Case, n: nat)
    ensures Exec(Rush(k, 0, 0), FullRun(k, n)) == Rush(k, n, n)
  {
    AllEntered(k, n);
    AllCounted(k, n);
    ExecAppend(Rush(k, 0, 0), EnterAll(k, n), CountAll(k, n));
  }

  lemma EnterAllIsPlain(k: Case, n: nat)
    ensures Arrivals(EnterAll(k, n)) == n && forall e :: e in EnterAll(k, n) ==> Plain(k.cap, e)
  {
    forall j: nat ensures Arrivals(Entering(k)(j)) == 1 && forall e :: e in Entering(k)(j) ==> Plain(k.cap, e) {
      EnterOneIsPlain(k, j);
    }
    AllArePlain(k.cap, Entering(k), n);
    ArrivalsOfAll(Entering(k), true, n);
  }

  lemma CountAllIsPlain(k: Case, n: nat)
    ensures Arrivals(CountAll(k, n)) == 0 && forall e :: e in CountAll(k, n) ==> Plain(k.cap, e)
  {
    forall j: nat ensures Arrivals(Counting(k)(j)) == 0 && forall e :: e in Counting(k)(j) ==> Plain(k.cap, e) {
      NoArrivals(CountOne(k, j));
    }
    AllArePlain(k.cap, Counting(k), n);
    ArrivalsOfAll(Counting(k), false, n);
  }

  lemma FullRunIsPlain(k: Case, n: nat)
    ensures Arrivals(FullRun(k, n)) == n && forall e :: e in FullRun(k, n) ==> Plain(k.cap, e)
  {
    EnterAllIsPlain(k, n);
    CountAllIsPlain(k, n);
    ArrivalsAppend(EnterAll(k, n), CountAll(k, n));
  }

  lemma RushSound(k: Case)
    ensures Sound(Rush(k, 0, 0)) && Quiescent(Rush(k, 0, 0))
  {
    var st := Rush(k, 0, 0).stores;
    forall g: Field ensures g in st.keys ==> Usage(st.durable).At(g) <= st.keys[g] {
      match g case Requests => case Bytes => case Violations =>
    }
  }

  /** From rest, one request and one byte below the limits, the run meets every hypothesis of
      `QuotaFromRest` and `TrafficFromRest`, nothing fails, and both bounds are reached. */
  lemma BoundsAreReached(k: Case, n: nat)
    requires k.max >= 1 && k.maxBytes >= 1
    ensures var s, evs := Rush(k, 0, 0), FullRun(k, n);
            && Sound(s) && Quiescent(s) && NoWipe(evs) && NoFailure(evs) && AnswersWithin(k.cap, evs)
            && AtMost(Admitted(k.max), n, s, evs) && AtMost(AdmittedBytes(k.maxBytes), n, s, evs)
            && Current(Exec(s, evs).stores, Requests) == k.max - 1 + n
            && Current(Exec(s, evs).stores, Bytes) == k.maxBytes - 1 + n * k.cap
  {
    var s, evs := Rush(k, 0, 0), FullRun(k, n);
    FullRunReaches(k, n);
    FullRunIsPlain(k, n);
    FewProcesses(Admitted(k.max), n, s, evs);
    FewProcesses(AdmittedBytes(k.maxBytes), n, s, evs);
    RushSound(k);
  }
}
