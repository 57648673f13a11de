/** Redis restarts, and when the durable copy may be trusted. */
module Restart {
  import opened Domain
  import opened Protocol
  import opened Sums
  import opened WriteBehind
  import opened Conservation
  import opened Overshoot
  import opened Termination
  import opened Finality

  // ----- a restart between requests -----

  /** The process survives the loss of every key: it has not read the durable counters yet, or
      no longer needs the keys. */
  predicate Detached(st: Stores, pc: Pc) {
    match pc
    case Lookup => true
    case LoadUsage => true
    case Seed(f, seed) => f.Requests? && seed == Usage(st.durable)
    case TermRead(_, _) => true
    case TermWrite(_, _) => true
    case TermRow(_, _) => true
    case Done(_) => true
    case _ => false
  }

  /** The moment of the restart: no flush running, no request past its warm load. */
  ghost predicate Calm(s: System) {
    s.worker.Idle? && (forall i :: 0 <= i < |s.procs| ==> Detached(s.stores, s.procs[i]))
  }

  lemma SeedAfterWipe(st: Stores, f: Field, seed: Counters)
    requires st.keys == map[]
    ensures Warm(st, Seed(f, seed)) <==> f.Requests? && seed == Usage(st.durable)
  {
    var u := Usage(st.durable);
    if Warm(st, Seed(f, seed)) {
      assert !Before(Requests, f);
      assert seed.At(Requests) == u.At(Requests) && seed.At(Bytes) == u.At(Bytes) && seed.At(Violations) == u.At(Violations);
    }
  }

  /** A restart keeps the write-behind invariant exactly if it happens at a calm moment. */
  lemma WipeSafeExactlyWhenCalm(s: System)
    ensures Sound(Next(s, Wipe)) <==> Calm(s)
  {
    var s' := Next(s, Wipe);
    forall i | 0 <= i < |s.procs| ensures Warm(s'.stores, s'.procs[i]) <==> Detached(s.stores, s.procs[i]) {
      if s.procs[i].Seed? {
        SeedAfterWipe(s'.stores, s.procs[i].field, s.procs[i].seed);
      }
    }
  }

  lemma CalmOwesNothing(s: System, f: Field)
    requires Calm(s)
    ensures Sum(Pending(f), s.procs) == 0
  {
    SumZero(Pending(f), s.procs);
  }

  lemma {:induction false} PendingNonNegative(s: System, f: Field)
    ensures Sum(Pending(f), s.procs) >= 0
  {
    SumNonNegative(Pending(f), s.procs);
  }

  /** After a calm restart, at any moment at which the three keys are back and no answer has
      been given and no request blocked yet, they hold exactly the durable values. */
  lemma WarmLoadRestores(s: System, evs: seq<Event>, f: Field)
    requires Calm(s) && NoWipe(evs)
    requires Observed(Exec(Next(s, Wipe), evs), f) == Observed(s, f)
    requires AllKeys(Exec(Next(s, Wipe), evs).stores.keys)
    ensures Exec(Next(s, Wipe), evs).stores.keys[f] == Usage(s.stores.durable).At(f)
  {
    var w := Next(s, Wipe);
    var t := Exec(w, evs);
    WipeSafeExactlyWhenCalm(s);
    RunStaysSound(w, evs);
    BalanceRun(w, evs, f);
    CalmOwesNothing(s, f);
    PendingNonNegative(t, f);
    assert Current(t.stores, f) >= Current(w.stores, f);
  }

  /** A limit already reached in the durable row still refuses every request after a calm
      restart, those present and those to come. */
  lemma RestartStillRefuses(s: System, evs: seq<Event>, f: Field)
    requires Calm(s) && NoWipe(evs) && Over(s.policy, Usage(s.stores.durable), f)
    ensures Exec(Next(s, Wipe), evs).answers == s.answers
  {
    var w := Next(s, Wipe);
    WipeSafeExactlyWhenCalm(s);
    assert CurrentAll(w.stores) == Usage(s.stores.durable);
    ExhaustedLimitRefuses(w, evs, f, 0);
    AnswersGrow(w, evs);
    var t := Exec(w, evs);
    var k := |w.answers|;
    assert k < |t.answers| ==> t.answers[k].id < 0;
  }

  // ----- the quota across restarts -----

  /** Redis restarts at calm moments only. */
  ghost predicate CalmRestarts(s: System, evs: seq<Event>)
    decreases |evs|
  {
    evs != [] ==> (evs[0].Wipe? ==> Calm(s)) && CalmRestarts(Next(s, evs[0]), evs[1..])
  }

  /** What one event makes the link forget of counter `f`: live minus durable, at a restart. */
  function Forgets(s: System, e: Event, f: Field): int {
    if e.Wipe? then Current(s.stores, f) - Usage(s.stores.durable).At(f) else 0
  }

  function Forgotten(s: System, evs: seq<Event>, f: Field): int
    decreases |evs|
  {
    if evs == [] then 0 else Forgets(s, evs[0], f) + Forgotten(Next(s, evs[0]), evs[1..], f)
  }

  /** A calm restart costs live minus durable, which is never negative, and nothing else. */
  lemma CalmWipe(s: System, f: Field)
    requires Sound(s) && Calm(s)
    ensures Sound(Next(s, Wipe)) && Forgets(s, Wipe, f) >= 0
    ensures Balance(Next(s, Wipe), f) == Balance(s, f) - Forgets(s, Wipe, f)
  {
    WipeSafeExactlyWhenCalm(s);
  }

  lemma {:induction false} BalanceAcrossRestarts(s: System, evs: seq<Event>, f: Field)
    requires Sound(s) && CalmRestarts(s, evs)
    ensures Sound(Exec(s, evs)) && Forgotten(s, evs, f) >= 0
    ensures Balance(Exec(s, evs), f) <= Balance(s, f) - Forgotten(s, evs, f)
    ensures NoFailure(evs) ==> Balance(Exec(s, evs), f) == Balance(s, f) - Forgotten(s, evs, f)
    decreases |evs|
  {
    if evs != [] {
      if evs[0].Wipe? {
        CalmWipe(s, f);
      } else {
        SoundNext(s, evs[0]);
        BalanceNext(s, evs[0], f);
      }
      BalanceAcrossRestarts(Next(s, evs[0]), evs[1..], f);
    }
  }

  lemma LoadAtWipe(s: System, max: int)
    requires Sound(s) && Calm(s)
    ensures Load(Next(s, Wipe), max) <= Load(s, max)
  {
    SumZero(Admitted(max), s.procs);
    CalmWipe(s, Requests);
  }

  lemma {:induction false} LoadAcrossRestarts(s: System, evs: seq<Event>, max: int, n: int)
    requires Sound(s) && CalmRestarts(s, evs) && s.policy.maxRequests == Some(max)
    requires AtMost(Admitted(max), n, s, evs)
    ensures Load(Exec(s, evs), max) <= Max(Load(s, max), max - 1 + n)
    decreases |evs|
  {
    if evs != [] {
      if evs[0].Wipe? {
        CalmWipe(s, Requests);
        LoadAtWipe(s, max);
      } else {
        SoundNext(s, evs[0]);
        LoadNext(s, evs[0], max, n);
      }
      LoadAcrossRestarts(Next(s, evs[0]), evs[1..], max, n);
    }
  }

  /** The quota over a whole life with restarts: from rest, with at most `n` requests admitted
      and not yet counted at any time and no failing command, the answers given exceed the
      bound of a life without restarts by no more than what the restarts made the link forget. */
  lemma QuotaAcrossRestarts(s: System, evs: seq<Event>, max: int, n: int)
    requires Sound(s) && Quiescent(s) && CalmRestarts(s, evs) && NoFailure(evs)
    requires s.policy.maxRequests == Some(max) && AtMost(Admitted(max), n, s, evs)
    ensures Current(s.stores, Requests) + |Exec(s, evs).answers| - |s.answers|
      <= Max(Current(s.stores, Requests), max - 1 + n) + Forgotten(s, evs, Requests)
  {
    SumZero(Admitted(max), s.procs);
    SumZero(Pending(Requests), s.procs);
    LoadAcrossRestarts(s, evs, max, n);
    BalanceAcrossRestarts(s, evs, Requests);
    PendingIsAdmitted(max, Exec(s, evs).procs);
  }

  // ----- a restart under a request -----

  const OK_CHOICE := Choice(false, false, false, false, 0)
  const GO := Run(0, OK_CHOICE)
  const TICK := Sync(false)

  /** Durable row (5, 50, 1) and equal live keys. */
  const SETTLED := Stores(map[Requests := 5, Bytes := 50, Violations := 1], false, Some(Counters(5, 50, 1)), Active, [])
  const UNLIMITED := EffectivePolicy(None, None, None, DEFAULT_MAX_VIOLATIONS)

  /** A request has been answered and is about to be counted. */
  const MID_REQUEST := System(UNLIMITED, SETTLED, [Incr(Requests, 10)], Idle, [Answer(0, 10)], 0)

  lemma Unfold2(s: System, a: Event, b: Event)
    ensures Exec(s, [a, b]) == Next(Next(s, a), b)
  {
    assert [a, b][1..] == [b] && [b][1..] == [];
    assert Exec(Next(s, a), [b]) == Exec(Next(Next(s, a), b), []);
  }

  lemma Unfold4(s: System, a: Event, b: Event, c: Event, d: Event)
    ensures Exec(s, [a, b, c, d]) == Next(Next(Next(Next(s, a), b), c), d)
  {
    assert [a, b, c, d] == [a, b] + [c, d];
    ExecAppend(s, [a, b], [c, d]);
    Unfold2(s, a, b);
    Unfold2(Next(Next(s, a), b), c, d);
  }

  /** A worker that reads undisturbed writes what it reads. */
  lemma ReadThenWrite(s: System)
    requires s.worker == Reading(Requests, ZERO)
    ensures var k := s.stores.keys;
            Exec(s, [TICK, TICK, TICK, TICK]) ==
            s.(worker := Clearing,
               stores := s.stores.(durable := Some(Counters(Read(k, Requests), Read(k, Bytes), Read(k, Violations)))))
  {
    Unfold4(s, TICK, TICK, TICK, TICK);
  }

  /** Why the moment matters: a restart under a request that has been answered but not counted
      makes the worker overwrite the durable row (5, 50, 1) by (1, 0, 0), nothing failing. */
  lemma PhantomZeros()
    ensures Sound(MID_REQUEST) && MID_REQUEST.worker.Idle? && !Calm(MID_REQUEST)
    ensures Exec(MID_REQUEST, [Wipe, GO, GO, TICK] + [TICK, TICK, TICK, TICK]).stores.durable
      == Some(Counters(1, 0, 0))
  {
    Unfold4(MID_REQUEST, Wipe, GO, GO, TICK);
    var s3 := Next(Next(Next(MID_REQUEST, Wipe), GO), GO);
    assert s3.stores.keys == map[Requests := 1] && s3.stores.dirty;
    var s4 := Next(s3, TICK);
    ExecAppend(MID_REQUEST, [Wipe, GO, GO, TICK], [TICK, TICK, TICK, TICK]);
    ReadThenWrite(s4);
  }
}
