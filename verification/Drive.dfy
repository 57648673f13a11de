/** One process run to its end without interruption, and what the enforcer then decides. */
module Drive {
  import opened Domain
  import opened Protocol
  import opened Progress
  import opened CounterStores
  import opened LinkServices

  /** What the environment does to one request: which commands fail, and what the request is.
      `seeds` and `incr` give the number of pipeline commands that take effect. */
  datatype Env = Env(
    loadFails: bool, seeds: nat, gateFails: bool, blocked: bool, late: bool, snapFails: bool,
    incr: Field -> nat, recheckFails: bool, term: TermFaults, eventFails: bool)

  function Position(f: Field): nat {
    3 - Rank(f)
  }

  function ChoiceAt(env: Env, pc: Pc): Choice {
    var fail :=
      match pc
      case LoadUsage => env.loadFails
      case Seed(f, _) => env.seeds <= Position(f)
      case Gate => env.gateFails
      case Snap(_, _) => env.snapFails
      case Incr(f, _) => env.incr(f) == 0
      case Mark(f, _, _) => env.incr(f) == 1
      case Recheck(_, _) => env.recheckFails
      case TermRead(_, _) => env.term.read
      case TermWrite(_, _) => env.term.write
      case TermRow(_, _) => env.term.row
      case _ => false;
    Choice(fail, false, env.blocked, env.late, 0)
  }

  /** Steps of the protocol until the process is done or about to call the target. */
  function Driven(p: EffectivePolicy, st: Stores, pc: Pc, env: Env): (Stores, Pc)
    decreases Left(pc)
  {
    if pc.Done? || pc.Forward? then (st, pc)
    else
      StepGetsOn(p, st, pc, ChoiceAt(env, pc));
      var (st', pc') := StepPc(p, st, pc, ChoiceAt(env, pc));
      Driven(p, st', pc', env)
  }

  // ----- the phases -----

  lemma DriveSeed(p: EffectivePolicy, st: Stores, f: Field, seed: Counters, env: Env)
    ensures Driven(p, st, Seed(f, seed), env) ==
      if env.seeds <= Position(f) then (st, Done(InternalError))
      else Driven(p, st.(keys := SetNX(st.keys, f, seed.At(f))), AfterSeed(f, seed), env)
  {
    assert Driven(p, st, Done(InternalError), env) == (st, Done(InternalError));
  }

  lemma DriveWarmLoad(p: EffectivePolicy, st: Stores, env: Env)
    ensures Driven(p, st, LoadUsage, env) ==
      if env.loadFails then (st, Done(InternalError))
      else
        var st' := st.(keys := SeedKeys(st.keys, Usage(st.durable), env.seeds));
        if env.seeds < 3 then (st', Done(InternalError)) else Driven(p, st', Gate, env)
  {
    if !env.loadFails {
      var seed := Usage(st.durable);
      assert Driven(p, st, LoadUsage, env) == Driven(p, st, Seed(Requests, seed), env);
      DriveSeed(p, st, Requests, seed, env);
      if env.seeds >= 1 {
        var st1 := st.(keys := SetNX(st.keys, Requests, seed.requests));
        DriveSeed(p, st1, Bytes, seed, env);
        if env.seeds >= 2 {
          DriveSeed(p, st1.(keys := SetNX(st1.keys, Bytes, seed.bytes)), Violations, seed, env);
        }
      }
    }
  }

  /** The first request of a link that has neither keys nor a usage_counters row finds three
      zeros at the gate; with a row and no keys it finds the row's three values. */
  lemma FirstWarmLoad(p: EffectivePolicy, st: Stores, env: Env)
    requires st.keys == map[] && !env.loadFails && env.seeds >= 3
    ensures st.durable == None ==>
      Driven(p, st, LoadUsage, env) ==
      Driven(p, st.(keys := map[Requests := 0, Bytes := 0, Violations := 0]), Gate, env)
    ensures forall c: Counters :: st.durable == Some(c) ==>
      Driven(p, st, LoadUsage, env) ==
      Driven(p, st.(keys := map[Requests := c.requests, Bytes := c.bytes, Violations := c.violations]), Gate, env)
  {
    DriveWarmLoad(p, st, env);
    if st.durable.None? {
      assert SeedKeys(map[], Usage(None), env.seeds) == map[Requests := 0, Bytes := 0, Violations := 0];
    } else {
      var c := st.durable.value;
      assert SeedKeys(map[], c, env.seeds) == map[Requests := c.requests, Bytes := c.bytes, Violations := c.violations];
    }
  }

  lemma DriveSnapshot(p: EffectivePolicy, st: Stores, env: Env)
    ensures Driven(p, st, Snap(Requests, ZERO), env) ==
      if env.snapFails then (st, Done(InternalError))
      else Driven(p, st, AfterSnap(p, Violations, Snapshot(st.keys)), env)
  {
    if !env.snapFails {
      var s1 := ZERO.With(Requests, Read(st.keys, Requests));
      var s2 := s1.With(Bytes, Read(st.keys, Bytes));
      assert Driven(p, st, Snap(Requests, ZERO), env) == Driven(p, st, Snap(Bytes, s1), env);
      assert Driven(p, st, Snap(Bytes, s1), env) == Driven(p, st, Snap(Violations, s2), env);
      assert s2.With(Violations, Read(st.keys, Violations)) == Snapshot(st.keys);
    }
  }

  lemma DriveRecheck(p: EffectivePolicy, st: Stores, env: Env)
    ensures Driven(p, st, Recheck(Requests, ZERO), env) ==
      if env.recheckFails then (st, Done(Served))
      else Driven(p, st, AfterRecheck(p, Violations, Snapshot(st.keys)), env)
  {
    if !env.recheckFails {
      var s1 := ZERO.With(Requests, Read(st.keys, Requests));
      var s2 := s1.With(Bytes, Read(st.keys, Bytes));
      assert Driven(p, st, Recheck(Requests, ZERO), env) == Driven(p, st, Recheck(Bytes, s1), env);
      assert Driven(p, st, Recheck(Bytes, s1), env) == Driven(p, st, Recheck(Violations, s2), env);
      assert s2.With(Violations, Read(st.keys, Violations)) == Snapshot(st.keys);
    }
  }

  /** One `incrAndMarkDirty` with `reached` commands taking effect. */
  function Counted(st: Stores, f: Field, sent: nat, reached: nat): Stores {
    st.(keys := if reached >= 1 then IncrBy(st.keys, f, Delta(f, sent)) else st.keys,
        dirty := st.dirty || reached >= 2)
  }

  lemma DriveIncr(p: EffectivePolicy, st: Stores, f: Field, sent: nat, env: Env)
    ensures var st' := Counted(st, f, sent, env.incr(f));
            Driven(p, st, Incr(f, sent), env) ==
              Driven(p, st', AfterIncr(p, f, sent, if env.incr(f) >= 2 then Read(st'.keys, f) else 0), env)
  {
    if env.incr(f) >= 1 {
      var keys := IncrBy(st.keys, f, Delta(f, sent));
      var st1 := st.(keys := keys);
      assert Driven(p, st, Incr(f, sent), env) == Driven(p, st1, Mark(f, sent, keys[f]), env);
    }
  }

  /** An automatic termination: its row is written only if nothing failed. */
  function AutoTerminated(st: Stores, r: Reason, faults: TermFaults): Stores {
    if faults.read || st.status.Terminated? || faults.write then st
    else st.(status := Terminated, ledger := if faults.row then st.ledger else st.ledger + [r])
  }

  lemma DriveDone(p: EffectivePolicy, st: Stores, out: Outcome, env: Env)
    ensures Driven(p, st, Done(out), env) == (st, Done(out))
  {
  }

  lemma DriveStep(p: EffectivePolicy, st: Stores, pc: Pc, env: Env)
    requires !pc.Done? && !pc.Forward?
    ensures var (st', pc') := StepPc(p, st, pc, ChoiceAt(env, pc));
            Driven(p, st, pc, env) == Driven(p, st', pc', env)
  {
  }

  lemma DriveRow(p: EffectivePolicy, st: Stores, r: Reason, out: Outcome, env: Env)
    requires !r.Manual?
    ensures Driven(p, st, TermRow(r, out), env) ==
      (if env.term.row then st else st.(ledger := st.ledger + [r]), Done(out))
  {
    DriveStep(p, st, TermRow(r, out), env);
    DriveDone(p, if env.term.row then st else st.(ledger := st.ledger + [r]), out, env);
  }

  lemma DriveWrite(p: EffectivePolicy, st: Stores, r: Reason, out: Outcome, env: Env)
    requires !r.Manual?
    ensures Driven(p, st, TermWrite(r, out), env) ==
      if env.term.write then (st, Done(out)) else Driven(p, st.(status := Terminated), TermRow(r, out), env)
  {
    DriveStep(p, st, TermWrite(r, out), env);
    DriveDone(p, st, out, env);
  }

  lemma DriveTermination(p: EffectivePolicy, st: Stores, r: Reason, out: Outcome, env: Env)
    requires !r.Manual?
    ensures Driven(p, st, TermRead(r, out), env) == (AutoTerminated(st, r, env.term), Done(out))
  {
    DriveStep(p, st, TermRead(r, out), env);
    DriveDone(p, st, out, env);
    DriveWrite(p, st, r, out, env);
    DriveRow(p, st.(status := Terminated), r, out, env);
  }

  /** Past the gate: counted as a violation, too late, or on to the counters. */
  lemma DriveGate(p: EffectivePolicy, st: Stores, env: Env)
    ensures Driven(p, st, Gate, env) ==
      if env.gateFails then (st, Done(InternalError))
      else if env.blocked then Driven(p, st, Incr(Violations, 0), env)
      else if p.maxTtlSeconds.Some? && env.late then (AutoTerminated(st, TtlExpired, env.term), Done(Denied(TtlExpired)))
      else Driven(p, st, Snap(Requests, ZERO), env)
  {
    DriveStep(p, st, Gate, env);
    DriveDone(p, st, InternalError, env);
    DriveTermination(p, st, TtlExpired, Denied(TtlExpired), env);
  }

  /** From the snapshot to the verdict: denied with the first reason that holds, or let in. */
  lemma DriveVerdict(p: EffectivePolicy, st: Stores, env: Env)
    ensures Driven(p, st, Snap(Requests, ZERO), env) ==
      if env.snapFails then (st, Done(InternalError))
      else
        var v := Verdict(p, Snapshot(st.keys));
        if v.Some? then (AutoTerminated(st, v.value, env.term), Done(Denied(v.value))) else (st, Forward)
  {
    DriveSnapshot(p, st, env);
    if !env.snapFails {
      var v := Verdict(p, Snapshot(st.keys));
      if v.Some? {
        DriveTermination(p, st, v.value, Denied(v.value), env);
      } else {
        assert Driven(p, st, Forward, env) == (st, Forward);
      }
    }
  }

  /** A blocked request: counted, and the link terminated once the limit is reached. */
  lemma DriveViolation(p: EffectivePolicy, st: Stores, env: Env)
    ensures var st' := Counted(st, Violations, 0, env.incr(Violations));
            var v := if env.incr(Violations) >= 2 then Read(st'.keys, Violations) else 0;
            Driven(p, st, Incr(Violations, 0), env) ==
              if v >= p.maxViolations then (AutoTerminated(st', ViolationLimit, env.term), Done(Denied(ViolationLimit)))
              else (st', Done(Blocked))
  {
    DriveIncr(p, st, Violations, 0, env);
    var st' := Counted(st, Violations, 0, env.incr(Violations));
    DriveTermination(p, st', ViolationLimit, Denied(ViolationLimit), env);
    assert Driven(p, st', Done(Blocked), env) == (st', Done(Blocked));
  }

  /** An owner's termination, once ownership is established. */
  lemma DriveOwner(p: EffectivePolicy, st: Stores, env: Env)
    ensures Driven(p, st, TermRead(Manual, OwnerTerminated), env) ==
      if env.term.read then (st, Done(InternalError))
      else if st.status.Terminated? then (st, Done(AlreadyTerminated))
      else if env.term.write then (st, Done(InternalError))
      else if env.term.row then (st.(status := Terminated), Done(InternalError))
      else (st.(status := Terminated, ledger := st.ledger + [Manual]), Done(OwnerTerminated))
  {
    DriveStep(p, st, TermRead(Manual, OwnerTerminated), env);
    DriveStep(p, st, TermWrite(Manual, OwnerTerminated), env);
    var st1 := st.(status := Terminated);
    DriveStep(p, st1, TermRow(Manual, OwnerTerminated), env);
    DriveDone(p, st, InternalError, env);
    DriveDone(p, st, AlreadyTerminated, env);
    DriveDone(p, st1, InternalError, env);
    DriveDone(p, st1.(ledger := st.ledger + [Manual]), OwnerTerminated, env);
  }
}
