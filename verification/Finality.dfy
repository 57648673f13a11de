/** Termination is final, and an exhausted limit refuses every later request. */
module Finality {
  import opened Domain
  import opened Protocol
  import opened WriteBehind
  import opened Termination
  import opened Progress

  /** The request has been let in by the handler and the target may still be called for it. */
  predicate InFlight(pc: Pc) {
    pc.LoadUsage? || pc.Seed? || pc.Gate? || pc.Snap? || pc.Forward?
  }

  ghost predicate AnsweredSince(s0: System, s: System, i: nat) {
    i < |s0.procs| <= |s.procs| && InFlight(s0.procs[i]) && !InFlight(s.procs[i])
  }

  /** From `s0`, which is terminated, to `s`: still terminated, and every answer given since
      then went to a different request that was in flight at `s0`. */
  ghost predicate OnlyInFlight(s0: System, s: System) {
    && s.stores.status.Terminated?
    && |s0.procs| <= |s.procs|
    && s0.answers <= s.answers
    && (forall i :: 0 <= i < |s.procs| && InFlight(s.procs[i]) ==> i < |s0.procs| && InFlight(s0.procs[i]))
    && (forall k :: |s0.answers| <= k < |s.answers| ==> AnsweredSince(s0, s, s.answers[k].id))
    && (forall j, k :: |s0.answers| <= j < k < |s.answers| ==> s.answers[j].id != s.answers[k].id)
  }

  lemma InFlightStep(p: EffectivePolicy, st: Stores, pc: Pc, c: Choice)
    requires st.status.Terminated?
    ensures StepPc(p, st, pc, c).0.status.Terminated?
    ensures InFlight(StepPc(p, st, pc, c).1) ==> InFlight(pc)
    ensures pc.Forward? ==> !InFlight(StepPc(p, st, pc, c).1)
  {
  }

  lemma OnlyInFlightNext(s0: System, s: System, e: Event)
    requires OnlyInFlight(s0, s)
    ensures OnlyInFlight(s0, Next(s, e))
  {
    var s' := Next(s, e);
    if e.Run? && e.id < |s.procs| {
      var i := e.id;
      InFlightStep(s.policy, s.stores, s.procs[i], e.choice);
      forall k | |s0.answers| <= k < |s'.answers| ensures AnsweredSince(s0, s', s'.answers[k].id) {
        if k < |s.answers| {
          assert AnsweredSince(s0, s, s.answers[k].id);
        }
      }
    } else {
      forall k | |s0.answers| <= k < |s'.answers| ensures AnsweredSince(s0, s', s'.answers[k].id) {
        assert AnsweredSince(s0, s, s.answers[k].id);
      }
    }
  }

  /** Whatever happens after the link is terminated (failures and Redis restarts included), it
      stays terminated, no request that looks the link up from then on reaches the target, and
      each one that was in flight is answered at most once. */
  lemma {:induction false} TerminationIsFinal(s0: System, s: System, evs: seq<Event>)
    requires OnlyInFlight(s0, s)
    ensures OnlyInFlight(s0, Exec(s, evs))
    decreases |evs|
  {
    if evs != [] {
      OnlyInFlightNext(s0, s, evs[0]);
      TerminationIsFinal(s0, Next(s, evs[0]), evs[1..]);
    }
  }

  /** The request has not yet read counter `f`, or has read it at or over its limit, or can no
      longer be answered. */
  ghost predicate Refused(p: EffectivePolicy, f: Field, pc: Pc) {
    match pc
    case Snap(g, seen) => Before(f, g) ==> Over(p, seen, f)
    case Forward => false
    case _ => true
  }

  ghost predicate AllRefused(s: System, f: Field, from: nat) {
    && OverLimit(s, f)
    && (forall i :: from <= i < |s.procs| ==> Refused(s.policy, f, s.procs[i]))
  }

  lemma RefusedStep(p: EffectivePolicy, st: Stores, pc: Pc, c: Choice, f: Field)
    requires StoreSound(st) && Warm(st, pc) && Over(p, CurrentAll(st), f) && Refused(p, f, pc)
    ensures Refused(p, f, StepPc(p, st, pc, c).1)
  {
  }

  lemma OverStays(p: EffectivePolicy, a: Stores, b: Stores, f: Field)
    requires StoreSound(b) && Later(a, b) && Over(p, CurrentAll(a), f)
    ensures Over(p, CurrentAll(b), f)
  {
    assert Current(a, f) <= Current(b, f);
  }

  lemma AllRefusedNext(s: System, e: Event, f: Field, from: nat)
    requires Sound(s) && !e.Wipe? && AllRefused(s, f, from) && from <= |s.procs|
    ensures AllRefused(Next(s, e), f, from)
    ensures forall k :: |s.answers| <= k < |Next(s, e).answers| ==> Next(s, e).answers[k].id < from
  {
    SoundNext(s, e);
    OverStays(s.policy, s.stores, Next(s, e).stores, f);
    if e.Run? && e.id < |s.procs| && from <= e.id {
      RefusedStep(s.policy, s.stores, s.procs[e.id], e.choice, f);
    }
  }

  lemma {:induction false} AnswersGrow(s: System, evs: seq<Event>)
    ensures s.answers <= Exec(s, evs).answers
    decreases |evs|
  {
    if evs != [] {
      AnswersGrow(Next(s, evs[0]), evs[1..]);
    }
  }

  /** Once a counter is at or over its limit, no request that has not read it yet is answered,
      whether or not the link is terminated and whatever fails: with `from` the number of
      processes present, no request that arrives later ever reaches the target. */
  lemma {:induction false} ExhaustedLimitRefuses(s: System, evs: seq<Event>, f: Field, from: nat)
    requires Sound(s) && NoWipe(evs) && AllRefused(s, f, from) && from <= |s.procs|
    ensures AllRefused(Exec(s, evs), f, from)
    ensures |s.answers| <= |Exec(s, evs).answers|
    ensures forall k :: |s.answers| <= k < |Exec(s, evs).answers| ==> Exec(s, evs).answers[k].id < from
    decreases |evs|
  {
    if evs != [] {
      var s1 := Next(s, evs[0]);
      SoundNext(s, evs[0]);
      AllRefusedNext(s, evs[0], f, from);
      ExhaustedLimitRefuses(s1, evs[1..], f, from);
      AnswersGrow(s1, evs[1..]);
    }
  }

  // ----- the next request catches up -----

  /** The process is on its way to the status write: it will find counter `f` over its limit, or
      has found some limit hit. */
  ghost predicate Heading(p: EffectivePolicy, f: Field, pc: Pc) {
    match pc
    case Lookup => true
    case LoadUsage => true
    case Seed(_, _) => true
    case Gate => true
    case Snap(g, seen) => Before(f, g) ==> Over(p, seen, f)
    case TermRead(_, _) => true
    case TermWrite(_, _) => true
    case _ => false
  }

  /** Whenever process `i` runs, nothing fails and the request is usable and not blacklisted. */
  predicate Steady(i: nat, evs: seq<Event>) {
    forall e :: e in evs ==> e.Run? && e.id == i ==> !e.choice.fail && !e.choice.unusable && !e.choice.blocked
  }

  lemma HeadingStep(p: EffectivePolicy, st: Stores, pc: Pc, c: Choice, f: Field)
    requires StoreSound(st) && Warm(st, pc) && Over(p, CurrentAll(st), f) && Heading(p, f, pc)
    requires !c.fail && !c.unusable && !c.blocked && st.status.Active?
    ensures var (st', pc') := StepPc(p, st, pc, c); st'.status.Terminated? || Heading(p, f, pc')
  {
  }

  /** Even after failures have let an over-limit link stay active, the next request that runs
      through without a failure terminates it, whatever the others do meanwhile. */
  lemma {:induction false} NextRequestTerminates(s: System, evs: seq<Event>, i: nat, f: Field)
    requires Sound(s) && NoWipe(evs) && OverLimit(s, f) && Steady(i, evs)
    requires i < |s.procs| && (s.stores.status.Terminated? || Heading(s.policy, f, s.procs[i]))
    requires i < |Exec(s, evs).procs| && Exec(s, evs).procs[i].Done?
    ensures Exec(s, evs).stores.status.Terminated?
    decreases |evs|
  {
    if evs != [] {
      var e, s1 := evs[0], Next(s, evs[0]);
      assert e in evs;
      SoundNext(s, e);
      OverStays(s.policy, s.stores, s1.stores, f);
      if s.stores.status.Active? && e.Run? && e.id == i {
        HeadingStep(s.policy, s.stores, s.procs[i], e.choice, f);
      }
      NextRequestTerminates(s1, evs[1..], i, f);
    }
  }

  // ----- the owner's click -----

  /** How far the owner's click, process `i`, has come. */
  predicate ClickOnItsWay(s: System, i: nat) {
    && i < |s.procs|
    && match s.procs[i]
       case TermRead(Manual, OwnerTerminated) => true
       case TermWrite(Manual, OwnerTerminated) => true
       case TermRow(Manual, OwnerTerminated) => s.stores.status.Terminated?
       case Done(OwnerTerminated) => s.stores.status.Terminated? && Manual in s.stores.ledger
       case Done(AlreadyTerminated) => s.stores.status.Terminated?
       case _ => false
  }

  lemma ClickNext(s: System, e: Event, i: nat)
    requires ClickOnItsWay(s, i) && (e.Run? && e.id == i ==> !e.choice.fail)
    ensures ClickOnItsWay(Next(s, e), i)
  {
    if e.Run? && e.id < |s.procs| {
      var st' := StepPc(s.policy, s.stores, s.procs[e.id], e.choice).0;
      assert s.stores.ledger <= st'.ledger;
    }
  }

  lemma {:induction false} ClickRun(s: System, evs: seq<Event>, i: nat)
    requires ClickOnItsWay(s, i) && forall e :: e in evs ==> e.Run? && e.id == i ==> !e.choice.fail
    ensures ClickOnItsWay(Exec(s, evs), i)
    decreases |evs|
  {
    if evs != [] {
      assert evs[0] in evs;
      ClickNext(s, evs[0], i);
      ClickRun(Next(s, evs[0]), evs[1..], i);
    }
  }

  /** An owner's click whose own commands succeed ends with the link terminated, whatever the
      others, failures and restarts do meanwhile: with a row of its own if it is accepted, and
      refused only because the link was terminated already. */
  lemma OwnerClickTerminates(s: System, evs: seq<Event>)
    requires forall e :: e in evs ==> e.Run? && e.id == |s.procs| ==> !e.choice.fail
    requires Turns(|s.procs|, evs) >= 3
    ensures var i, t := |s.procs|, Exec(Next(s, OwnerClick), evs);
            && i < |t.procs| && t.stores.status.Terminated?
            && (t.procs[i] == Done(AlreadyTerminated) || (t.procs[i] == Done(OwnerTerminated) && Manual in t.stores.ledger))
  {
    var s1 := Next(s, OwnerClick);
    ClickRun(s1, evs, |s.procs|);
    ProcessFinishes(s1, evs, |s.procs|);
  }
}
