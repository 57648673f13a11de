/** Why a link is terminated: every claim and every ledger row is true. */
module Causes {
  import opened Domain
  import opened Protocol
  import opened WriteBehind
  import opened Termination

  /** The reason holds of the counters. */
  predicate Holds(p: EffectivePolicy, c: Counters, r: Reason) {
    match r
    case RequestLimit => Over(p, c, Requests)
    case TrafficLimit => Over(p, c, Bytes)
    case ViolationLimit => Over(p, c, Violations)
    case TtlExpired => p.maxTtlSeconds.Some?
    case Manual => true
  }

  /** What has been read before counter `f` is not ahead of `c`. */
  ghost predicate ReadSoFar(c: Counters, f: Field, seen: Counters) {
    forall h: Field :: Before(h, f) ==> seen.At(h) <= c.At(h)
  }

  /** What a process has read is not ahead of the counters, and a terminator's reason holds. */
  ghost predicate Truthful(p: EffectivePolicy, c: Counters, pc: Pc) {
    match pc
    case Snap(g, seen) => ReadSoFar(c, g, seen)
    case Recheck(g, seen) => ReadSoFar(c, g, seen)
    case Mark(g, _, v) => g.Violations? ==> v <= c.violations
    case TermRead(r, _) => Holds(p, c, r)
    case TermWrite(r, _) => Holds(p, c, r)
    case TermRow(r, _) => Holds(p, c, r)
    case _ => true
  }

  ghost predicate AllTruthful(s: System) {
    var c := CurrentAll(s.stores);
    && c.violations >= 0
    && (forall i :: 0 <= i < |s.procs| ==> Truthful(s.policy, c, s.procs[i]))
    && (forall k :: 0 <= k < |s.stores.ledger| ==> Holds(s.policy, c, s.stores.ledger[k]))
  }

  lemma CountersGrow(a: Stores, b: Stores)
    requires StoreSound(b) && Later(a, b)
    ensures Within(CurrentAll(a), CurrentAll(b))
  {
    assert Current(a, Requests) <= Current(b, Requests);
    assert Current(a, Bytes) <= Current(b, Bytes);
    assert Current(a, Violations) <= Current(b, Violations);
  }

  lemma TruthfulStays(p: EffectivePolicy, c: Counters, d: Counters, pc: Pc)
    requires Within(c, d) && Truthful(p, c, pc)
    ensures Truthful(p, d, pc)
  {
  }

  lemma ReadOneMore(c: Counters, f: Field, seen: Counters, v: int)
    requires ReadSoFar(c, f, seen) && v <= c.At(f)
    ensures f.Requests? ==> ReadSoFar(c, Bytes, seen.With(f, v))
    ensures f.Bytes? ==> ReadSoFar(c, Violations, seen.With(f, v))
    ensures f.Violations? ==> Within(seen.With(f, v), c)
  {
    if f.Violations? {
      assert seen.At(Requests) <= c.At(Requests) && seen.At(Bytes) <= c.At(Bytes);
    }
  }

  lemma VerdictHolds(p: EffectivePolicy, seen: Counters, c: Counters)
    requires Within(seen, c)
    ensures Verdict(p, seen).Some? ==> Holds(p, c, Verdict(p, seen).value)
    ensures LateVerdict(p, seen).Some? ==> Holds(p, c, LateVerdict(p, seen).value)
  {
  }

  lemma TruthfulSnapshot(p: EffectivePolicy, st: Stores, pc: Pc, c: Choice)
    requires (pc.Snap? || pc.Recheck?) && Warm(st, pc) && ReadSoFar(CurrentAll(st), pc.field, pc.seen)
    ensures Truthful(p, CurrentAll(st), StepPc(p, st, pc, c).1)
  {
    var f, v := pc.field, Read(st.keys, pc.field);
    ReadOneMore(CurrentAll(st), f, pc.seen, v);
    if f.Violations? {
      VerdictHolds(p, pc.seen.With(f, v), CurrentAll(st));
    }
  }

  lemma TruthfulElsewhere(p: EffectivePolicy, st: Stores, pc: Pc, c: Choice)
    requires !pc.Snap? && !pc.Recheck? && Truthful(p, CurrentAll(st), pc) && CurrentAll(st).violations >= 0
    requires Within(CurrentAll(st), CurrentAll(StepPc(p, st, pc, c).0))
    ensures Truthful(p, CurrentAll(StepPc(p, st, pc, c).0), StepPc(p, st, pc, c).1)
  {
  }

  lemma TruthfulProc(p: EffectivePolicy, st: Stores, pc: Pc, c: Choice)
    requires StoreSound(st) && Warm(st, pc) && Truthful(p, CurrentAll(st), pc) && CurrentAll(st).violations >= 0
    requires Within(CurrentAll(st), CurrentAll(StepPc(p, st, pc, c).0))
    ensures Truthful(p, CurrentAll(StepPc(p, st, pc, c).0), StepPc(p, st, pc, c).1)
  {
    if pc.Snap? || pc.Recheck? {
      TruthfulSnapshot(p, st, pc, c);
    } else {
      TruthfulElsewhere(p, st, pc, c);
    }
  }

  lemma LedgerTruthfulNext(s: System, e: Event)
    requires AllTruthful(s) && Within(CurrentAll(s.stores), CurrentAll(Next(s, e).stores))
    ensures var s' := Next(s, e); forall k :: 0 <= k < |s'.stores.ledger| ==>
              Holds(s.policy, CurrentAll(s'.stores), s'.stores.ledger[k])
  {
    var s' := Next(s, e);
    forall k | 0 <= k < |s'.stores.ledger| ensures Holds(s.policy, CurrentAll(s'.stores), s'.stores.ledger[k]) {
      if k < |s.stores.ledger| {
        assert Holds(s.policy, CurrentAll(s.stores), s.stores.ledger[k]);
      }
    }
  }

  lemma AllTruthfulNext(s: System, e: Event)
    requires Sound(s) && !e.Wipe? && AllTruthful(s)
    ensures AllTruthful(Next(s, e))
  {
    var s' := Next(s, e);
    SoundNext(s, e);
    CountersGrow(s.stores, s'.stores);
    LedgerTruthfulNext(s, e);
    forall i | 0 <= i < |s'.procs| ensures Truthful(s.policy, CurrentAll(s'.stores), s'.procs[i]) {
      if e.Run? && e.id == i {
        TruthfulProc(s.policy, s.stores, s.procs[i], e.choice);
      } else if i < |s.procs| {
        TruthfulStays(s.policy, CurrentAll(s.stores), CurrentAll(s'.stores), s.procs[i]);
      }
    }
  }

  /** Whatever fails, a row for a limit is written only once that limit has been reached. */
  lemma {:induction false} LedgerTellsTheTruth(s: System, evs: seq<Event>)
    requires Sound(s) && AllTruthful(s) && NoWipe(evs)
    ensures AllTruthful(Exec(s, evs))
    decreases |evs|
  {
    if evs != [] {
      SoundNext(s, evs[0]);
      AllTruthfulNext(s, evs[0]);
      LedgerTellsTheTruth(Next(s, evs[0]), evs[1..]);
    }
  }

  /** The event calls for a termination with this reason: the owner clicks, or a request that no
      rule blocks finds the policy's TTL deadline passed. The counters account for the others. */
  predicate CallsFor(s: System, e: Event, r: Reason) {
    match r
    case Manual => e.OwnerClick?
    case TtlExpired =>
      && e.Run? && e.id < |s.procs| && s.procs[e.id].Gate?
      && s.policy.maxTtlSeconds.Some? && e.choice.late && !e.choice.blocked && !e.choice.fail
    case _ => true
  }

  predicate CalledFor(s: System, evs: seq<Event>, r: Reason)
    decreases |evs|
  {
    evs != [] && (CallsFor(s, evs[0], r) || CalledFor(Next(s, evs[0]), evs[1..], r))
  }

  predicate Terminating(pc: Pc, r: Reason) {
    (pc.TermRead? || pc.TermWrite? || pc.TermRow?) && pc.reason == r
  }

  /** No row and no terminator with this reason. */
  predicate Unheard(s: System, r: Reason) {
    r !in s.stores.ledger && forall i :: 0 <= i < |s.procs| ==> !Terminating(s.procs[i], r)
  }

  lemma UnheardProc(p: EffectivePolicy, st: Stores, pc: Pc, c: Choice, r: Reason)
    requires (r.Manual? || r.TtlExpired?) && r !in st.ledger && !Terminating(pc, r)
    requires r.TtlExpired? ==> !(pc.Gate? && p.maxTtlSeconds.Some? && c.late && !c.blocked && !c.fail)
    ensures r !in StepPc(p, st, pc, c).0.ledger && !Terminating(StepPc(p, st, pc, c).1, r)
  {
  }

  lemma UnheardNext(s: System, e: Event, r: Reason)
    requires (r.Manual? || r.TtlExpired?) && Unheard(s, r) && !CallsFor(s, e, r)
    ensures Unheard(Next(s, e), r)
  {
    if e.Run? && e.id < |s.procs| {
      UnheardProc(s.policy, s.stores, s.procs[e.id], e.choice, r);
    }
  }

  /** In every run, whatever fails and however often Redis restarts: a "manual" row means that
      the owner clicked, a "ttl expired" row that a request met its policy's passed deadline. */
  lemma {:induction false} RowsAreCalledFor(s: System, evs: seq<Event>, r: Reason)
    requires (r.Manual? || r.TtlExpired?) && Unheard(s, r)
    ensures r in Exec(s, evs).stores.ledger ==> CalledFor(s, evs, r)
    decreases |evs|
  {
    if evs != [] && !CallsFor(s, evs[0], r) {
      UnheardNext(s, evs[0], r);
      RowsAreCalledFor(Next(s, evs[0]), evs[1..], r);
    }
  }

  /** No owner and no expired TTL: only the counters can terminate the link. */
  predicate LimitsOnly(evs: seq<Event>) {
    forall e :: e in evs ==> !e.OwnerClick? && (e.Run? ==> !e.choice.late)
  }

  predicate CounterReason(r: Reason) {
    r.RequestLimit? || r.TrafficLimit? || r.ViolationLimit?
  }

  predicate TerminatorWithCounterReason(pc: Pc) {
    pc.TermRead? || pc.TermWrite? || pc.TermRow? ==> CounterReason(pc.reason)
  }

  ghost predicate Justified(s: System) {
    && (s.stores.status.Terminated? ==> AnyOver(s))
    && (forall i :: 0 <= i < |s.procs| ==> TerminatorWithCounterReason(s.procs[i]))
  }

  lemma AnyOverStays(s: System, e: Event)
    requires Sound(s) && !e.Wipe? && AnyOver(s)
    ensures AnyOver(Next(s, e))
  {
    SoundNext(s, e);
    CountersGrow(s.stores, Next(s, e).stores);
  }

  lemma CounterReasonProc(p: EffectivePolicy, st: Stores, pc: Pc, c: Choice)
    requires TerminatorWithCounterReason(pc) && !c.late
    ensures TerminatorWithCounterReason(StepPc(p, st, pc, c).1)
    ensures StepPc(p, st, pc, c).0.status != st.status ==> pc.TermWrite?
  {
  }

  lemma JustifiedNext(s: System, e: Event)
    requires Sound(s) && !e.Wipe? && AllTruthful(s) && Justified(s)
    requires !e.OwnerClick? && (e.Run? ==> !e.choice.late)
    ensures Justified(Next(s, e))
  {
    if e.Run? && e.id < |s.procs| {
      assert TerminatorWithCounterReason(s.procs[e.id]);
      CounterReasonProc(s.policy, s.stores, s.procs[e.id], e.choice);
      if s.procs[e.id].TermWrite? {
        assert Truthful(s.policy, CurrentAll(s.stores), s.procs[e.id]);
      }
    }
    if AnyOver(s) {
      AnyOverStays(s, e);
    }
  }

  lemma {:induction false} JustifiedRun(s: System, evs: seq<Event>)
    requires Sound(s) && AllTruthful(s) && Justified(s) && NoWipe(evs) && LimitsOnly(evs)
    ensures Justified(Exec(s, evs))
    decreases |evs|
  {
    if evs != [] {
      assert evs[0] in evs;
      SoundNext(s, evs[0]);
      AllTruthfulNext(s, evs[0]);
      JustifiedNext(s, evs[0]);
      JustifiedRun(Next(s, evs[0]), evs[1..]);
    }
  }

  /** Business rule 5 and 6, both directions: started at rest, active and below every limit,
      with no owner click, no expired TTL and no failure, whenever all processes are done the
      link is terminated exactly if some counter is at or over its limit. */
  lemma TerminatedExactlyIfOver(s: System, evs: seq<Event>)
    requires Sound(s) && Quiescent(s) && s.stores.status.Active? && s.stores.ledger == []
    requires !AnyOver(s) && CurrentAll(s.stores).violations >= 0
    requires NoWipe(evs) && NoFailure(evs) && LimitsOnly(evs) && Quiescent(Exec(s, evs))
    ensures Exec(s, evs).stores.status.Terminated? <==> AnyOver(Exec(s, evs))
  {
    JustifiedRun(s, evs);
    var t := Exec(s, evs);
    if OverLimit(t, Requests) { NoMissedTermination(s, evs, Requests); }
    if OverLimit(t, Bytes) { NoMissedTermination(s, evs, Bytes); }
    if OverLimit(t, Violations) { NoMissedTermination(s, evs, Violations); }
  }
}
