/** Termination: none is missed, none is spurious, and it is final. */
module Termination {
  import opened Domain
  import opened Protocol
  import opened Sums
  import opened WriteBehind
  import opened Conservation

  /** Counter `f` is at or over its limit. */
  predicate Over(p: EffectivePolicy, c: Counters, f: Field) {
    match f
    case Requests => Hits(p.maxRequests, c.requests)
    case Bytes => Hits(p.maxBytes, c.bytes)
    case Violations => c.violations >= p.maxViolations
  }

  predicate OverLimit(s: System, f: Field) {
    Over(s.policy, CurrentAll(s.stores), f)
  }

  predicate AnyOver(s: System) {
    OverLimit(s, Requests) || OverLimit(s, Bytes) || OverLimit(s, Violations)
  }

  /** The process is bound to find counter `f` over its limit, or has found some limit hit
      already, and has not yet come to the status write. */
  predicate Bound(p: EffectivePolicy, f: Field, pc: Pc) {
    match pc
    case Mark(g, _, v) => if f.Violations? then g.Violations? && v >= p.maxViolations else g == f || (g.Bytes? && f.Requests?)
    case Incr(g, _) => f.Requests? && g.Bytes?
    case Recheck(g, seen) => !f.Violations? && (Before(f, g) ==> Over(p, seen, f))
    case TermRead(_, _) => true
    case TermWrite(_, _) => true
    case _ => false
  }

  function Responsible(p: EffectivePolicy, f: Field): Pc -> int {
    (pc: Pc) => if Bound(p, f, pc) then 1 else 0
  }

  /** Over the limit and still active means somebody is on the way to the status write. */
  predicate Covered(s: System, f: Field) {
    OverLimit(s, f) && s.stores.status.Active? ==> Sum(Responsible(s.policy, f), s.procs) >= 1
  }

  lemma {:induction false} ResponsibleCount(p: EffectivePolicy, f: Field, ps: seq<Pc>)
    ensures Sum(Responsible(p, f), ps) >= 0
    ensures forall i :: 0 <= i < |ps| ==> Responsible(p, f)(ps[i]) <= Sum(Responsible(p, f), ps)
  {
    SumNonNegative(Responsible(p, f), ps);
  }

  /** One failure-free step: the responsible process stays so, or terminates the link, and a
      step that takes the counter over the limit makes its own process responsible. */
  lemma CoverProc(p: EffectivePolicy, st: Stores, pc: Pc, c: Choice, f: Field)
    requires StoreSound(st) && Warm(st, pc) && !c.fail
    requires StepPc(p, st, pc, c).0.status.Active?
    requires Over(p, CurrentAll(StepPc(p, st, pc, c).0), f)
    requires Over(p, CurrentAll(st), f) ==> Bound(p, f, pc)
    ensures Bound(p, f, StepPc(p, st, pc, c).1)
  {
    match pc {
      case Incr(g, sent) =>
      case Mark(g, sent, v) =>
      case Recheck(g, seen) =>
      case Seed(g, seed) =>
      case _ =>
    }
  }

  lemma CoveredNext(s: System, e: Event, f: Field)
    requires Sound(s) && !e.Wipe? && !Fails(e) && Covered(s, f)
    ensures Covered(Next(s, e), f)
  {
    SumNext(Responsible(s.policy, f), s, e);
    ResponsibleCount(s.policy, f, s.procs);
    ResponsibleCount(s.policy, f, Next(s, e).procs);
    match e {
      case Run(i, c) =>
        if i < |s.procs| {
          if Next(s, e).stores.status.Active? && OverLimit(Next(s, e), f)
            && (OverLimit(s, f) ==> Bound(s.policy, f, s.procs[i])) {
            CoverProc(s.policy, s.stores, s.procs[i], c, f);
          }
          assert Next(s, e).procs[i] == StepPc(s.policy, s.stores, s.procs[i], c).1;
        }
      case Sync(fail) =>
        BalanceSync(s.stores, s.worker, fail, Requests);
        BalanceSync(s.stores, s.worker, fail, Bytes);
        BalanceSync(s.stores, s.worker, fail, Violations);
      case _ =>
    }
  }

  lemma {:induction false} CoveredRun(s: System, evs: seq<Event>, f: Field)
    requires Sound(s) && NoWipe(evs) && NoFailure(evs) && Covered(s, f)
    ensures Covered(Exec(s, evs), f)
    decreases |evs|
  {
    if evs != [] {
      SoundNext(s, evs[0]);
      CoveredNext(s, evs[0], f);
      CoveredRun(Next(s, evs[0]), evs[1..], f);
    }
  }

  lemma {:induction false} PolicyFixed(s: System, evs: seq<Event>)
    ensures Exec(s, evs).policy == s.policy
    decreases |evs|
  {
    if evs != [] {
      PolicyFixed(Next(s, evs[0]), evs[1..]);
    }
  }

  /** No missed termination: started below a limit, whenever all processes are done a counter
      at or over that limit means the link is terminated. */
  lemma NoMissedTermination(s: System, evs: seq<Event>, f: Field)
    requires Sound(s) && NoWipe(evs) && NoFailure(evs) && !OverLimit(s, f)
    requires Quiescent(Exec(s, evs)) && OverLimit(Exec(s, evs), f)
    ensures Exec(s, evs).stores.status.Terminated?
  {
    CoveredRun(s, evs, f);
    PolicyFixed(s, evs);
    SumZero(Responsible(s.policy, f), Exec(s, evs).procs);
  }
}
