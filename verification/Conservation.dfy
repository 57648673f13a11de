/** Counter conservation: what the guests were served is what the counters count. */
module Conservation {
  import opened Domain
  import opened Protocol
  import opened Sums
  import opened WriteBehind

  /** What this process still owes counter `f`. */
  function Pending(f: Field): Pc -> int {
    match f
    case Requests => (pc: Pc) => if pc.Incr? && pc.field.Requests? then 1 else 0
    case Bytes => (pc: Pc) =>
      if (pc.Incr? && !pc.field.Violations?) || (pc.Mark? && pc.field.Requests?) then pc.sent else 0
    case Violations => (pc: Pc) => if pc.Incr? && pc.field.Violations? then 1 else 0
  }

  /** What the outside world saw of `f`: answers given, bytes written, requests blocked. */
  function Observed(s: System, f: Field): nat {
    match f
    case Requests => |s.answers|
    case Bytes => Total(s.answers)
    case Violations => s.blocked
  }

  /** Counted plus owed, less observed. */
  function Balance(s: System, f: Field): int {
    Current(s.stores, f) + Sum(Pending(f), s.procs) - Observed(s, f)
  }

  /** What one step of a process adds to the outside world's view of `f`. */
  function Observes(pc: Pc, c: Choice, f: Field): nat {
    if c.fail then 0
    else match f
      case Requests => if pc.Forward? then 1 else 0
      case Bytes => if pc.Forward? then c.sent else 0
      case Violations => if pc.Gate? && c.blocked then 1 else 0
  }

  lemma BalanceProc(p: EffectivePolicy, st: Stores, pc: Pc, c: Choice, f: Field)
    requires StoreSound(st) && Warm(st, pc)
    ensures var (st', pc') := StepPc(p, st, pc, c);
            var gain := Current(st', f) + Pending(f)(pc') - Current(st, f) - Pending(f)(pc);
            gain <= Observes(pc, c, f) && (!c.fail ==> gain == Observes(pc, c, f))
  {
    match pc {
      case Incr(g, sent) =>
      case Mark(g, sent, v) =>
      case Seed(g, seed) =>
      case _ =>
    }
  }

  lemma BalanceSync(st: Stores, w: WorkerPc, fail: bool, f: Field)
    requires StoreSound(st) && WorkerFresh(st, w)
    ensures Current(StepWorker(st, w, fail).0, f) == Current(st, f)
  {
  }

  lemma BalanceNext(s: System, e: Event, f: Field)
    requires Sound(s) && !e.Wipe?
    ensures Balance(Next(s, e), f) <= Balance(s, f)
    ensures !Fails(e) ==> Balance(Next(s, e), f) == Balance(s, f)
  {
    SumNext(Pending(f), s, e);
    match e {
      case Run(i, c) =>
        if i < |s.procs| {
          BalanceProc(s.policy, s.stores, s.procs[i], c, f);
          TotalAppend(s.answers, Answer(i, c.sent));
          assert Observed(Next(s, e), f) == Observed(s, f) + Observes(s.procs[i], c, f);
        }
      case Sync(fail) => BalanceSync(s.stores, s.worker, fail, f);
      case _ =>
    }
  }

  /** No run ever counts an answer twice, and a run without failures counts every one. */
  lemma {:induction false} BalanceRun(s: System, evs: seq<Event>, f: Field)
    requires Sound(s) && NoWipe(evs)
    ensures Balance(Exec(s, evs), f) <= Balance(s, f)
    ensures NoFailure(evs) ==> Balance(Exec(s, evs), f) == Balance(s, f)
    decreases |evs|
  {
    if evs != [] {
      SoundNext(s, evs[0]);
      BalanceNext(s, evs[0], f);
      BalanceRun(Next(s, evs[0]), evs[1..], f);
    }
  }

  lemma NothingPending(s: System, f: Field)
    requires Quiescent(s)
    ensures Sum(Pending(f), s.procs) == 0
  {
    SumZero(Pending(f), s.procs);
  }

  /** Between two quiescent moments each counter grows by exactly what was observed: one per
      answer, the bytes of every answer, one per blocked request. */
  lemma CountersConserved(s: System, evs: seq<Event>, f: Field)
    requires Sound(s) && Quiescent(s) && NoWipe(evs) && NoFailure(evs) && Quiescent(Exec(s, evs))
    ensures Current(Exec(s, evs).stores, f) - Current(s.stores, f) == Observed(Exec(s, evs), f) - Observed(s, f)
  {
    NothingPending(s, f);
    NothingPending(Exec(s, evs), f);
    BalanceRun(s, evs, f);
  }

  /** Without the no-failure hypothesis the counters can only fall behind. */
  lemma CountersNeverOvercount(s: System, evs: seq<Event>, f: Field)
    requires Sound(s) && Quiescent(s) && NoWipe(evs) && Quiescent(Exec(s, evs))
    ensures 0 <= Current(Exec(s, evs).stores, f) - Current(s.stores, f) <= Observed(Exec(s, evs), f) - Observed(s, f)
  {
    NothingPending(s, f);
    NothingPending(Exec(s, evs), f);
    BalanceRun(s, evs, f);
    RunStaysSound(s, evs);
  }

  /** A link that has just been created: no key, no usage_counters row, no request yet. */
  function NewLink(p: EffectivePolicy): System {
    System(p, Stores(map[], false, None, Active, []), [], Idle, [], 0)
  }

  /** What happened, by the run's own history: answers, their bytes, blocked requests. */
  lemma NewLinkCountsWhatHappened(p: EffectivePolicy, evs: seq<Event>)
    requires NoWipe(evs) && NoFailure(evs) && Quiescent(Exec(NewLink(p), evs))
    requires AllKeys(Exec(NewLink(p), evs).stores.keys)
    ensures var t := Exec(NewLink(p), evs);
            && t.stores.keys[Requests] == |t.answers|
            && t.stores.keys[Bytes] == Total(t.answers)
            && t.stores.keys[Violations] == t.blocked
  {
    CountersConserved(NewLink(p), evs, Requests);
    CountersConserved(NewLink(p), evs, Bytes);
    CountersConserved(NewLink(p), evs, Violations);
  }
}
