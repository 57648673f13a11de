/** How far a limit can be overrun: the check comes before proxying, the increment after it. */
module Overshoot {
  import opened Domain
  import opened Protocol
  import opened Sums
  import opened WriteBehind
  import opened Conservation

  /** 1 for a request between the snapshot that lets it pass the request limit and its
      `IncrRequests`. */
  function Admitted(max: int): Pc -> int {
    (pc: Pc) =>
      match pc
      case Snap(f, seen) => if !f.Requests? && seen.requests < max then 1 else 0
      case Forward => 1
      case Incr(f, _) => if f.Requests? then 1 else 0
      case _ => 0
  }

  /** A request between the snapshot that lets it pass the traffic limit and its `IncrBytes`. */
  predicate PassedTraffic(max: int, pc: Pc) {
    match pc
    case Snap(f, seen) => f.Violations? && seen.bytes < max
    case Forward => true
    case Incr(f, _) => !f.Violations?
    case Mark(f, _, _) => f.Requests?
    case _ => false
  }

  function AdmittedBytes(max: int): Pc -> int {
    (pc: Pc) => if PassedTraffic(max, pc) then 1 else 0
  }

  /** The bytes such a request may still add: what it sent once that is known, else `cap`. */
  function OwedBytes(max: int, cap: nat): Pc -> int {
    (pc: Pc) =>
      if !PassedTraffic(max, pc) then 0
      else if pc.Incr? || pc.Mark? then pc.sent
      else cap
  }

  /** No state of the run has more than `n` processes of weight `w`. */
  predicate AtMost(w: Pc -> int, n: int, s: System, evs: seq<Event>)
    decreases |evs|
  {
    Sum(w, s.procs) <= n && (evs != [] ==> AtMost(w, n, Next(s, evs[0]), evs[1..]))
  }

  /** No single answer is longer than `cap`. */
  predicate AnswersWithin(cap: nat, evs: seq<Event>) {
    forall e :: e in evs ==> e.Run? ==> e.choice.sent <= cap
  }

  /** Every process that already knows its byte count knows one within `cap`. */
  predicate SentWithin(cap: nat, ps: seq<Pc>) {
    forall i :: 0 <= i < |ps| ==> (ps[i].Incr? || ps[i].Mark?) ==> ps[i].sent <= cap
  }

  function Max(a: int, b: int): int {
    if a < b then b else a
  }

  // ----- requests -----

  function Load(s: System, max: int): int {
    Current(s.stores, Requests) + Sum(Admitted(max), s.procs)
  }

  lemma LoadProc(p: EffectivePolicy, st: Stores, pc: Pc, c: Choice, max: int)
    requires p.maxRequests == Some(max) && StoreSound(st) && Warm(st, pc)
    ensures var (st', pc') := StepPc(p, st, pc, c);
            || Current(st', Requests) + Admitted(max)(pc') <= Current(st, Requests) + Admitted(max)(pc)
            || (Current(st', Requests) < max && Admitted(max)(pc') == 1)
    ensures var (st', pc') := StepPc(p, st, pc, c);
            Current(st', Requests) > Current(st, Requests) ==> Admitted(max)(pc) == 1 && Admitted(max)(pc') == 0
    ensures Current(StepPc(p, st, pc, c).0, Requests) <= Current(st, Requests) + 1
  {
    match pc {
      case Incr(g, sent) =>
      case Seed(g, seed) =>
      case Snap(g, seen) =>
      case _ =>
    }
  }

  lemma LoadNext(s: System, e: Event, max: int, n: int)
    requires Sound(s) && !e.Wipe? && s.policy.maxRequests == Some(max)
    requires Sum(Admitted(max), Next(s, e).procs) <= n
    ensures Load(Next(s, e), max) <= Max(Load(s, max), max - 1 + n)
  {
    SumNext(Admitted(max), s, e);
    match e {
      case Run(i, c) =>
        if i < |s.procs| {
          LoadProc(s.policy, s.stores, s.procs[i], c, max);
        }
      case Sync(fail) => BalanceSync(s.stores, s.worker, fail, Requests);
      case _ =>
    }
  }

  /** The quota overshoot bound, over every interleaving. */
  lemma {:induction false} QuotaOvershoot(s: System, evs: seq<Event>, max: int, n: int)
    requires Sound(s) && NoWipe(evs) && s.policy.maxRequests == Some(max)
    requires AtMost(Admitted(max), n, s, evs)
    ensures Load(Exec(s, evs), max) <= Max(Load(s, max), max - 1 + n)
    decreases |evs|
  {
    if evs != [] {
      SoundNext(s, evs[0]);
      LoadNext(s, evs[0], max, n);
      QuotaOvershoot(Next(s, evs[0]), evs[1..], max, n);
    }
  }

  lemma {:induction false} AdmittedNonNegative(max: int, ps: seq<Pc>)
    ensures Sum(Admitted(max), ps) >= 0
  {
    SumNonNegative(Admitted(max), ps);
  }

  lemma {:induction false} PendingIsAdmitted(max: int, ps: seq<Pc>)
    ensures Sum(Pending(Requests), ps) <= Sum(Admitted(max), ps)
  {
    SumBound(Pending(Requests), Admitted(max), 1, ps);
  }

  /** Started at rest, with at most `n` requests admitted and not yet counted at any time: the
      counter, together with the answers still to be counted, stays within `max - 1 + n`. */
  lemma QuotaFromRest(s: System, evs: seq<Event>, max: int, n: int)
    requires Sound(s) && Quiescent(s) && NoWipe(evs) && s.policy.maxRequests == Some(max)
    requires AtMost(Admitted(max), n, s, evs)
    ensures var t := Exec(s, evs);
            Current(t.stores, Requests) + Sum(Pending(Requests), t.procs) <= Max(Current(s.stores, Requests), max - 1 + n)
  {
    SumZero(Admitted(max), s.procs);
    QuotaOvershoot(s, evs, max, n);
    PendingIsAdmitted(max, Exec(s, evs).procs);
  }

  /** One admitted request at a time: the limit is never exceeded. */
  lemma SerialQuota(s: System, evs: seq<Event>, max: int)
    requires Sound(s) && NoWipe(evs) && s.policy.maxRequests == Some(max)
    requires AtMost(Admitted(max), 1, s, evs) && Load(s, max) <= max
    ensures Current(Exec(s, evs).stores, Requests) <= max
  {
    QuotaOvershoot(s, evs, max, 1);
    AdmittedNonNegative(max, Exec(s, evs).procs);
  }

  // ----- traffic -----

  function ByteLoad(s: System, max: int, cap: nat): int {
    Current(s.stores, Bytes) + Sum(OwedBytes(max, cap), s.procs)
  }

  lemma ByteLoadProc(p: EffectivePolicy, st: Stores, pc: Pc, c: Choice, max: int, cap: nat)
    requires p.maxBytes == Some(max) && StoreSound(st) && Warm(st, pc) && c.sent <= cap
    ensures var (st', pc') := StepPc(p, st, pc, c);
            || Current(st', Bytes) + OwedBytes(max, cap)(pc') <= Current(st, Bytes) + OwedBytes(max, cap)(pc)
            || (Current(st', Bytes) == Current(st, Bytes) < max)
  {
    match pc {
      case Incr(g, sent) =>
      case Mark(g, sent, v) =>
      case Seed(g, seed) =>
      case Snap(g, seen) =>
      case _ =>
    }
  }

  lemma SentNext(s: System, e: Event, cap: nat)
    requires SentWithin(cap, s.procs) && (e.Run? ==> e.choice.sent <= cap)
    ensures SentWithin(cap, Next(s, e).procs)
  {
  }

  lemma OwedWithin(max: int, cap: nat, ps: seq<Pc>)
    requires SentWithin(cap, ps)
    ensures Sum(OwedBytes(max, cap), ps) <= cap * Sum(AdmittedBytes(max), ps)
  {
    forall i | 0 <= i < |ps| ensures OwedBytes(max, cap)(ps[i]) <= cap * AdmittedBytes(max)(ps[i]) {
    }
    SumBound(OwedBytes(max, cap), AdmittedBytes(max), cap, ps);
  }

  lemma Scale(cap: nat, a: int, b: int)
    requires a <= b
    ensures cap * a <= cap * b
  {
  }

  lemma ByteLoadNext(s: System, e: Event, max: int, cap: nat, n: int)
    requires Sound(s) && !e.Wipe? && s.policy.maxBytes == Some(max)
    requires SentWithin(cap, s.procs) && (e.Run? ==> e.choice.sent <= cap)
    requires Sum(AdmittedBytes(max), Next(s, e).procs) <= n
    ensures ByteLoad(Next(s, e), max, cap) <= Max(ByteLoad(s, max, cap), max - 1 + n * cap)
  {
    SumNext(OwedBytes(max, cap), s, e);
    SentNext(s, e, cap);
    OwedWithin(max, cap, Next(s, e).procs);
    Scale(cap, Sum(AdmittedBytes(max), Next(s, e).procs), n);
    match e {
      case Run(i, c) =>
        if i < |s.procs| {
          ByteLoadProc(s.policy, s.stores, s.procs[i], c, max, cap);
        }
      case Sync(fail) => BalanceSync(s.stores, s.worker, fail, Bytes);
      case _ =>
    }
  }

  /** The traffic overshoot bound, over every interleaving. */
  lemma {:induction false} TrafficOvershoot(s: System, evs: seq<Event>, max: int, cap: nat, n: int)
    requires Sound(s) && NoWipe(evs) && s.policy.maxBytes == Some(max)
    requires SentWithin(cap, s.procs) && AnswersWithin(cap, evs)
    requires AtMost(AdmittedBytes(max), n, s, evs)
    ensures ByteLoad(Exec(s, evs), max, cap) <= Max(ByteLoad(s, max, cap), max - 1 + n * cap)
    decreases |evs|
  {
    if evs != [] {
      assert evs[0] in evs;
      SoundNext(s, evs[0]);
      ByteLoadNext(s, evs[0], max, cap, n);
      SentNext(s, evs[0], cap);
      TrafficOvershoot(Next(s, evs[0]), evs[1..], max, cap, n);
    }
  }

  /** Started at rest, with answers of at most `cap` bytes and at most `n` requests admitted and
      not yet counted at any time: the bytes counted, together with those sent but not yet
      counted, stay within `max - 1 + n * cap`. */
  lemma TrafficFromRest(s: System, evs: seq<Event>, max: int, cap: nat, n: int)
    requires Sound(s) && Quiescent(s) && NoWipe(evs) && s.policy.maxBytes == Some(max)
    requires AnswersWithin(cap, evs) && AtMost(AdmittedBytes(max), n, s, evs)
    ensures var t := Exec(s, evs);
            Current(t.stores, Bytes) + Sum(Pending(Bytes), t.procs) <= Max(Current(s.stores, Bytes), max - 1 + n * cap)
  {
    SumZero(OwedBytes(max, cap), s.procs);
    TrafficOvershoot(s, evs, max, cap, n);
    SumBound(Pending(Bytes), OwedBytes(max, cap), 1, Exec(s, evs).procs);
  }
}
