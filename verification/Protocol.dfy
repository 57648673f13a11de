/** The enforcement protocol of one shared link, one store command at a time.

    Guest requests (app/internal/proxy/handler.go, app/internal/service/enforcement_service.go),
    owner terminations (app/internal/service/link_service.go) and the sync worker
    (app/internal/limiter/sync_worker.go) share the link's Redis keys, its membership of the
    dirty set, its usage_counters row, its status and its link_terminations rows. Each of them
    is a program counter, and every Redis or Postgres command is one step. */
module Protocol {
  import opened Domain

  /** The link's Redis keys: a missing key is not in the map. */
  type Keys = map<Field, int>

  /** Everything the processes of one link share. */
  datatype Stores = Stores(
    keys: Keys, dirty: bool, durable: Option<Counters>, status: Status, ledger: seq<Reason>)

  predicate AllKeys(keys: Keys) {
    Requests in keys && Bytes in keys && Violations in keys
  }

  /** GET, with a missing key read as 0 (`intOrZero`). */
  function Read(keys: Keys, f: Field): int {
    if f in keys then keys[f] else 0
  }

  function SetNX(keys: Keys, f: Field, v: int): Keys {
    if f in keys then keys else keys[f := v]
  }

  function IncrBy(keys: Keys, f: Field, n: int): Keys {
    keys[f := Read(keys, f) + n]
  }

  /** What `warmLoad` reads: a missing usage_counters row stands for zeros. */
  function Usage(durable: Option<Counters>): Counters {
    if durable.Some? then durable.value else ZERO
  }

  datatype Outcome =
    | NotUsable                // 404 or 410 before the enforcer is asked
    | InternalError
    | Denied(reason: Reason)
    | Blocked                  // blacklisted, link still alive
    | Served
    | OwnerTerminated
    | AlreadyTerminated

  datatype Pc =
    | Lookup                                     // GetByToken and inactiveReason
    | LoadUsage                                  // warmLoad: read usage_counters
    | Seed(field: Field, seed: Counters)         // warmLoad: SETNX field
    | Gate                                       // Resolve, blacklist, TTL
    | Snap(field: Field, seen: Counters)         // Get in BeforeProxy: GET field
    | Forward                                    // admitted: call the target site
    | Incr(field: Field, sent: nat)              // INCRBY field
    | Mark(field: Field, sent: nat, value: int)  // SADD dirty, value is what INCRBY returned
    | Recheck(field: Field, seen: Counters)      // Get in AfterProxy: GET field
    | TermRead(reason: Reason, out: Outcome)     // GetByID
    | TermWrite(reason: Reason, out: Outcome)    // UpdateStatus
    | TermRow(reason: Reason, out: Outcome)      // insert link_terminations
    | Done(out: Outcome)

  /** What the environment decides at one step of a process. */
  datatype Choice = Choice(
    fail: bool,        // the store command of this step fails
    unusable: bool,    // past expires_at, or the owner's session is not active
    blocked: bool,     // a blacklist rule matches
    late: bool,        // the policy's TTL deadline has passed
    sent: nat)         // bytes written to the guest

  /** The order of the numeric checks in `BeforeProxy`. */
  function Verdict(p: EffectivePolicy, c: Counters): Option<Reason> {
    if Hits(p.maxRequests, c.requests) then Some(RequestLimit)
    else if Hits(p.maxBytes, c.bytes) then Some(TrafficLimit)
    else if c.violations >= p.maxViolations then Some(ViolationLimit)
    else None
  }

  /** The switch at the end of `AfterProxy`: violations are not looked at. */
  function LateVerdict(p: EffectivePolicy, c: Counters): Option<Reason> {
    if Hits(p.maxRequests, c.requests) then Some(RequestLimit)
    else if Hits(p.maxBytes, c.bytes) then Some(TrafficLimit)
    else None
  }

  function Delta(f: Field, sent: nat): nat {
    if f.Bytes? then sent else 1
  }

  function AfterSeed(f: Field, seed: Counters): Pc {
    match f
    case Requests => Seed(Bytes, seed)
    case Bytes => Seed(Violations, seed)
    case Violations => Gate
  }

  function AfterSnap(p: EffectivePolicy, f: Field, seen: Counters): Pc {
    match f
    case Requests => Snap(Bytes, seen)
    case Bytes => Snap(Violations, seen)
    case Violations =>
      var v := Verdict(p, seen);
      if v.Some? then TermRead(v.value, Denied(v.value)) else Forward
  }

  /** Where a process goes once an increment is over; `value` is 0 if it failed. */
  function AfterIncr(p: EffectivePolicy, f: Field, sent: nat, value: int): Pc {
    match f
    case Requests => Incr(Bytes, sent)
    case Bytes => Recheck(Requests, ZERO)
    case Violations =>
      if value >= p.maxViolations then TermRead(ViolationLimit, Denied(ViolationLimit)) else Done(Blocked)
  }

  function AfterRecheck(p: EffectivePolicy, f: Field, seen: Counters): Pc {
    match f
    case Requests => Recheck(Bytes, seen)
    case Bytes => Recheck(Violations, seen)
    case Violations =>
      var v := LateVerdict(p, seen);
      if v.Some? then TermRead(v.value, Served) else Done(Served)
  }

  /** `autoTerminate` logs an error and goes on; `TerminateLink` reports it. */
  function TermFailed(reason: Reason, out: Outcome): Pc {
    if reason.Manual? then Done(InternalError) else Done(out)
  }

  /** One step of one process: the new shared stores and the new program counter. */
  function StepPc(p: EffectivePolicy, st: Stores, pc: Pc, c: Choice): (Stores, Pc) {
    match pc
    case Lookup =>
      if c.fail || c.unusable || st.status != Active then (st, Done(NotUsable)) else (st, LoadUsage)
    case LoadUsage =>
      if c.fail then (st, Done(InternalError)) else (st, Seed(Requests, Usage(st.durable)))
    case Seed(f, seed) =>
      if c.fail then (st, Done(InternalError))
      else (st.(keys := SetNX(st.keys, f, seed.At(f))), AfterSeed(f, seed))
    case Gate =>
      if c.fail then (st, Done(InternalError))
      else if c.blocked then (st, Incr(Violations, 0))
      else if p.maxTtlSeconds.Some? && c.late then (st, TermRead(TtlExpired, Denied(TtlExpired)))
      else (st, Snap(Requests, ZERO))
    case Snap(f, seen) =>
      if c.fail then (st, Done(InternalError))
      else (st, AfterSnap(p, f, seen.With(f, Read(st.keys, f))))
    case Forward =>
      if c.fail then (st, Done(InternalError)) else (st, Incr(Requests, c.sent))
    case Incr(f, sent) =>
      if c.fail then (st, AfterIncr(p, f, sent, 0))
      else
        var keys := IncrBy(st.keys, f, Delta(f, sent));
        (st.(keys := keys), Mark(f, sent, keys[f]))
    case Mark(f, sent, v) =>
      if c.fail then (st, AfterIncr(p, f, sent, 0)) else (st.(dirty := true), AfterIncr(p, f, sent, v))
    case Recheck(f, seen) =>
      if c.fail then (st, Done(Served))
      else (st, AfterRecheck(p, f, seen.With(f, Read(st.keys, f))))
    case TermRead(r, out) =>
      if c.fail then (st, TermFailed(r, out))
      else if st.status == Terminated then (st, Done(if r.Manual? then AlreadyTerminated else out))
      else (st, TermWrite(r, out))
    case TermWrite(r, out) =>
      if c.fail then (st, TermFailed(r, out)) else (st.(status := Terminated), TermRow(r, out))
    case TermRow(r, out) =>
      if c.fail then (st, TermFailed(r, out)) else (st.(ledger := st.ledger + [r]), Done(out))
    case Done(_) => (st, pc)
  }

  /** The single sync worker, as seen from this link. */
  datatype WorkerPc =
    | Idle
    | Reading(field: Field, seen: Counters)   // listed by SMEMBERS: GET field is next
    | Upserting(seen: Counters)
    | Clearing

  function AfterRead(f: Field, seen: Counters): WorkerPc {
    match f
    case Requests => Reading(Bytes, seen)
    case Bytes => Reading(Violations, seen)
    case Violations => Upserting(seen)
  }

  function StepWorker(st: Stores, w: WorkerPc, fail: bool): (Stores, WorkerPc) {
    match w
    case Idle => if !fail && st.dirty then (st, Reading(Requests, ZERO)) else (st, Idle)
    case Reading(f, seen) => if fail then (st, Idle) else (st, AfterRead(f, seen.With(f, Read(st.keys, f))))
    case Upserting(seen) => if fail then (st, Idle) else (st.(durable := Some(seen)), Clearing)
    case Clearing => if fail then (st, Idle) else (st.(dirty := false), Idle)
  }

  /** The target was called for process `id` and `sent` bytes went back to the guest. */
  datatype Answer = Answer(id: nat, sent: nat)

  /** The whole system of one link. `answers` and `blocked` are history: every answer
      sent back, and the number of requests a rule blocked. */
  datatype System = System(
    policy: EffectivePolicy, stores: Stores, procs: seq<Pc>, worker: WorkerPc,
    answers: seq<Answer>, blocked: nat)

  datatype Event =
    | Arrive                      // a guest request reaches the handler
    | OwnerClick                  // the owner asks to terminate, ownership already checked
    | Run(id: nat, choice: Choice)
    | Sync(fail: bool)            // one step of the sync worker
    | Wipe                        // Redis restarts empty

  function RunProc(s: System, i: nat, c: Choice): System
    requires i < |s.procs|
  {
    var (st, pc) := StepPc(s.policy, s.stores, s.procs[i], c);
    s.(stores := st,
       procs := s.procs[i := pc],
       answers := if s.procs[i].Forward? && !c.fail then s.answers + [Answer(i, c.sent)] else s.answers,
       blocked := if s.procs[i].Gate? && !c.fail && c.blocked then s.blocked + 1 else s.blocked)
  }

  /** An event that is not enabled changes nothing, so every event sequence is a run. */
  function Next(s: System, e: Event): System {
    match e
    case Arrive => s.(procs := s.procs + [Lookup])
    case OwnerClick => s.(procs := s.procs + [TermRead(Manual, OwnerTerminated)])
    case Run(i, c) => if i < |s.procs| then RunProc(s, i, c) else s
    case Sync(fail) =>
      var (st, w) := StepWorker(s.stores, s.worker, fail);
      s.(stores := st, worker := w)
    case Wipe => s.(stores := s.stores.(keys := map[], dirty := false))
  }

  function Exec(s: System, evs: seq<Event>): System
    decreases |evs|
  {
    if evs == [] then s else Exec(Next(s, evs[0]), evs[1..])
  }

  lemma {:induction false} ExecAppend(s: System, a: seq<Event>, b: seq<Event>)
    ensures Exec(s, a + b) == Exec(Exec(s, a), b)
    decreases |a|
  {
    if a == [] {
      assert a + b == b;
    } else {
      assert (a + b)[0] == a[0] && (a + b)[1..] == a[1..] + b;
      ExecAppend(Next(s, a[0]), a[1..], b);
    }
  }

  /** No Redis restart. */
  predicate NoWipe(evs: seq<Event>) {
    forall e :: e in evs ==> !e.Wipe?
  }

  predicate Fails(e: Event) {
    (e.Run? && e.choice.fail) || (e.Sync? && e.fail)
  }

  predicate NoFailure(evs: seq<Event>) {
    forall e :: e in evs ==> !Fails(e)
  }

  /** No process is mid-way. */
  predicate Quiescent(s: System) {
    forall i :: 0 <= i < |s.procs| ==> s.procs[i].Done?
  }

  /** A counter's value as the protocol will come to see it: the live key, or before the
      first warm load the durable value that will seed it. */
  function Current(st: Stores, f: Field): int {
    if f in st.keys then st.keys[f] else Usage(st.durable).At(f)
  }

  function CurrentAll(st: Stores): Counters {
    Counters(Current(st, Requests), Current(st, Bytes), Current(st, Violations))
  }
}
