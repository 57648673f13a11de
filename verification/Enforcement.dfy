/** The enforcement service (app/internal/service/enforcement_service.go), one request at a
    time, proved to do what the protocol's process does when nobody interferes. */
module Enforcement {
  import opened Domain
  import opened Protocol
  import opened PolicyResolver
  import opened Blacklist
  import opened CounterStores
  import opened LinkServices
  import opened Drive

  // ----- the TTL deadline -----

  const SECOND := 1_000_000_000
  const TWO_63 := 0x8000_0000_0000_0000
  const TWO_64 := 0x1_0000_0000_0000_0000

  /** Two's complement: what an int64 keeps of `x`. */
  function Int64(x: int): int {
    (x + TWO_63) % TWO_64 - TWO_63
  }

  /** `time.Duration(ttl) * time.Second`, in nanoseconds. */
  function Lifetime(ttl: int): int {
    Int64(ttl * SECOND)
  }

  predicate Late(ttl: Option<int>, createdAt: int, now: int) {
    ttl.Some? && now > createdAt + Lifetime(ttl.value)
  }

  /** The product is exact exactly in this range, which holds every 32-bit column value. */
  lemma LifetimeExact(ttl: int)
    ensures Lifetime(ttl) == ttl * SECOND <==> -TWO_63 <= ttl * SECOND < TWO_63
    ensures -0x8000_0000 <= ttl < 0x8000_0000 ==> Lifetime(ttl) == ttl * SECOND
  {
  }

  /** `access_policies.max_ttl_seconds` is a 32-bit column. */
  predicate TtlColumn(p: AccessPolicy) {
    p.maxTtlSeconds.Some? ==> -0x8000_0000 <= p.maxTtlSeconds.value < 0x8000_0000
  }

  /** A limit of `t` seconds has passed exactly if more than `t` times 10^9 nanoseconds have,
      for every value the column can hold; without a limit nothing is ever late. */
  lemma LateMeans(t: int, createdAt: int, now: int)
    requires -0x8000_0000 <= t < 0x8000_0000
    ensures Late(Some(t), createdAt, now) <==> now - createdAt > t * 1_000_000_000
    ensures !Late(None, createdAt, now)
  {
    LifetimeExact(t);
  }

  /** The folded TTL has passed exactly if some attached policy's own TTL has. */
  lemma LateAsEachPolicy(ps: seq<AccessPolicy>, e: EffectivePolicy, createdAt: int, now: int)
    requires Effective(ps, e) && forall p :: p in ps ==> TtlColumn(p)
    ensures Late(e.maxTtlSeconds, createdAt, now) <==>
      exists p :: p in ps && p.maxTtlSeconds.Some? && now - createdAt > p.maxTtlSeconds.value * 1_000_000_000
  {
    if e.maxTtlSeconds.Some? {
      var q :| q in ps && TtlOf(q) == e.maxTtlSeconds;
      LateMeans(e.maxTtlSeconds.value, createdAt, now);
      if p :| p in ps && p.maxTtlSeconds.Some? && now - createdAt > p.maxTtlSeconds.value * 1_000_000_000 {
        assert TtlOf(p).Some?;
      }
    } else {
      forall p | p in ps ensures p.maxTtlSeconds.None? {
        assert TtlOf(p).None?;
      }
    }
  }

  // ----- requests and decisions -----

  /** What `BeforeProxy` is told and what the policy and rule tables answer. */
  datatype Request = Request(
    verb: string, path: string, createdAt: int, now: int,
    listed: Result<seq<AccessPolicy>>, rules: Result<seq<Rule>>)

  datatype Decision = Decision(allowed: bool, http: nat, err: bool)

  function DecisionOf(pc: Pc): Decision {
    match pc
    case Forward => Decision(true, 200, false)
    case Done(o) =>
      (match o
       case Denied(r) => Decision(false, if r.TtlExpired? then 410 else 403, false)
       case Blocked => Decision(false, 403, false)
       case _ => Decision(false, 500, true))
    case _ => Decision(false, 500, true)
  }

  function PolicyOf(listed: Result<seq<AccessPolicy>>): EffectivePolicy {
    if listed.Ok? then Resolved(listed.value) else UNRESTRICTED
  }

  /** The environment of the protocol's process for this request. */
  ghost function EnvOf(lib: Library, req: Request, env: Env): Env {
    env.(gateFails := req.listed.Err? || req.rules.Err?,
         blocked := req.rules.Ok? && AnyBlocks(lib, req.rules.value, req.verb, req.path),
         late := Late(PolicyOf(req.listed).maxTtlSeconds, req.createdAt, req.now))
  }

  /** What the guest is told: 410 for an expired TTL, 403 for a limit or a blocked path, 500 if
      a store call failed. */
  lemma DecisionCodes(pc: Pc)
    ensures pc == Forward ==> DecisionOf(pc) == Decision(true, 200, false)
    ensures pc == Done(Denied(TtlExpired)) ==> DecisionOf(pc) == Decision(false, 410, false)
    ensures pc in {Done(Denied(RequestLimit)), Done(Denied(TrafficLimit)), Done(Denied(ViolationLimit)), Done(Blocked)} ==>
      DecisionOf(pc) == Decision(false, 403, false)
    ensures pc == Done(InternalError) ==> DecisionOf(pc) == Decision(false, 500, true)
  {
  }

  datatype SecurityEvent = SecurityEvent(link: LinkId, verb: string, path: string)

  /** The events a request leaves: one if it is blocked and the insert succeeds. */
  function Recorded(l: LinkId, req: Request, blocked: bool, env: Env): seq<SecurityEvent> {
    if blocked && !env.eventFails then [SecurityEvent(l, req.verb, req.path)] else []
  }

  class EnforcementService {
    const lib: Library
    const counters: CounterStore
    const usage: UsageTable
    const links: LinkService
    var securityEvents: seq<SecurityEvent>

    constructor (lib: Library, counters: CounterStore, usage: UsageTable, links: LinkService)
      ensures this.lib == lib && this.counters == counters && this.usage == usage && this.links == links
      ensures securityEvents == []
    {
      this.lib, this.counters, this.usage, this.links := lib, counters, usage, links;
      securityEvents := [];
    }

    /** The protocol's view of one link. */
    function StoresOf(l: LinkId): Stores
      reads counters, usage, links
    {
      Stores(counters.KeysOf(l), l in counters.dirty, usage.Row(l), links.StatusOf(l), Reasons(links.RowsOf(l)))
    }

    method WarmLoad(l: LinkId, env: Env) returns (ok: bool)
      modifies counters`ints
      ensures ok <==> !env.loadFails && env.seeds >= 3
      ensures StoresOf(l) == old(StoresOf(l)).(keys :=
        if env.loadFails then old(counters.KeysOf(l))
        else SeedKeys(old(counters.KeysOf(l)), Usage(usage.Row(l)), env.seeds))
      ensures ok && old(counters.KeysOf(l)) == map[] && l !in usage.rows ==>
        counters.KeysOf(l) == map[Requests := 0, Bytes := 0, Violations := 0]
      ensures ok && old(counters.KeysOf(l)) == map[] && l in usage.rows ==>
        counters.KeysOf(l) == map[Requests := usage.rows[l].requests, Bytes := usage.rows[l].bytes,
                                  Violations := usage.rows[l].violations]
      ensures forall k: LinkId :: k != l ==> StoresOf(k) == old(StoresOf(k))
    {
      if env.loadFails {
        return false;
      }
      var row := if l in usage.rows then usage.rows[l] else ZERO;
      ok := counters.WarmLoad(l, row, env.seeds);
    }

    method AutoTerminate(l: LinkId, reason: Reason, env: Env)
      requires l in links.status && !reason.Manual?
      modifies links`status, links`rows
      ensures StoresOf(l) == AutoTerminated(old(StoresOf(l)), reason, env.term)
      ensures links.status.Keys == old(links.status.Keys)
      ensures forall k: LinkId :: k != l ==> StoresOf(k) == old(StoresOf(k))
    {
      ghost var before := links.RowsOf(l);
      var ok := links.AutoTerminate(l, reason, env.term);
      ReasonsAppend(before, Termination(reason, None, ""));
      if !ok {
        assert links.RowsOf(l) == before + [] == before || links.RowsOf(l) == before;
      }
    }

    method Incr(l: LinkId, f: Field, sent: nat, env: Env) returns (value: int)
      modifies counters
      ensures StoresOf(l) == Counted(old(StoresOf(l)), f, sent, env.incr(f))
      ensures value == if env.incr(f) >= 2 then Read(StoresOf(l).keys, f) else 0
      ensures forall k: LinkId :: k != l ==> StoresOf(k) == old(StoresOf(k))
    {
      ghost var before, st := counters.dirty, StoresOf(l);
      var r := counters.IncrAndMarkDirty(l, f, Delta(f, sent), env.incr(f));
      value := if r.Ok? then r.value else 0;
      assert forall k: LinkId :: k != l ==> (k in counters.dirty <==> k in before);
      assert StoresOf(l).keys == Counted(st, f, sent, env.incr(f)).keys;
    }

    method Refuse(l: LinkId, reason: Reason, env: Env) returns (d: Decision)
      requires l in links.status && !reason.Manual? && !reason.TtlExpired?
      modifies links`status, links`rows
      ensures StoresOf(l) == AutoTerminated(old(StoresOf(l)), reason, env.term)
      ensures d == DecisionOf(Done(Denied(reason)))
      ensures links.status.Keys == old(links.status.Keys)
      ensures forall k: LinkId :: k != l ==> StoresOf(k) == old(StoresOf(k))
    {
      AutoTerminate(l, reason, env);
      d := Decision(false, 403, false);
    }

    /** A failed insert is logged and the request goes on. */
    method RecordEvent(l: LinkId, req: Request, env: Env)
      modifies this`securityEvents
      ensures securityEvents == old(securityEvents) +
        (if env.eventFails then [] else [SecurityEvent(l, req.verb, req.path)])
    {
      if !env.eventFails {
        securityEvents := securityEvents + [SecurityEvent(l, req.verb, req.path)];
      }
    }

    /** Every blocked request is recorded, and the one that reaches the limit terminates. */
    method RecordViolation(l: LinkId, e: EffectivePolicy, req: Request, env: Env) returns (d: Decision)
      requires l in links.status
      modifies this`securityEvents, counters, links`status, links`rows
      ensures var (st, pc) := Driven(e, old(StoresOf(l)), Protocol.Pc.Incr(Violations, 0), env);
              StoresOf(l) == st && d == DecisionOf(pc)
      ensures securityEvents == old(securityEvents) +
        (if env.eventFails then [] else [SecurityEvent(l, req.verb, req.path)])
      ensures links.status.Keys == old(links.status.Keys)
      ensures forall k: LinkId :: k != l ==> StoresOf(k) == old(StoresOf(k))
    {
      ghost var st0 := StoresOf(l);
      RecordEvent(l, req, env);
      var violations := Incr(l, Violations, 0, env);
      DriveViolation(e, st0, env);
      if violations >= e.maxViolations {
        d := Refuse(l, ViolationLimit, env);
        return;
      }
      d := Decision(false, 403, false);
    }

    /** The numeric checks, in the order that decides which reason is recorded. */
    method CheckCounters(l: LinkId, e: EffectivePolicy, env: Env) returns (d: Decision)
      requires l in links.status
      modifies links`status, links`rows
      ensures var (st, pc) := Driven(e, old(StoresOf(l)), Snap(Requests, ZERO), env);
              StoresOf(l) == st && d == DecisionOf(pc)
      ensures links.status.Keys == old(links.status.Keys)
      ensures forall k: LinkId :: k != l ==> StoresOf(k) == old(StoresOf(k))
    {
      ghost var st := StoresOf(l);
      DriveVerdict(e, st, env);
      var snapshot := counters.Get(l, env.snapFails);
      if snapshot.Err? {
        return Decision(false, 500, true);
      }
      var c := snapshot.value;
      if e.maxRequests.Some? && c.requests >= e.maxRequests.value {
        d := Refuse(l, RequestLimit, env);
        return;
      }
      if e.maxBytes.Some? && c.bytes >= e.maxBytes.value {
        d := Refuse(l, TrafficLimit, env);
        return;
      }
      if c.violations >= e.maxViolations {
        d := Refuse(l, ViolationLimit, env);
        return;
      }
      return Decision(true, 200, false);
    }

    /** The blacklist and the TTL come before any counter. */
    method Judge(l: LinkId, e: EffectivePolicy, req: Request, env: Env) returns (d: Decision)
      requires l in links.status && !env.gateFails
      requires env.late <==> Late(e.maxTtlSeconds, req.createdAt, req.now)
      modifies this`securityEvents, counters, links`status, links`rows
      ensures var (st, pc) := Driven(e, old(StoresOf(l)), Gate, env);
              StoresOf(l) == st && d == DecisionOf(pc)
      ensures securityEvents == old(securityEvents) + Recorded(l, req, env.blocked, env)
      ensures links.status.Keys == old(links.status.Keys)
      ensures forall k: LinkId :: k != l ==> StoresOf(k) == old(StoresOf(k))
    {
      DriveGate(e, StoresOf(l), env);
      if env.blocked {
        d := RecordViolation(l, e, req, env);
      } else if e.maxTtlSeconds.Some? && req.now > req.createdAt + Lifetime(e.maxTtlSeconds.value) {
        AutoTerminate(l, TtlExpired, env);
        d := Decision(false, 410, false);
      } else {
        d := CheckCounters(l, e, env);
      }
    }

    /** Resolve, then the blacklist: a failure of either refuses the request. */
    method Admit(l: LinkId, req: Request, env: Env) returns (d: Decision)
      requires l in links.status
      modifies this`securityEvents, counters, links`status, links`rows
      ensures var (st, pc) := Driven(PolicyOf(req.listed), old(StoresOf(l)), Gate, EnvOf(lib, req, env));
              StoresOf(l) == st && d == DecisionOf(pc)
      ensures securityEvents == old(securityEvents) +
        Recorded(l, req, req.listed.Ok? && EnvOf(lib, req, env).blocked, env)
      ensures req.listed.Err? || req.rules.Err? ==> d == Decision(false, 500, true)
      ensures links.status.Keys == old(links.status.Keys)
      ensures forall k: LinkId :: k != l ==> StoresOf(k) == old(StoresOf(k))
    {
      DriveGate(PolicyOf(req.listed), StoresOf(l), EnvOf(lib, req, env));
      var resolved := Resolve(req.listed);
      if resolved.Err? || req.rules.Err? {
        return Decision(false, 500, true);
      }
      var e := resolved.value;
      var hit := MatchRules(lib, req.rules.value, req.verb, req.path);
      var full := env.(gateFails := false, blocked := hit.Some?, late := Late(e.maxTtlSeconds, req.createdAt, req.now));
      assert full == EnvOf(lib, req, env) && e == PolicyOf(req.listed);
      d := Judge(l, e, req, full);
    }

    /** The serial method is the protocol's process, from `LoadUsage` to its verdict. */
    method BeforeProxy(l: LinkId, req: Request, env: Env) returns (d: Decision)
      requires l in links.status
      modifies this`securityEvents, counters, links`status, links`rows
      ensures var (st, pc) := Driven(PolicyOf(req.listed), old(StoresOf(l)), LoadUsage, EnvOf(lib, req, env));
              StoresOf(l) == st && d == DecisionOf(pc)
      ensures securityEvents == old(securityEvents) +
        (if !env.loadFails && env.seeds >= 3 && req.listed.Ok? && req.rules.Ok? && !env.eventFails
            && AnyBlocks(lib, req.rules.value, req.verb, req.path)
         then [SecurityEvent(l, req.verb, req.path)] else [])
      ensures env.loadFails || env.seeds < 3 || req.listed.Err? || req.rules.Err? ==> d == Decision(false, 500, true)
      ensures links.status.Keys == old(links.status.Keys)
      ensures forall k: LinkId :: k != l ==> StoresOf(k) == old(StoresOf(k))
    {
      DriveWarmLoad(PolicyOf(req.listed), StoresOf(l), EnvOf(lib, req, env));
      var warm := WarmLoad(l, env);
      if !warm {
        return Decision(false, 500, true);
      }
      d := Admit(l, req, env);
    }

    /** The second look at the counters, after the answer. */
    method Recheck(l: LinkId, e: EffectivePolicy, env: Env)
      requires l in links.status
      modifies links`status, links`rows
      ensures StoresOf(l) == Driven(e, old(StoresOf(l)), Protocol.Pc.Recheck(Requests, ZERO), env).0
      ensures forall k: LinkId :: k != l ==> StoresOf(k) == old(StoresOf(k))
    {
      ghost var st := StoresOf(l);
      DriveRecheck(e, st, env);
      var snapshot := counters.Get(l, env.recheckFails);
      if snapshot.Err? {
        return;
      }
      var c := snapshot.value;
      if e.maxRequests.Some? && c.requests >= e.maxRequests.value {
        DriveTermination(e, st, RequestLimit, Served, env);
        AutoTerminate(l, RequestLimit, env);
      } else if e.maxBytes.Some? && c.bytes >= e.maxBytes.value {
        DriveTermination(e, st, TrafficLimit, Served, env);
        AutoTerminate(l, TrafficLimit, env);
      }
    }

    /** The serial method is the protocol's process, from its first increment to the end. */
    method AfterProxy(l: LinkId, sent: nat, listed: Result<seq<AccessPolicy>>, env: Env)
      requires l in links.status
      modifies counters, links`status, links`rows
      ensures var full := env.(recheckFails := listed.Err? || env.recheckFails);
              StoresOf(l) == Driven(PolicyOf(listed), old(StoresOf(l)), Protocol.Pc.Incr(Requests, sent), full).0
      ensures forall k: LinkId :: k != l ==> StoresOf(k) == old(StoresOf(k))
    {
      ghost var p, full := PolicyOf(listed), env.(recheckFails := listed.Err? || env.recheckFails);
      DriveIncr(p, StoresOf(l), Requests, sent, full);
      var _ := Incr(l, Requests, sent, env);
      DriveIncr(p, StoresOf(l), Bytes, sent, full);
      var _ := Incr(l, Bytes, sent, env);
      var resolved := Resolve(listed);
      if resolved.Err? {
        DriveRecheck(p, StoresOf(l), full);
        return;
      }
      Recheck(l, resolved.value, env);
    }
  }
}
