/** What `BeforeProxy` decides, stated without the code; and the bridge from the serial
    methods to the runs of the protocol. */
module Admission {
  import opened Domain
  import opened Protocol
  import opened Progress
  import opened PolicyResolver
  import opened Blacklist
  import opened CounterStores
  import opened LinkServices
  import opened Drive
  import opened Enforcement

  // ----- the serial methods are runs of the protocol -----

  /** The events of process `i` running alone. */
  function AloneRun(p: EffectivePolicy, st: Stores, pc: Pc, env: Env, i: nat): seq<Event>
    decreases Left(pc)
  {
    if pc.Done? || pc.Forward? then []
    else
      StepGetsOn(p, st, pc, ChoiceAt(env, pc));
      var (st', pc') := StepPc(p, st, pc, ChoiceAt(env, pc));
      [Run(i, ChoiceAt(env, pc))] + AloneRun(p, st', pc', env, i)
  }

  /** Every theorem about all runs covers the serial methods: what they compute is what the
      process `i` of a system reaches when it runs alone, and nothing else moves. */
  lemma {:induction false} AloneRunIsDriven(s: System, i: nat, env: Env)
    requires i < |s.procs|
    ensures var (st, pc) := Driven(s.policy, s.stores, s.procs[i], env);
            var t := Exec(s, AloneRun(s.policy, s.stores, s.procs[i], env, i));
            t.stores == st && t.procs == s.procs[i := pc] && t.worker == s.worker && t.policy == s.policy
    decreases Left(s.procs[i])
  {
    var pc := s.procs[i];
    if !(pc.Done? || pc.Forward?) {
      var c := ChoiceAt(env, pc);
      StepGetsOn(s.policy, s.stores, pc, c);
      var s1 := Next(s, Run(i, c));
      var rest := AloneRun(s.policy, s1.stores, s1.procs[i], env, i);
      assert ([Run(i, c)] + rest)[1..] == rest;
      AloneRunIsDriven(s1, i, env);
      var last := Driven(s.policy, s1.stores, s1.procs[i], env).1;
      assert s1.procs[i := last] == s.procs[i := last];
    }
  }

  // ----- admission -----

  predicate NoFaults(env: Env) {
    && !env.loadFails && env.seeds >= 3 && !env.snapFails && !env.recheckFails
    && (forall f: Field :: env.incr(f) >= 2)
    && env.term == TermFaults(false, false, false)
  }

  /** A policy forbids the request: its TTL, in nanoseconds, has passed, or one of its limits is
      reached. */
  predicate Forbids(p: AccessPolicy, createdAt: int, now: int, c: Counters) {
    || (p.maxTtlSeconds.Some? && now - createdAt > p.maxTtlSeconds.value * 1_000_000_000)
    || (p.maxRequests.Some? && c.requests >= p.maxRequests.value)
    || (p.maxBytes.Some? && c.bytes >= p.maxBytes.value)
    || (p.maxViolations.Some? && c.violations >= p.maxViolations.value)
  }

  /** No rule blocks, no attached policy forbids, and there are fewer than three violations. */
  ghost predicate Admissible(lib: Library, req: Request, c: Counters)
    requires req.listed.Ok? && req.rules.Ok?
  {
    && !AnyBlocks(lib, req.rules.value, req.verb, req.path)
    && (forall p :: p in req.listed.value ==> !Forbids(p, req.createdAt, req.now, c))
    && c.violations < 3
  }

  /** The keys after a complete warm load. */
  function Warmed(st: Stores): Keys {
    SeedKeys(st.keys, Usage(st.durable), 3)
  }

  lemma WarmedIsCurrent(st: Stores)
    ensures var c := CurrentAll(st);
            && Snapshot(Warmed(st)) == c
            && Warmed(st) == map[Requests := c.requests, Bytes := c.bytes, Violations := c.violations]
  {
    var c := CurrentAll(st);
    var m := map[Requests := c.requests, Bytes := c.bytes, Violations := c.violations];
    forall f: Field ensures f in m && f in Warmed(st) && Warmed(st)[f] == m[f] {
      match f case Requests => case Bytes => case Violations =>
    }
    assert Warmed(st) == m;
  }

  lemma WarmLoadComplete(st: Stores, n: nat)
    requires n >= 3
    ensures SeedKeys(st.keys, Usage(st.durable), n) == Warmed(st)
  {
  }

  lemma GateVerdict(p: EffectivePolicy, st: Stores, env: Env)
    requires !env.gateFails && !env.snapFails
    ensures var (st', pc) := Driven(p, st, Gate, env);
            && (pc.Forward? <==>
                  !env.blocked && !(p.maxTtlSeconds.Some? && env.late) && Verdict(p, Snapshot(st.keys)).None?)
            && (pc.Forward? ==> st' == st)
  {
    DriveGate(p, st, env);
    DriveViolation(p, st, env);
    DriveVerdict(p, st, env);
  }

  /** The folded policy forbids exactly if some attached policy does, or at three violations. */
  lemma NothingForbids(ps: seq<AccessPolicy>, e: EffectivePolicy, createdAt: int, now: int, c: Counters)
    requires Effective(ps, e) && forall p :: p in ps ==> TtlColumn(p)
    ensures !Late(e.maxTtlSeconds, createdAt, now) && Verdict(e, c).None? <==>
      (forall p :: p in ps ==> !Forbids(p, createdAt, now, c)) && c.violations < 3
  {
    LateAsEachPolicy(ps, e, createdAt, now);
    FoldDecidesAsEachPolicy(ps, e, c);
    assert Verdict(e, c).Some? <==> EffectiveHit(e, c);
    if p :| p in ps && Forbids(p, createdAt, now, c) {
      assert (p.maxTtlSeconds.Some? && now - createdAt > p.maxTtlSeconds.value * 1_000_000_000) || PolicyHit(p, c);
    }
    if p :| p in ps && PolicyHit(p, c) {
      assert Forbids(p, createdAt, now, c);
    }
    if p :| p in ps && p.maxTtlSeconds.Some? && now - createdAt > p.maxTtlSeconds.value * 1_000_000_000 {
      assert Forbids(p, createdAt, now, c);
    }
  }

  /** With successful store calls `BeforeProxy` lets a request in exactly if it is admissible,
      and letting it in changes nothing beyond the warm load. The counters are the live ones,
      the stored ones where a key is missing, and zero where there is no row either. */
  lemma AdmitsExactlyTheAdmissible(lib: Library, req: Request, env: Env, st: Stores, c: Counters)
    requires NoFaults(env) && req.listed.Ok? && req.rules.Ok?
    requires forall p :: p in req.listed.value ==> TtlColumn(p)
    requires forall f: Field :: (
      c.At(f) == if f in st.keys then st.keys[f] else if st.durable.Some? then st.durable.value.At(f) else 0)
    ensures var (st', pc) := Driven(PolicyOf(req.listed), st, LoadUsage, EnvOf(lib, req, env));
            && (pc.Forward? <==> Admissible(lib, req, c))
            && (pc.Forward? ==> st' == st.(keys := map[Requests := c.requests, Bytes := c.bytes, Violations := c.violations]))
  {
    var ps := req.listed.value;
    var p, full := PolicyOf(req.listed), EnvOf(lib, req, env);
    assert c == CurrentAll(st) by {
      assert c.At(Requests) == Current(st, Requests) && c.At(Bytes) == Current(st, Bytes);
      assert c.At(Violations) == Current(st, Violations);
    }
    DriveWarmLoad(p, st, full);
    WarmLoadComplete(st, full.seeds);
    WarmedIsCurrent(st);
    GateVerdict(p, st.(keys := Warmed(st)), full);
    NothingForbids(ps, p, req.createdAt, req.now, c);
  }

  /** For a link that `CreateLink` created, admission in the owner's own terms: a request is
      admissible exactly if none of the listed rules or the site's rules blocks it, and none of
      the listed policies is late or reached. */
  lemma CreatedLinkAdmits(lib: Library, req: Request, c: Counters,
                          policies: map<PolicyId, AccessPolicy>, policyIds: seq<PolicyId>,
                          rules: map<EndpointId, Rule>, ruleIds: seq<EndpointId>, site: set<EndpointId>)
    requires req.listed.Ok? && req.rules.Ok?
    requires forall id :: id in policyIds ==> id in policies
    requires forall id :: id in ruleIds || id in site ==> id in rules
    requires ListsPolicies(policies, Elements(policyIds), req.listed.value)
    requires ListsRules(rules, Elements(ruleIds), site, req.rules.value)
    ensures Admissible(lib, req, c) <==>
      && (forall id :: id in ruleIds || id in site ==> !Blocks(lib, rules[id], req.verb, req.path))
      && (forall id :: id in policyIds ==> !Forbids(policies[id], req.createdAt, req.now, c))
      && c.violations < 3
  {
    EveryListedRuleTakesPart(rules, ruleIds, site, req.rules.value, lib, req.verb, req.path);
    forall id | id in policyIds ensures policies[id] in req.listed.value {
      assert id in Elements(policyIds);
    }
    forall p | p in req.listed.value ensures exists id :: id in policyIds && policies[id] == p {
      var id :| id in Elements(policyIds) && id in policies && policies[id] == p;
    }
  }
}
