/** Most-restrictive-wins policy resolution (app/internal/service/policy_resolver.go). */
module PolicyResolver {
  import opened Domain

  /** A missing limit stands for "no limit". */
  function MinLimit(a: Option<int>, b: Option<int>): Option<int> {
    if a.None? then b
    else if b.None? then a
    else if a.value < b.value then a
    else b
  }

  function Min(a: int, b: int): int {
    if a < b then a else b
  }

  // ----- what the effective policy of a list of policies is -----

  function RequestsOf(p: AccessPolicy): Option<int> { p.maxRequests }
  function BytesOf(p: AccessPolicy): Option<int> { p.maxBytes }
  function TtlOf(p: AccessPolicy): Option<int> { p.maxTtlSeconds }

  /** `m` is the least limit any policy sets, and absent if none sets one. */
  ghost predicate Least(limit: AccessPolicy -> Option<int>, ps: seq<AccessPolicy>, m: Option<int>) {
    && (m.Some? ==> exists p :: p in ps && limit(p) == m)
    && (forall p :: p in ps && limit(p).Some? ==> m.Some? && m.value <= limit(p).value)
  }

  /** The least violation limit, the default of 3 taking part. */
  ghost predicate LeastViolations(ps: seq<AccessPolicy>, v: int) {
    && v <= DEFAULT_MAX_VIOLATIONS
    && (v == DEFAULT_MAX_VIOLATIONS || exists p :: p in ps && p.maxViolations == Some(v))
    && (forall p :: p in ps && p.maxViolations.Some? ==> v <= p.maxViolations.value)
  }

  ghost predicate Effective(ps: seq<AccessPolicy>, e: EffectivePolicy) {
    && Least(RequestsOf, ps, e.maxRequests)
    && Least(BytesOf, ps, e.maxBytes)
    && Least(TtlOf, ps, e.maxTtlSeconds)
    && LeastViolations(ps, e.maxViolations)
  }

  // ----- the fold -----

  function Tighten(e: EffectivePolicy, p: AccessPolicy): EffectivePolicy {
    EffectivePolicy(
      MinLimit(e.maxRequests, p.maxRequests),
      MinLimit(e.maxBytes, p.maxBytes),
      MinLimit(e.maxTtlSeconds, p.maxTtlSeconds),
      if p.maxViolations.Some? then Min(e.maxViolations, p.maxViolations.value) else e.maxViolations)
  }

  const UNRESTRICTED := EffectivePolicy(None, None, None, DEFAULT_MAX_VIOLATIONS)

  lemma LeastOne(limit: AccessPolicy -> Option<int>, ps: seq<AccessPolicy>, m: Option<int>, p: AccessPolicy)
    requires Least(limit, ps, m)
    ensures Least(limit, ps + [p], MinLimit(m, limit(p)))
  {
    var r := MinLimit(m, limit(p));
    if r.Some? {
      if r == limit(p) {
        assert p in ps + [p];
      } else {
        var q :| q in ps && limit(q) == m;
        assert q in ps + [p];
      }
    }
  }

  lemma ViolationsOne(ps: seq<AccessPolicy>, v: int, p: AccessPolicy)
    requires LeastViolations(ps, v)
    ensures LeastViolations(ps + [p], if p.maxViolations.Some? then Min(v, p.maxViolations.value) else v)
  {
    var r := if p.maxViolations.Some? then Min(v, p.maxViolations.value) else v;
    if r != DEFAULT_MAX_VIOLATIONS {
      if p.maxViolations == Some(r) {
        assert p in ps + [p];
      } else {
        var q :| q in ps && q.maxViolations == Some(v);
        assert q in ps + [p];
      }
    }
  }

  lemma TightenLeast(ps: seq<AccessPolicy>, p: AccessPolicy, e: EffectivePolicy)
    requires Effective(ps, e)
    ensures Effective(ps + [p], Tighten(e, p))
  {
    LeastOne(RequestsOf, ps, e.maxRequests, p);
    LeastOne(BytesOf, ps, e.maxBytes, p);
    LeastOne(TtlOf, ps, e.maxTtlSeconds, p);
    ViolationsOne(ps, e.maxViolations, p);
  }

  lemma TightenLast(ps: seq<AccessPolicy>, e: EffectivePolicy)
    requires ps != [] && Effective(ps[..|ps| - 1], e)
    ensures Effective(ps, Tighten(e, ps[|ps| - 1]))
  {
    TightenLeast(ps[..|ps| - 1], ps[|ps| - 1], e);
    assert ps == ps[..|ps| - 1] + [ps[|ps| - 1]];
  }

  function Resolved(ps: seq<AccessPolicy>): (e: EffectivePolicy)
    ensures Effective(ps, e)
  {
    if ps == [] then UNRESTRICTED
    else
      var front, last := ps[..|ps| - 1], ps[|ps| - 1];
      var e := Tighten(Resolved(front), last);
      TightenLast(ps, Resolved(front));
      e
  }

  /** The loop of `Resolve`; an error from `ListForLink` is passed on. */
  method Resolve(listed: Result<seq<AccessPolicy>>) returns (r: Result<EffectivePolicy>)
    ensures listed.Err? <==> r.Err?
    ensures r.Ok? ==> Effective(listed.value, r.value) && r.value == Resolved(listed.value)
  {
    if listed.Err? {
      return Err;
    }
    var ps := listed.value;
    var e := UNRESTRICTED;
    for i := 0 to |ps|
      invariant e == Resolved(ps[..i])
    {
      assert ps[..i + 1][..i] == ps[..i];
      e := Tighten(e, ps[i]);
    }
    assert ps[..|ps|] == ps;
    r := Ok(e);
  }

  // ----- properties -----

  predicate SamePolicies(ps: seq<AccessPolicy>, qs: seq<AccessPolicy>) {
    && (forall p :: p in ps ==> p in qs)
    && (forall p :: p in qs ==> p in ps)
  }

  lemma LeastUnique(limit: AccessPolicy -> Option<int>, ps: seq<AccessPolicy>, qs: seq<AccessPolicy>,
                    m: Option<int>, n: Option<int>)
    requires SamePolicies(ps, qs) && Least(limit, ps, m) && Least(limit, qs, n)
    ensures m == n
  {
  }

  /** Order and repetition of the policies do not matter, and the least limits are unique. */
  lemma OrderAndRepetitionIrrelevant(ps: seq<AccessPolicy>, qs: seq<AccessPolicy>, e: EffectivePolicy)
    requires SamePolicies(ps, qs) && Effective(ps, e)
    ensures e == Resolved(qs)
  {
    var f := Resolved(qs);
    LeastUnique(RequestsOf, ps, qs, e.maxRequests, f.maxRequests);
    LeastUnique(BytesOf, ps, qs, e.maxBytes, f.maxBytes);
    LeastUnique(TtlOf, ps, qs, e.maxTtlSeconds, f.maxTtlSeconds);
  }

  function Meet(e: EffectivePolicy, f: EffectivePolicy): EffectivePolicy {
    EffectivePolicy(
      MinLimit(e.maxRequests, f.maxRequests),
      MinLimit(e.maxBytes, f.maxBytes),
      MinLimit(e.maxTtlSeconds, f.maxTtlSeconds),
      Min(e.maxViolations, f.maxViolations))
  }

  lemma MeetTighten(e: EffectivePolicy, f: EffectivePolicy, p: AccessPolicy)
    requires e.maxViolations <= DEFAULT_MAX_VIOLATIONS
    ensures Tighten(Meet(e, f), p) == Meet(e, Tighten(f, p))
    ensures Meet(e, UNRESTRICTED) == e
  {
  }

  /** Resolving two lists together is the field-wise meet of resolving each. */
  lemma {:induction false} ResolvedConcat(ps: seq<AccessPolicy>, qs: seq<AccessPolicy>)
    ensures Resolved(ps + qs) == Meet(Resolved(ps), Resolved(qs))
  {
    if qs == [] {
      assert ps + qs == ps;
      MeetTighten(Resolved(ps), UNRESTRICTED, AccessPolicy(None, None, None, None));
    } else {
      var k := |qs| - 1;
      MeetTighten(Resolved(ps), Resolved(qs[..k]), qs[k]);
      assert (ps + qs)[..|ps + qs| - 1] == ps + qs[..k];
      ResolvedConcat(ps, qs[..k]);
    }
  }

  predicate NoLooser(a: Option<int>, b: Option<int>) {
    b.Some? ==> a.Some? && a.value <= b.value
  }

  /** Attaching policies never loosens a limit. */
  lemma AttachingTightens(ps: seq<AccessPolicy>, qs: seq<AccessPolicy>)
    ensures var e, f := Resolved(ps + qs), Resolved(ps);
            && NoLooser(e.maxRequests, f.maxRequests) && NoLooser(e.maxBytes, f.maxBytes)
            && NoLooser(e.maxTtlSeconds, f.maxTtlSeconds) && e.maxViolations <= f.maxViolations
  {
    ResolvedConcat(ps, qs);
  }

  /** The naive check: some attached policy's own limit is reached. */
  predicate PolicyHit(p: AccessPolicy, c: Counters) {
    Hits(p.maxRequests, c.requests) || Hits(p.maxBytes, c.bytes) || Hits(p.maxViolations, c.violations)
  }

  predicate EffectiveHit(e: EffectivePolicy, c: Counters) {
    Hits(e.maxRequests, c.requests) || Hits(e.maxBytes, c.bytes) || c.violations >= e.maxViolations
  }

  lemma LeastHit(limit: AccessPolicy -> Option<int>, ps: seq<AccessPolicy>, m: Option<int>, v: int)
    requires Least(limit, ps, m)
    ensures Hits(m, v) <==> exists p :: p in ps && Hits(limit(p), v)
  {
    if Hits(m, v) {
      var p :| p in ps && limit(p) == m;
      assert Hits(limit(p), v);
    }
  }

  /** The folded policy decides exactly as checking every attached policy one by one, plus the
      default of three violations. */
  lemma FoldDecidesAsEachPolicy(ps: seq<AccessPolicy>, e: EffectivePolicy, c: Counters)
    requires Effective(ps, e)
    ensures EffectiveHit(e, c) <==> c.violations >= 3 || exists p :: p in ps && PolicyHit(p, c)
  {
    LeastHit(RequestsOf, ps, e.maxRequests, c.requests);
    LeastHit(BytesOf, ps, e.maxBytes, c.bytes);
    if Hits(e.maxRequests, c.requests) {
      var p :| p in ps && Hits(RequestsOf(p), c.requests);
      assert PolicyHit(p, c);
    }
    if Hits(e.maxBytes, c.bytes) {
      var p :| p in ps && Hits(BytesOf(p), c.bytes);
      assert PolicyHit(p, c);
    }
    if c.violations >= e.maxViolations && c.violations < DEFAULT_MAX_VIOLATIONS {
      var p :| p in ps && p.maxViolations == Some(e.maxViolations);
      assert PolicyHit(p, c);
    }
    if p :| p in ps && PolicyHit(p, c) {
      if Hits(p.maxRequests, c.requests) {
        assert Hits(RequestsOf(p), c.requests);
      } else if Hits(p.maxBytes, c.bytes) {
        assert Hits(BytesOf(p), c.bytes);
      }
    }
  }
}
