/** Values shared by every part of the model (app/internal/domain/domain.go). */
module Domain {
  datatype Option<+T> = None | Some(value: T)

  datatype Result<+T> = Ok(value: T) | Err

  type LinkId = nat
  type PolicyId = nat
  type EndpointId = nat
  type UserId = nat
  type SessionId = nat

  /** `shared_links.status`. The application writes these two values only. */
  datatype Status = Active | Terminated

  /** `revocation_reasons.code`. */
  datatype Reason = TtlExpired | RequestLimit | TrafficLimit | ViolationLimit | Manual

  /** The three counters of a link, in the order the Redis pipelines name them. */
  datatype Field = Requests | Bytes | Violations

  datatype Counters = Counters(requests: int, bytes: int, violations: int) {
    function At(f: Field): int {
      match f
      case Requests => requests
      case Bytes => bytes
      case Violations => violations
    }

    function With(f: Field, v: int): Counters {
      match f
      case Requests => this.(requests := v)
      case Bytes => this.(bytes := v)
      case Violations => this.(violations := v)
    }
  }

  const ZERO := Counters(0, 0, 0)

  predicate Within(a: Counters, b: Counters) {
    a.requests <= b.requests && a.bytes <= b.bytes && a.violations <= b.violations
  }

  /** `f` comes before `g` in a pipeline over the three keys. */
  predicate Before(f: Field, g: Field) {
    match g
    case Requests => false
    case Bytes => f.Requests?
    case Violations => !f.Violations?
  }

  /** How many of `b` inserts take effect if the first `a` succeed. */
  function UpTo(a: int, b: nat): nat {
    if a < 0 then 0 else if a < b then a else b
  }

  /** One `access_policies` row; a NULL column is `None`. */
  datatype AccessPolicy = AccessPolicy(
    maxRequests: Option<int>, maxBytes: Option<int>, maxTtlSeconds: Option<int>, maxViolations: Option<int>)

  const DEFAULT_MAX_VIOLATIONS := 3

  /** The limits a link is held to. The violation limit always has a value. */
  datatype EffectivePolicy = EffectivePolicy(
    maxRequests: Option<int>, maxBytes: Option<int>, maxTtlSeconds: Option<int>, maxViolations: int)

  /** An optional limit is hit when it is set and the value is at or past it. */
  predicate Hits(limit: Option<int>, value: int) {
    limit.Some? && value >= limit.value
  }
}
