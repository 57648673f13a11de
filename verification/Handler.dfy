/** One guest request from end to end (app/internal/proxy/handler.go), nobody interfering. */
module Handler {
  import opened Domain
  import opened Protocol
  import opened CounterStores
  import opened LinkServices
  import opened Drive
  import opened Enforcement
  import opened Admission
  import opened BodyCounter

  /** The answer the guest gets: the target's, or an error. */
  datatype Reply = FromTarget(bytes: nat) | Refusal(http: nat)

  /** Copies the target's answer to the guest, chunk by chunk, through the counting writer. */
  method CopyBody(chunks: seq<nat>) returns (bytes: nat)
    ensures bytes == Sum(chunks)
  {
    var cw := new CountingResponseWriter();
    for i := 0 to |chunks|
      invariant cw.Valid() && cw.written == chunks[..i]
    {
      assert chunks[..i + 1] == chunks[..i] + [chunks[i]];
      var _ := cw.Write(chunks[i], chunks[i]);
    }
    assert chunks[..|chunks|] == chunks;
    bytes := cw.bytes;
  }

  lemma {:induction false} DrivenStops(p: EffectivePolicy, st: Stores, pc: Pc, env: Env)
    ensures Driven(p, st, pc, env).1.Done? || Driven(p, st, pc, env).1.Forward?
    decreases Progress.Left(pc)
  {
    if !(pc.Done? || pc.Forward?) {
      Progress.StepGetsOn(p, st, pc, ChoiceAt(env, pc));
      var (st', pc') := StepPc(p, st, pc, ChoiceAt(env, pc));
      DrivenStops(p, st', pc', env);
    }
  }

  /** Past the enforcer: the injection plan, the target, and only then the count. */
  method Forwarded(e: EnforcementService, l: LinkId, env: Env, planFails: bool, chunks: seq<nat>,
                   relisted: Result<seq<AccessPolicy>>) returns (r: Reply)
    requires l in e.links.status
    modifies e.counters, e.links`status, e.links`rows
    ensures if planFails then r == Refusal(500) && e.StoresOf(l) == old(e.StoresOf(l))
            else
              && r == FromTarget(Sum(chunks))
              && e.StoresOf(l) == Driven(PolicyOf(relisted), old(e.StoresOf(l)), Protocol.Pc.Incr(Requests, Sum(chunks)),
                                         env.(recheckFails := relisted.Err? || env.recheckFails)).0
    ensures forall k: LinkId :: k != l ==> e.StoresOf(k) == old(e.StoresOf(k))
  {
    if planFails {
      return Refusal(500);
    }
    var bytes := CopyBody(chunks);
    e.AfterProxy(l, bytes, relisted, env);
    r := FromTarget(bytes);
  }

  /** A usable link: the enforcer decides, and what it lets in is forwarded. */
  method Enforced(e: EnforcementService, l: LinkId, req: Request, env: Env, planFails: bool, chunks: seq<nat>,
                  relisted: Result<seq<AccessPolicy>>) returns (r: Reply)
    requires l in e.links.status
    modifies e`securityEvents, e.counters, e.links`status, e.links`rows
    ensures var (st1, pc) := Driven(PolicyOf(req.listed), old(e.StoresOf(l)), LoadUsage, EnvOf(e.lib, req, env));
            if !pc.Forward? then r == Refusal(DecisionOf(pc).http) && e.StoresOf(l) == st1
            else if planFails then r == Refusal(500) && e.StoresOf(l) == st1
            else
              && r == FromTarget(Sum(chunks))
              && e.StoresOf(l) == Driven(PolicyOf(relisted), st1, Protocol.Pc.Incr(Requests, Sum(chunks)),
                                         env.(recheckFails := relisted.Err? || env.recheckFails)).0
    ensures forall k: LinkId :: k != l ==> e.StoresOf(k) == old(e.StoresOf(k))
  {
    DrivenStops(PolicyOf(req.listed), e.StoresOf(l), LoadUsage, EnvOf(e.lib, req, env));
    var d := e.BeforeProxy(l, req, env);
    if !d.allowed {
      return Refusal(d.http);
    }
    r := Forwarded(e, l, env, planFails, chunks, relisted);
  }

  /** The order of the steps: status first, then the enforcer, then the target, then the count.
      `relisted` is what `ListForLink` answers the second time. */
  method ServeHTTP(e: EnforcementService, l: LinkId, unusable: bool, req: Request, env: Env,
                   planFails: bool, chunks: seq<nat>, relisted: Result<seq<AccessPolicy>>) returns (r: Reply)
    modifies e`securityEvents, e.counters, e.links`status, e.links`rows
    ensures var st0, p, full := old(e.StoresOf(l)), PolicyOf(req.listed), EnvOf(e.lib, req, env);
            var (st1, pc) := Driven(p, st0, LoadUsage, full);
            if l !in old(e.links.status) then r == Refusal(404) && e.StoresOf(l) == st0
            else if unusable || st0.status != Active then r == Refusal(410) && e.StoresOf(l) == st0
            else if !pc.Forward? then r == Refusal(DecisionOf(pc).http) && e.StoresOf(l) == st1
            else if planFails then r == Refusal(500) && e.StoresOf(l) == st1
            else
              && r == FromTarget(Sum(chunks))
              && e.StoresOf(l) == Driven(PolicyOf(relisted), st1, Protocol.Pc.Incr(Requests, Sum(chunks)),
                                         env.(recheckFails := relisted.Err? || env.recheckFails)).0
    ensures l !in old(e.links.status) || unusable || old(e.links.status[l]) != Active ==>
      e.securityEvents == old(e.securityEvents)
    ensures forall k: LinkId :: k != l ==> e.StoresOf(k) == old(e.StoresOf(k))
  {
    if l !in e.links.status {
      return Refusal(404);
    }
    if unusable || e.links.status[l] != Active {
      return Refusal(410);
    }
    r := Enforced(e, l, req, env, planFails, chunks, relisted);
  }

  /** The owner's click is the protocol's terminator with reason "manual". */
  method OwnerTerminate(e: EnforcementService, p: EffectivePolicy, user: UserId, l: LinkId, notes: string, env: Env)
    returns (r: TerminateResult)
    requires e.links.Owns(user, l)
    modifies e.links`status, e.links`rows
    ensures var (st, pc) := Driven(p, old(e.StoresOf(l)), TermRead(Manual, OwnerTerminated), env);
            && e.StoresOf(l) == st
            && (r.Accepted? <==> pc == Done(OwnerTerminated))
            && (r == Refused(LinkAlreadyTerminated) <==> pc == Done(AlreadyTerminated))
    ensures forall k: LinkId :: k != l ==> e.StoresOf(k) == old(e.StoresOf(k))
  {
    DriveOwner(p, e.StoresOf(l), env);
    ghost var before := e.links.RowsOf(l);
    r := e.links.TerminateLink(user, l, notes, false, env.term);
    ReasonsAppend(before, Termination(Manual, Some(user), notes));
    assert before + [] == before;
  }

  /** An answered request, with successful store calls: one request and its bytes are counted,
      the link is marked for the sync worker, and it is terminated, with exactly one row and
      the first reason in code order, exactly if a limit is now reached. */
  lemma AnswerIsCountedAndChecked(p: EffectivePolicy, st: Stores, sent: nat, env: Env)
    requires NoFaults(env) && AllKeys(st.keys) && st.status.Active?
    ensures var st' := Driven(p, st, Protocol.Pc.Incr(Requests, sent), env).0;
            var c := Snapshot(st.keys).(requests := st.keys[Requests] + 1, bytes := st.keys[Bytes] + sent);
            && Snapshot(st'.keys) == c && st'.dirty && st'.durable == st.durable
            && (st'.status.Terminated? <==> Hits(p.maxRequests, c.requests) || Hits(p.maxBytes, c.bytes))
            && (Hits(p.maxRequests, c.requests) ==> st'.ledger == st.ledger + [RequestLimit])
            && (!Hits(p.maxRequests, c.requests) && Hits(p.maxBytes, c.bytes) ==> st'.ledger == st.ledger + [TrafficLimit])
            && (st'.status.Active? ==> st'.ledger == st.ledger)
  {
    var s1 := Counted(st, Requests, sent, env.incr(Requests));
    var s2 := Counted(s1, Bytes, sent, env.incr(Bytes));
    DriveIncr(p, st, Requests, sent, env);
    DriveIncr(p, s1, Bytes, sent, env);
    DriveRecheck(p, s2, env);
    var v := LateVerdict(p, Snapshot(s2.keys));
    if v.Some? {
      DriveTermination(p, s2, v.value, Served, env);
    } else {
      DriveDone(p, s2, Served, env);
    }
  }

  /** A refused request, with successful store calls, is refused for the first limit reached and
      terminates an active link with that one reason. */
  lemma RefusalNamesTheFirstLimit(p: EffectivePolicy, st: Stores, env: Env)
    requires NoFaults(env) && st.status.Active?
    ensures var (st', pc) := Driven(p, st, Snap(Requests, ZERO), env);
            var c := Snapshot(st.keys);
            && (pc.Forward? ==> st' == st)
            && (pc == Done(Denied(RequestLimit)) <==> Hits(p.maxRequests, c.requests))
            && (pc == Done(Denied(TrafficLimit)) <==> !Hits(p.maxRequests, c.requests) && Hits(p.maxBytes, c.bytes))
            && (pc == Done(Denied(ViolationLimit)) <==>
                  !Hits(p.maxRequests, c.requests) && !Hits(p.maxBytes, c.bytes) && c.violations >= p.maxViolations)
            && (pc.Done? ==> pc.out.Denied? && st' == st.(status := Terminated, ledger := st.ledger + [pc.out.reason]))
  {
    DriveVerdict(p, st, env);
  }
}
