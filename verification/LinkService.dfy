/** Links, their termination and their creation (app/internal/service/link_service.go). */
module LinkServices {
  import opened Domain
  import opened PolicyResolver
  import opened Blacklist

  /** One link_terminations row; `terminatedBy` is NULL for an automatic termination. */
  datatype Termination = Termination(reason: Reason, terminatedBy: Option<UserId>, notes: string)

  /** Which of the three commands of a termination fails, if any. */
  datatype TermFaults = TermFaults(read: bool, write: bool, row: bool)

  datatype TerminateError = StoreFailed | LinkNotOwned | LinkAlreadyTerminated

  datatype TerminateResult = Accepted | Refused(error: TerminateError)

  datatype Session = Session(user: UserId, active: bool)

  datatype CreateError = NoSession | SessionNotOwned | SessionNotActive | CreateFailed | AttachFailed

  datatype CreateResult = Created(link: LinkId) | Partial(link: LinkId) | NotCreated(error: CreateError)

  function Reasons(rows: seq<Termination>): seq<Reason> {
    seq(|rows|, i requires 0 <= i < |rows| => rows[i].reason)
  }

  lemma ReasonsAppend(rows: seq<Termination>, t: Termination)
    ensures Reasons(rows + [t]) == Reasons(rows) + [t.reason]
  {
  }

  function Elements<T>(xs: seq<T>): set<T> {
    set x | x in xs
  }

  lemma ElementsNext<T>(xs: seq<T>, i: nat)
    requires i < |xs|
    ensures Elements(xs[..i + 1]) == Elements(xs[..i]) + {xs[i]}
  {
    assert xs[..i + 1] == xs[..i] + [xs[i]];
  }

  class LinkService {
    var status: map<LinkId, Status>
    var owner: map<LinkId, UserId>
    var rows: map<LinkId, seq<Termination>>
    var policies: map<LinkId, set<PolicyId>>     // link_policies
    var endpoints: map<LinkId, set<EndpointId>>  // link_endpoint_rules
    var sessions: map<SessionId, Session>

    constructor ()
      ensures status == map[] && owner == map[] && rows == map[]
    {
      status, owner, rows, policies, endpoints, sessions := map[], map[], map[], map[], map[], map[];
    }

    function StatusOf(l: LinkId): Status
      reads this`status
    {
      if l in status then status[l] else Terminated
    }

    function RowsOf(l: LinkId): seq<Termination>
      reads this`rows
    {
      if l in rows then rows[l] else []
    }

    /** The three commands shared by both ways to terminate, on a link that exists. */
    method Terminate(l: LinkId, t: Termination, faults: TermFaults) returns (already: bool, ok: bool)
      requires l in status
      modifies this`status, this`rows
      ensures already <==> !faults.read && old(StatusOf(l)).Terminated?
      ensures ok <==> !faults.read && (already || (!faults.write && !faults.row))
      ensures StatusOf(l) == if faults.read || faults.write then old(StatusOf(l)) else Terminated
      ensures RowsOf(l) == if ok && !already then old(RowsOf(l)) + [t] else old(RowsOf(l))
      ensures faults.read || already ==> status == old(status) && rows == old(rows)
      ensures status.Keys == old(status.Keys)
      ensures forall k: LinkId :: k != l ==> StatusOf(k) == old(StatusOf(k)) && RowsOf(k) == old(RowsOf(k))
    {
      already, ok := false, false;
      if faults.read {
        return;
      }
      if status[l] == Terminated {
        return true, true;
      }
      if faults.write {
        return;
      }
      status := status[l := Terminated];
      if faults.row {
        return;
      }
      rows := rows[l := RowsOf(l) + [t]];
      ok := true;
    }

    /** Idempotent: terminating a terminated link is a no-op, not an error. */
    method AutoTerminate(l: LinkId, reason: Reason, faults: TermFaults) returns (ok: bool)
      modifies this`status, this`rows
      ensures l !in old(status) ==> !ok && status == old(status) && rows == old(rows)
      ensures l in old(status) && old(StatusOf(l)).Terminated? ==>
        (ok <==> !faults.read) && StatusOf(l).Terminated? && RowsOf(l) == old(RowsOf(l))
      ensures l in old(status) && old(StatusOf(l)).Active? ==>
        && (ok <==> faults == TermFaults(false, false, false))
        && (StatusOf(l).Terminated? <==> !faults.read && !faults.write)
        && RowsOf(l) == old(RowsOf(l)) + (if ok then [Termination(reason, None, "")] else [])
      ensures status.Keys == old(status.Keys)
      ensures forall k: LinkId :: k != l ==> StatusOf(k) == old(StatusOf(k)) && RowsOf(k) == old(RowsOf(k))
    {
      if l !in status {
        return false;
      }
      var already;
      already, ok := Terminate(l, Termination(reason, None, ""), faults);
    }

    predicate Owns(user: UserId, l: LinkId)
      reads this`status, this`owner
    {
      l in status && l in owner && owner[l] == user
    }

    /** Only the owner terminates, and only an active link; the row names the owner. A failure
        after the status write leaves the link terminated without a row. */
    method TerminateLink(user: UserId, l: LinkId, notes: string, ownerFails: bool, faults: TermFaults)
      returns (r: TerminateResult)
      modifies this`status, this`rows
      ensures r == Refused(LinkNotOwned) <==> !ownerFails && l in old(status) && l in owner && owner[l] != user
      ensures ownerFails || l !in old(status) || l !in owner || owner[l] != user ==>
        r.Refused? && status == old(status) && rows == old(rows)
      ensures r == Refused(LinkAlreadyTerminated) <==>
        !ownerFails && old(Owns(user, l)) && !faults.read && old(StatusOf(l)).Terminated?
      ensures r.Accepted? <==>
        !ownerFails && old(Owns(user, l)) && old(StatusOf(l)).Active? && faults == TermFaults(false, false, false)
      ensures !ownerFails && old(Owns(user, l)) ==>
        && StatusOf(l) == (if faults.read || faults.write then old(StatusOf(l)) else Terminated)
        && RowsOf(l) == old(RowsOf(l)) + (if r.Accepted? then [Termination(Manual, Some(user), notes)] else [])
      ensures status.Keys == old(status.Keys)
      ensures forall k: LinkId :: k != l ==> StatusOf(k) == old(StatusOf(k)) && RowsOf(k) == old(RowsOf(k))
    {
      if ownerFails || l !in status || l !in owner {
        return Refused(StoreFailed);
      }
      if owner[l] != user {
        return Refused(LinkNotOwned);
      }
      var already, ok := Terminate(l, Termination(Manual, Some(user), notes), faults);
      if already {
        return Refused(LinkAlreadyTerminated);
      }
      r := if ok then Accepted else Refused(StoreFailed);
    }

    method AttachPolicies(id: LinkId, ids: seq<PolicyId>, reached: nat) returns (done: bool)
      requires id in policies && policies[id] == {}
      modifies this`policies
      ensures policies == old(policies)[id := Elements(ids[..UpTo(reached, |ids|)])]
      ensures done <==> reached >= |ids|
    {
      for i := 0 to |ids|
        invariant i <= reached
        invariant id in policies && policies[id] == Elements(ids[..i])
        invariant policies == old(policies)[id := policies[id]]
      {
        if i == reached {
          return false;
        }
        ElementsNext(ids, i);
        policies := policies[id := policies[id] + {ids[i]}];
      }
      return true;
    }

    method AttachEndpoints(id: LinkId, ids: seq<EndpointId>, reached: nat) returns (done: bool)
      requires id in endpoints && endpoints[id] == {}
      modifies this`endpoints
      ensures endpoints == old(endpoints)[id := Elements(ids[..UpTo(reached, |ids|)])]
      ensures done <==> reached >= |ids|
    {
      for i := 0 to |ids|
        invariant i <= reached
        invariant id in endpoints && endpoints[id] == Elements(ids[..i])
        invariant endpoints == old(endpoints)[id := endpoints[id]]
      {
        if i == reached {
          return false;
        }
        ElementsNext(ids, i);
        endpoints := endpoints[id := endpoints[id] + {ids[i]}];
      }
      return true;
    }

    /** Creates a link under the fresh `id` and attaches the chosen policies, then the chosen
        rules, one insert at a time; the first `reached` inserts succeed. Success means every
        one of them is attached; a failure half-way leaves exactly those before it. */
    method CreateLink(user: UserId, session: SessionId, policyIds: seq<PolicyId>, endpointIds: seq<EndpointId>,
                      id: LinkId, createFails: bool, reached: nat) returns (r: CreateResult)
      requires id !in status && id !in policies && id !in endpoints
      modifies this`status, this`owner, this`policies, this`endpoints
      ensures r.NotCreated? ==>
        status == old(status) && owner == old(owner) && policies == old(policies) && endpoints == old(endpoints)
      ensures r.NotCreated? <==>
        session !in sessions || sessions[session].user != user || !sessions[session].active || createFails
      ensures !r.NotCreated? ==>
        && r.link == id && owner == old(owner)[id := user] && status == old(status)[id := Active]
        && policies == old(policies)[id := Elements(policyIds[..UpTo(reached, |policyIds|)])]
        && endpoints == old(endpoints)[id := Elements(endpointIds[..UpTo(reached - |policyIds|, |endpointIds|)])]
        && (r.Created? <==> reached >= |policyIds| + |endpointIds|)
      ensures r.Created? ==>
        && (forall p :: p in policies[id] <==> p in policyIds)
        && (forall e :: e in endpoints[id] <==> e in endpointIds)
      ensures r.Partial? && reached < |policyIds| ==>
        && (forall p :: p in policies[id] <==> p in policyIds[..reached])
        && endpoints[id] == {}
      ensures r.Partial? && reached >= |policyIds| ==>
        && (forall p :: p in policies[id] <==> p in policyIds)
        && (forall e :: e in endpoints[id] <==> e in endpointIds[..reached - |policyIds|])
      ensures r == NotCreated(NoSession) <==> session !in sessions
      ensures r == NotCreated(SessionNotOwned) <==> session in sessions && sessions[session].user != user
      ensures r == NotCreated(SessionNotActive) <==>
        session in sessions && sessions[session].user == user && !sessions[session].active
    {
      if session !in sessions {
        return NotCreated(NoSession);
      }
      if sessions[session].user != user {
        return NotCreated(SessionNotOwned);
      }
      if !sessions[session].active {
        return NotCreated(SessionNotActive);
      }
      if createFails {
        return NotCreated(CreateFailed);
      }
      status, owner := status[id := Active], owner[id := user];
      policies, endpoints := policies[id := {}], endpoints[id := {}];
      var done := AttachPolicies(id, policyIds, reached);
      if !done {
        assert Elements(endpointIds[..0]) == {};
        return Partial(id);
      }
      done := AttachEndpoints(id, endpointIds, reached - |policyIds|);
      return if done then Created(id) else Partial(id);
    }
  }

  /** `listed` is a result `ListForLink` may give for the attached policies: the rows of the
      join, in any order. */
  ghost predicate ListsPolicies(catalogue: map<PolicyId, AccessPolicy>, attached: set<PolicyId>, listed: seq<AccessPolicy>) {
    && (forall id :: id in attached && id in catalogue ==> catalogue[id] in listed)
    && (forall p :: p in listed ==> exists id :: id in attached && id in catalogue && catalogue[id] == p)
  }

  function Chosen(catalogue: map<PolicyId, AccessPolicy>, ids: seq<PolicyId>): seq<AccessPolicy>
    requires forall id :: id in ids ==> id in catalogue
  {
    seq(|ids|, i requires 0 <= i < |ids| => assert ids[i] in ids; catalogue[ids[i]])
  }

  /** After a successful `CreateLink` the link is held to every policy the owner listed, in
      whatever order the database returns them. */
  lemma EveryListedPolicyTakesPart(catalogue: map<PolicyId, AccessPolicy>, ids: seq<PolicyId>, listed: seq<AccessPolicy>)
    requires forall id :: id in ids ==> id in catalogue
    requires ListsPolicies(catalogue, Elements(ids), listed)
    ensures Resolved(listed) == Resolved(Chosen(catalogue, ids))
  {
    var chosen := Chosen(catalogue, ids);
    forall p | p in chosen ensures p in listed {
      var i :| 0 <= i < |chosen| && chosen[i] == p;
      assert ids[i] in Elements(ids);
    }
    forall p | p in listed ensures p in chosen {
      var id :| id in Elements(ids) && id in catalogue && catalogue[id] == p;
      var i :| 0 <= i < |ids| && ids[i] == id;
      assert chosen[i] == p;
    }
    OrderAndRepetitionIrrelevant(listed, chosen, Resolved(listed));
  }

  /** `listed` is a result `RulesForLink` may give: the rules attached to the link and those
      attached to its site, in any order. */
  ghost predicate ListsRules(catalogue: map<EndpointId, Rule>, attached: set<EndpointId>, site: set<EndpointId>,
                             listed: seq<Rule>)
  {
    && (forall id :: (id in attached || id in site) && id in catalogue ==> catalogue[id] in listed)
    && (forall r :: r in listed ==> exists id :: (id in attached || id in site) && id in catalogue && catalogue[id] == r)
  }

  /** After a successful `CreateLink` a request is blocked exactly if a rule the owner listed, or
      one of the site's, blocks it. */
  lemma EveryListedRuleTakesPart(catalogue: map<EndpointId, Rule>, ids: seq<EndpointId>, site: set<EndpointId>,
                                 listed: seq<Rule>, lib: Library, verb: string, path: string)
    requires forall id :: id in ids || id in site ==> id in catalogue
    requires ListsRules(catalogue, Elements(ids), site, listed)
    ensures AnyBlocks(lib, listed, verb, path) <==>
      exists id :: (id in ids || id in site) && Blocks(lib, catalogue[id], verb, path)
  {
    if AnyBlocks(lib, listed, verb, path) {
      var r :| r in listed && Blocks(lib, r, verb, path);
      var id :| (id in Elements(ids) || id in site) && id in catalogue && catalogue[id] == r;
      assert Blocks(lib, catalogue[id], verb, path);
    }
    if id :| (id in ids || id in site) && Blocks(lib, catalogue[id], verb, path) {
      assert id in Elements(ids) || id in site;
      assert catalogue[id] in listed;
    }
  }
}
