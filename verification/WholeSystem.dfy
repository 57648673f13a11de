/** The per-link theorems, for any link of the whole system. */
module WholeSystem {
  import opened Domain
  import opened Protocol
  import opened WriteBehind
  import opened Conservation
  import opened Overshoot
  import opened Termination
  import opened Finality
  import opened Causes
  import opened Ledger
  import opened Restart
  import opened DirtyFlag
  import opened AllLinks

  /** A link as `CreateLink` leaves it, or as a Redis restart leaves a quiet one. */
  function QuietLink(p: EffectivePolicy, durable: Option<Counters>, answers: seq<Answer>, blocked: nat): System {
    System(p, Stores(map[], false, durable, Active, []), [], Idle, answers, blocked)
  }

  /** Such a link meets the starting conditions of every theorem about runs; it covers a limit
      trivially while it is below it. */
  lemma QuietLinkStarts(p: EffectivePolicy, durable: Option<Counters>, answers: seq<Answer>, blocked: nat)
    requires Usage(durable).violations >= 0
    ensures var s := QuietLink(p, durable, answers, blocked);
            && Sound(s) && Quiescent(s) && RowsMeanTerminated(s) && TerminatedMeansRow(s)
            && AllTruthful(s) && Justified(s) && FlagKept(s) && Calm(s)
            && (forall f: Field :: !OverLimit(s, f) ==> Covered(s, f))
  {
  }

  /** However requests on all links, owner clicks and the sync worker interleave, each link's
      counters grow by exactly what was observed on that link. */
  lemma EveryLinkConserves(c: Cluster, evs: seq<ClusterEvent>, l: LinkId, f: Field)
    requires WalkSound(c.walk) && PossibleRun(c, evs)
    requires Sound(View(c, l)) && Quiescent(View(c, l)) && Quiescent(View(ExecAll(c, evs), l))
    requires forall e :: e in evs ==> !e.Restart? && Smooth(e)
    ensures Current(StoresAt(ExecAll(c, evs), l), f) - Current(StoresAt(c, l), f)
      == Observed(View(ExecAll(c, evs), l), f) - Observed(View(c, l), f)
  {
    RunViewed(c, evs, l);
    LocalRunAsCalm(c, evs, l);
    CountersConserved(View(c, l), LocalRun(c, evs, l), f);
  }

  /** Each link overruns its request limit only by the requests admitted on that link. */
  lemma EveryLinkKeepsItsQuota(c: Cluster, evs: seq<ClusterEvent>, l: LinkId, max: int, n: int)
    requires WalkSound(c.walk) && PossibleRun(c, evs) && Sound(View(c, l))
    requires c.policies(l).maxRequests == Some(max)
    requires forall e :: e in evs ==> !e.Restart?
    requires AtMost(Admitted(max), n, View(c, l), LocalRun(c, evs, l))
    ensures Load(View(ExecAll(c, evs), l), max) <= Max(Load(View(c, l), max), max - 1 + n)
  {
    RunViewed(c, evs, l);
    LocalRunAsCalm(c, evs, l);
    QuotaOvershoot(View(c, l), LocalRun(c, evs, l), max, n);
  }

  /** A terminated link stays terminated and is answered for requests in flight only, whatever
      happens on any link, failures and restarts included. */
  lemma EveryTerminationIsFinal(c: Cluster, evs: seq<ClusterEvent>, l: LinkId)
    requires WalkSound(c.walk) && PossibleRun(c, evs)
    requires StoresAt(c, l).status.Terminated?
    ensures OnlyInFlight(View(c, l), View(ExecAll(c, evs), l))
  {
    RunViewed(c, evs, l);
    TerminationIsFinal(View(c, l), View(c, l), LocalRun(c, evs, l));
  }

  /** While the one worker walks the links, each link may be counted at any moment: if its SADDs
      come in time, it is in step whenever it is clean and none of them is outstanding. */
  lemma EveryCleanLinkIsInStep(c: Cluster, evs: seq<ClusterEvent>, l: LinkId)
    requires WalkSound(c.walk) && PossibleRun(c, evs) && Sound(View(c, l)) && FlagKept(View(c, l))
    requires Orderly(View(c, l), LocalRun(c, evs, l))
    requires var t := View(ExecAll(c, evs), l); !t.stores.dirty && NoMark(t.procs)
    ensures Equal(StoresAt(ExecAll(c, evs), l))
  {
    RunViewed(c, evs, l);
    CleanMeansEqual(View(c, l), LocalRun(c, evs, l));
  }
}
