/** All links together: one Redis, one database, one sync worker that walks the dirty links.

    Seen from one link, every run of the whole is a run of that link's protocol, so the
    theorems of the per-link modules hold for each link, whatever the other links do. */
module AllLinks {
  import opened Domain
  import opened Protocol
  import opened CounterStores

  datatype Task = Task(link: LinkId, pc: Pc)

  /** The worker has taken up `link` with program counter `pc`, and `rest` is still to come. */
  datatype Walk = Resting | At(link: LinkId, pc: WorkerPc, rest: seq<LinkId>)

  datatype Cluster = Cluster(
    policies: LinkId -> EffectivePolicy,
    ints: map<Key, int>, dirty: set<LinkId>,
    usage: map<LinkId, Counters>, status: map<LinkId, Status>, ledger: map<LinkId, seq<Reason>>,
    tasks: seq<Task>, walk: Walk,
    answers: map<LinkId, seq<Answer>>, blocked: map<LinkId, nat>)

  datatype ClusterEvent =
    | ArriveAt(link: LinkId)
    | ClickAt(link: LinkId)
    | Go(id: nat, choice: Choice)
    | Tick(fail: bool, order: seq<LinkId>)   // `order` is what SMEMBERS answers, if it is asked
    | Restart

  function Get<T>(m: map<LinkId, T>, l: LinkId, default: T): T {
    if l in m then m[l] else default
  }

  // ----- one link's part of the whole -----

  function StoresAt(c: Cluster, l: LinkId): Stores {
    Stores(LinkKeys(c.ints, l), l in c.dirty, if l in c.usage then Some(c.usage[l]) else None,
           Get(c.status, l, Terminated), Get(c.ledger, l, []))
  }

  function PutKeys(ints: map<Key, int>, l: LinkId, keys: Keys): map<Key, int> {
    map k | k in ints.Keys + (set f | f in keys.Keys :: Key(l, f)) && (k.link == l ==> k.field in keys) ::
      if k.link == l then keys[k.field] else ints[k]
  }

  function PutStores(c: Cluster, l: LinkId, st: Stores): Cluster {
    c.(ints := PutKeys(c.ints, l, st.keys),
       dirty := if st.dirty then c.dirty + {l} else c.dirty - {l},
       usage := if st.durable.Some? then c.usage[l := st.durable.value] else c.usage - {l},
       status := c.status[l := st.status],
       ledger := c.ledger[l := st.ledger])
  }

  lemma PutKeysSeen(ints: map<Key, int>, l: LinkId, keys: Keys, k: LinkId)
    ensures LinkKeys(PutKeys(ints, l, keys), k) == if k == l then keys else LinkKeys(ints, k)
  {
    var r := PutKeys(ints, l, keys);
    forall f: Field ensures Key(k, f) in r <==> if k == l then f in keys else Key(k, f) in ints {
      if k == l && f in keys {
        assert Key(l, f) in (set g | g in keys.Keys :: Key(l, g));
      }
    }
    assert forall f: Field :: f in FIELDS by {
      forall f: Field ensures f in FIELDS { match f case Requests => case Bytes => case Violations => }
    }
  }

  /** Writing one link's stores back leaves every other link's as they were. */
  lemma PutStoresSeen(c: Cluster, l: LinkId, st: Stores, k: LinkId)
    ensures StoresAt(PutStores(c, l, st), k) == if k == l then st else StoresAt(c, k)
  {
    PutKeysSeen(c.ints, l, st.keys, k);
  }

  // ----- steps -----

  /** Task `i` of link `l` has moved to `pc` and left the link's stores as `st`. */
  function Moved(c: Cluster, i: nat, l: LinkId, st: Stores, pc: Pc, answered: seq<Answer>, blocked: nat): Cluster
    requires i < |c.tasks|
  {
    PutStores(c, l, st).(tasks := c.tasks[i := Task(l, pc)],
                         answers := c.answers[l := Get(c.answers, l, []) + answered],
                         blocked := c.blocked[l := Get(c.blocked, l, 0) + blocked])
  }

  function Answered(pc: Pc, i: nat, choice: Choice): seq<Answer> {
    if pc.Forward? && !choice.fail then [Answer(i, choice.sent)] else []
  }

  function NewlyBlocked(pc: Pc, choice: Choice): nat {
    if pc.Gate? && !choice.fail && choice.blocked then 1 else 0
  }

  function NextTask(c: Cluster, i: nat, choice: Choice): Cluster
    requires i < |c.tasks|
  {
    var l, pc := c.tasks[i].link, c.tasks[i].pc;
    var (st, pc') := StepPc(c.policies(l), StoresAt(c, l), pc, choice);
    Moved(c, i, l, st, pc', Answered(pc, i, choice), NewlyBlocked(pc, choice))
  }

  function Take(ids: seq<LinkId>): Walk {
    if ids == [] then Resting else At(ids[0], Reading(Requests, ZERO), ids[1..])
  }

  /** A failed command ends the link's turn, not the walk. */
  function NextWalk(c: Cluster, fail: bool, order: seq<LinkId>): Cluster {
    match c.walk
    case Resting => if fail then c else c.(walk := Take(order))
    case At(l, pc, rest) =>
      var (st, pc') := StepWorker(StoresAt(c, l), pc, fail);
      PutStores(c, l, st).(walk := if pc'.Idle? then Take(rest) else At(l, pc', rest))
  }

  /** What SMEMBERS may answer: every dirty link once. */
  ghost predicate Listing(c: Cluster, order: seq<LinkId>) {
    && (forall l :: l in order <==> l in c.dirty)
    && (forall i, j :: 0 <= i < j < |order| ==> order[i] != order[j])
  }

  ghost predicate Possible(c: Cluster, e: ClusterEvent) {
    e.Tick? && c.walk.Resting? && !e.fail ==> Listing(c, e.order)
  }

  function NextAll(c: Cluster, e: ClusterEvent): Cluster {
    match e
    case ArriveAt(l) => c.(tasks := c.tasks + [Task(l, Lookup)])
    case ClickAt(l) => c.(tasks := c.tasks + [Task(l, TermRead(Manual, OwnerTerminated))])
    case Go(i, choice) => if i < |c.tasks| then NextTask(c, i, choice) else c
    case Tick(fail, order) => NextWalk(c, fail, order)
    case Restart => c.(ints := map[], dirty := {})
  }

  // ----- the view from one link -----

  /** A task of another link looks like a request that found its link unusable. */
  function ViewPc(t: Task, l: LinkId): Pc {
    if t.link == l then t.pc else Done(NotUsable)
  }

  function ViewTasks(ts: seq<Task>, l: LinkId): seq<Pc> {
    seq(|ts|, i requires 0 <= i < |ts| => ViewPc(ts[i], l))
  }

  function ViewWalk(w: Walk, l: LinkId): WorkerPc {
    match w
    case Resting => Idle
    case At(k, pc, rest) => if k == l then pc else if l in rest then Reading(Requests, ZERO) else Idle
  }

  function View(c: Cluster, l: LinkId): System {
    System(c.policies(l), StoresAt(c, l), ViewTasks(c.tasks, l), ViewWalk(c.walk, l),
           Get(c.answers, l, []), Get(c.blocked, l, 0))
  }

  /** The walk never has a link twice. */
  ghost predicate WalkSound(w: Walk) {
    w.At? ==>
      && !w.pc.Idle?
      && w.link !in w.rest
      && (forall i, j :: 0 <= i < j < |w.rest| ==> w.rest[i] != w.rest[j])
  }

  const ELSEWHERE := Choice(false, true, false, false, 0)

  /** What one event of the whole is for link `l`. */
  function Local(c: Cluster, e: ClusterEvent, l: LinkId): seq<Event> {
    match e
    case ArriveAt(k) => if k == l then [Arrive] else [Arrive, Run(|c.tasks|, ELSEWHERE)]
    case ClickAt(k) => if k == l then [OwnerClick] else [Arrive, Run(|c.tasks|, ELSEWHERE)]
    case Go(i, choice) => if i < |c.tasks| && c.tasks[i].link == l then [Run(i, choice)] else []
    case Tick(fail, order) =>
      (match c.walk
       case Resting => if !fail && l in order then [Sync(false)] else []
       case At(k, pc, rest) => if k == l then [Sync(fail)] else [])
    case Restart => [Wipe]
  }

  lemma ExecOne(s: System, e: Event)
    ensures Exec(s, [e]) == Next(s, e)
  {
    assert [e][1..] == [];
  }

  lemma ViewElsewhere(c: Cluster, t: Task, l: LinkId)
    requires t.link != l
    ensures View(c.(tasks := c.tasks + [t]), l) == Exec(View(c, l), [Arrive, Run(|c.tasks|, ELSEWHERE)])
  {
    var s := View(c, l);
    var s1 := Next(s, Arrive);
    assert [Arrive, Run(|c.tasks|, ELSEWHERE)][1..] == [Run(|c.tasks|, ELSEWHERE)];
    ExecOne(s1, Run(|c.tasks|, ELSEWHERE));
    assert ViewTasks(c.tasks + [t], l) == s1.procs[|c.tasks| := Done(NotUsable)];
  }

  lemma ViewHere(c: Cluster, pc: Pc, l: LinkId)
    ensures ViewTasks(c.tasks + [Task(l, pc)], l) == ViewTasks(c.tasks, l) + [pc]
  {
  }

  lemma ViewTasksUpdate(ts: seq<Task>, i: nat, pc: Pc, l: LinkId)
    requires i < |ts|
    ensures ViewTasks(ts[i := Task(ts[i].link, pc)], l) ==
      if ts[i].link == l then ViewTasks(ts, l)[i := pc] else ViewTasks(ts, l)
  {
  }

  lemma HistoryUpdate(m: map<LinkId, seq<Answer>>, k: LinkId, more: seq<Answer>, l: LinkId)
    ensures Get(m[k := Get(m, k, []) + more], l, []) == if k == l then Get(m, l, []) + more else Get(m, l, [])
  {
  }

  lemma ViewMoved(c: Cluster, i: nat, k: LinkId, st: Stores, pc: Pc, answered: seq<Answer>, blocked: nat, l: LinkId)
    requires i < |c.tasks| && c.tasks[i].link == k
    ensures var s := View(c, l);
            View(Moved(c, i, k, st, pc, answered, blocked), l) ==
              if k == l then s.(stores := st, procs := s.procs[i := pc],
                                answers := s.answers + answered, blocked := s.blocked + blocked)
              else s
  {
    PutStoresSeen(c, k, st, l);
    ViewTasksUpdate(c.tasks, i, pc, l);
    HistoryUpdate(c.answers, k, answered, l);
  }

  lemma ViewTaskElsewhere(c: Cluster, i: nat, choice: Choice, l: LinkId)
    requires i < |c.tasks| && c.tasks[i].link != l
    ensures View(NextTask(c, i, choice), l) == View(c, l)
  {
    var k, pc := c.tasks[i].link, c.tasks[i].pc;
    var step := StepPc(c.policies(k), StoresAt(c, k), pc, choice);
    ViewMoved(c, i, k, step.0, step.1, Answered(pc, i, choice), NewlyBlocked(pc, choice), l);
  }

  lemma RunProcParts(s: System, i: nat, choice: Choice)
    requires i < |s.procs|
    ensures var step := StepPc(s.policy, s.stores, s.procs[i], choice);
            RunProc(s, i, choice) == s.(stores := step.0, procs := s.procs[i := step.1],
              answers := s.answers + Answered(s.procs[i], i, choice),
              blocked := s.blocked + NewlyBlocked(s.procs[i], choice))
  {
    assert s.answers + [] == s.answers;
  }

  lemma ViewTaskHere(c: Cluster, i: nat, choice: Choice)
    requires i < |c.tasks|
    ensures View(NextTask(c, i, choice), c.tasks[i].link) == RunProc(View(c, c.tasks[i].link), i, choice)
  {
    var k, pc := c.tasks[i].link, c.tasks[i].pc;
    var step := StepPc(c.policies(k), StoresAt(c, k), pc, choice);
    ViewMoved(c, i, k, step.0, step.1, Answered(pc, i, choice), NewlyBlocked(pc, choice), k);
    assert View(c, k).procs[i] == pc;
    RunProcParts(View(c, k), i, choice);
  }

  lemma ViewTake(ids: seq<LinkId>, l: LinkId)
    requires forall i, j :: 0 <= i < j < |ids| ==> ids[i] != ids[j]
    ensures ViewWalk(Take(ids), l) == if l in ids then Reading(Requests, ZERO) else Idle
    ensures WalkSound(Take(ids))
  {
  }

  lemma ViewPut(c: Cluster, k: LinkId, st: Stores, w: Walk, l: LinkId)
    ensures View(PutStores(c, k, st).(walk := w), l) ==
      View(c, l).(stores := if k == l then st else StoresAt(c, l), worker := ViewWalk(w, l))
  {
    PutStoresSeen(c, k, st, l);
  }

  lemma ViewListing(c: Cluster, order: seq<LinkId>, l: LinkId)
    requires c.walk.Resting? && Listing(c, order)
    ensures View(NextWalk(c, false, order), l) == if l in order then Next(View(c, l), Sync(false)) else View(c, l)
    ensures WalkSound(NextWalk(c, false, order).walk)
  {
    ViewTake(order, l);
  }

  lemma ViewPassHere(c: Cluster, fail: bool, order: seq<LinkId>)
    requires c.walk.At? && WalkSound(c.walk)
    ensures View(NextWalk(c, fail, order), c.walk.link) == Next(View(c, c.walk.link), Sync(fail))
  {
    var l, rest := c.walk.link, c.walk.rest;
    var (st, pc') := StepWorker(StoresAt(c, l), c.walk.pc, fail);
    ViewPut(c, l, st, if pc'.Idle? then Take(rest) else At(l, pc', rest), l);
    ViewTake(rest, l);
  }

  lemma ViewPassElsewhere(c: Cluster, fail: bool, order: seq<LinkId>, l: LinkId)
    requires c.walk.At? && WalkSound(c.walk) && c.walk.link != l
    ensures View(NextWalk(c, fail, order), l) == View(c, l)
  {
    var k, rest := c.walk.link, c.walk.rest;
    var (st, pc') := StepWorker(StoresAt(c, k), c.walk.pc, fail);
    ViewPut(c, k, st, if pc'.Idle? then Take(rest) else At(k, pc', rest), l);
    ViewTake(rest, l);
  }

  lemma PassKeepsWalkSound(c: Cluster, fail: bool, order: seq<LinkId>)
    requires c.walk.At? && WalkSound(c.walk)
    ensures WalkSound(NextWalk(c, fail, order).walk)
  {
    ViewTake(c.walk.rest, c.walk.link);
  }

  /** What link `l` sees of the event is a run of its own protocol. */
  ghost predicate Viewed(c: Cluster, e: ClusterEvent, l: LinkId) {
    View(NextAll(c, e), l) == Exec(View(c, l), Local(c, e, l))
  }

  lemma ArrivalViewed(c: Cluster, e: ClusterEvent, l: LinkId)
    requires e.ArriveAt? || e.ClickAt?
    ensures Viewed(c, e, l)
  {
    var pc := if e.ArriveAt? then Lookup else TermRead(Manual, OwnerTerminated);
    if e.link == l {
      ViewHere(c, pc, l);
      ExecOne(View(c, l), if e.ArriveAt? then Arrive else OwnerClick);
    } else {
      ViewElsewhere(c, Task(e.link, pc), l);
    }
  }

  lemma GoHere(c: Cluster, i: nat, choice: Choice)
    requires i < |c.tasks|
    ensures var l := c.tasks[i].link; View(NextTask(c, i, choice), l) == Exec(View(c, l), [Run(i, choice)])
  {
    var l := c.tasks[i].link;
    ViewTaskHere(c, i, choice);
    ExecOne(View(c, l), Run(i, choice));
  }

  lemma GoViewed(c: Cluster, e: ClusterEvent, l: LinkId)
    requires e.Go?
    ensures Viewed(c, e, l)
  {
    if e.id < |c.tasks| {
      if c.tasks[e.id].link == l {
        GoHere(c, e.id, e.choice);
      } else {
        ViewTaskElsewhere(c, e.id, e.choice, l);
      }
    }
  }

  lemma TickViewed(c: Cluster, e: ClusterEvent, l: LinkId)
    requires e.Tick? && WalkSound(c.walk) && Possible(c, e)
    ensures Viewed(c, e, l) && WalkSound(NextAll(c, e).walk)
  {
    ExecOne(View(c, l), Sync(e.fail));
    if c.walk.At? {
      PassKeepsWalkSound(c, e.fail, e.order);
      if c.walk.link == l {
        ViewPassHere(c, e.fail, e.order);
      } else {
        ViewPassElsewhere(c, e.fail, e.order, l);
      }
    } else if !e.fail {
      ViewListing(c, e.order, l);
    }
  }

  lemma RestartViewed(c: Cluster, l: LinkId)
    ensures Viewed(c, Restart, l)
  {
    ExecOne(View(c, l), Wipe);
  }

  lemma OthersKeepTheWalk(c: Cluster, e: ClusterEvent)
    requires !e.Tick?
    ensures NextAll(c, e).walk == c.walk
  {
  }

  /** One step of the whole is, for each link, a step of its own protocol, a request that finds
      its link unusable, or nothing. */
  lemma StepViewed(c: Cluster, e: ClusterEvent, l: LinkId)
    requires WalkSound(c.walk) && Possible(c, e)
    ensures Viewed(c, e, l)
    ensures WalkSound(NextAll(c, e).walk)
  {
    if !e.Tick? {
      OthersKeepTheWalk(c, e);
    }
    match e
    case ArriveAt(_) => ArrivalViewed(c, e, l);
    case ClickAt(_) => ArrivalViewed(c, e, l);
    case Go(_, _) => GoViewed(c, e, l);
    case Tick(_, _) => TickViewed(c, e, l);
    case Restart => RestartViewed(c, l);
  }

  // ----- runs -----

  function ExecAll(c: Cluster, evs: seq<ClusterEvent>): Cluster
    decreases |evs|
  {
    if evs == [] then c else ExecAll(NextAll(c, evs[0]), evs[1..])
  }

  ghost predicate PossibleRun(c: Cluster, evs: seq<ClusterEvent>)
    decreases |evs|
  {
    evs != [] ==> Possible(c, evs[0]) && PossibleRun(NextAll(c, evs[0]), evs[1..])
  }

  function LocalRun(c: Cluster, evs: seq<ClusterEvent>, l: LinkId): seq<Event>
    decreases |evs|
  {
    if evs == [] then [] else Local(c, evs[0], l) + LocalRun(NextAll(c, evs[0]), evs[1..], l)
  }

  /** Every run of the whole is, for each link, a run of its own protocol. */
  lemma {:induction false} RunViewed(c: Cluster, evs: seq<ClusterEvent>, l: LinkId)
    requires WalkSound(c.walk) && PossibleRun(c, evs)
    ensures View(ExecAll(c, evs), l) == Exec(View(c, l), LocalRun(c, evs, l))
    decreases |evs|
  {
    if evs != [] {
      var c1 := NextAll(c, evs[0]);
      StepViewed(c, evs[0], l);
      RunViewed(c1, evs[1..], l);
      ExecAppend(View(c, l), Local(c, evs[0], l), LocalRun(c1, evs[1..], l));
    }
  }

  predicate Smooth(e: ClusterEvent) {
    (e.Go? ==> !e.choice.fail) && (e.Tick? ==> !e.fail)
  }

  lemma LocalCalm(c: Cluster, e: ClusterEvent, l: LinkId)
    ensures !e.Restart? ==> NoWipe(Local(c, e, l))
    ensures Smooth(e) ==> NoFailure(Local(c, e, l))
  {
  }

  /** The link's run has a restart or a failure only if the run of the whole has one. */
  lemma {:induction false} LocalRunAsCalm(c: Cluster, evs: seq<ClusterEvent>, l: LinkId)
    ensures (forall e :: e in evs ==> !e.Restart?) ==> NoWipe(LocalRun(c, evs, l))
    ensures (forall e :: e in evs ==> Smooth(e)) ==> NoFailure(LocalRun(c, evs, l))
    decreases |evs|
  {
    if evs != [] {
      var here, later := Local(c, evs[0], l), LocalRun(NextAll(c, evs[0]), evs[1..], l);
      assert evs[0] in evs;
      LocalCalm(c, evs[0], l);
      LocalRunAsCalm(NextAll(c, evs[0]), evs[1..], l);
      assert forall e :: e in here + later ==> e in here || e in later;
    }
  }

  /** Isolation: a step of one link's request leaves every other link's counters, durable row,
      status and ledger alone. */
  lemma TasksAreIsolated(c: Cluster, i: nat, choice: Choice, l: LinkId)
    requires i < |c.tasks| && c.tasks[i].link != l
    ensures StoresAt(NextTask(c, i, choice), l) == StoresAt(c, l)
  {
    var k := c.tasks[i].link;
    var (st, pc') := StepPc(c.policies(k), StoresAt(c, k), c.tasks[i].pc, choice);
    PutStoresSeen(c, k, st, l);
  }
}
