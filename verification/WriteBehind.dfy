/** The write-behind cache: Redis keys against the usage_counters row.

    Every run without a Redis restart, whatever fails and however the processes interleave,
    keeps `Sound`, and moves the stores forward only (`Later`). */
module WriteBehind {
  import opened Domain
  import opened Protocol

  /** What a process past `LoadUsage` relies on. */
  ghost predicate Warm(st: Stores, pc: Pc) {
    match pc
    case Seed(f, seed) =>
      && (forall g: Field :: Before(g, f) ==> g in st.keys)
      && (forall g: Field :: g !in st.keys ==> seed.At(g) == Usage(st.durable).At(g))
    case Gate => AllKeys(st.keys)
    case Incr(_, _) => AllKeys(st.keys)
    case Mark(_, _, _) => AllKeys(st.keys)
    case Snap(_, _) => AllKeys(st.keys)
    case Forward => AllKeys(st.keys)
    case Recheck(_, _) => AllKeys(st.keys)
    case _ => true
  }

  /** What the worker has read lies between the durable and the live value. */
  ghost predicate WorkerFresh(st: Stores, w: WorkerPc) {
    match w
    case Idle => true
    case Reading(f, seen) =>
      && AllKeys(st.keys)
      && (forall g: Field :: Before(g, f) ==> Usage(st.durable).At(g) <= seen.At(g) <= st.keys[g])
    case Upserting(seen) =>
      && AllKeys(st.keys)
      && (forall g: Field :: Usage(st.durable).At(g) <= seen.At(g) <= st.keys[g])
    case Clearing => AllKeys(st.keys)
  }

  /** A dirty link has all three keys, and the durable row never runs ahead of the live keys. */
  ghost predicate StoreSound(st: Stores) {
    && (st.dirty ==> AllKeys(st.keys))
    && (forall g: Field :: g in st.keys ==> Usage(st.durable).At(g) <= st.keys[g])
  }

  ghost predicate Sound(s: System) {
    && StoreSound(s.stores)
    && WorkerFresh(s.stores, s.worker)
    && (forall i :: 0 <= i < |s.procs| ==> Warm(s.stores, s.procs[i]))
  }

  /** `b` is a state the stores can be in after `a`: keys stay and grow, the durable row grows
      and is untouched while a key is missing, termination and ledger rows are for good. */
  ghost predicate Later(a: Stores, b: Stores) {
    && (forall g: Field :: g in a.keys ==> g in b.keys && a.keys[g] <= b.keys[g])
    && (forall g: Field :: Usage(a.durable).At(g) <= Usage(b.durable).At(g))
    && (!AllKeys(b.keys) ==> b.durable == a.durable)
    && (a.status.Terminated? ==> b.status.Terminated?)
    && a.ledger <= b.ledger
  }

  lemma WarmLater(a: Stores, b: Stores, pc: Pc)
    requires Warm(a, pc) && Later(a, b)
    ensures Warm(b, pc)
  {
  }

  lemma SeedStep(p: EffectivePolicy, st: Stores, pc: Pc, c: Choice)
    requires pc.Seed? && StoreSound(st) && Warm(st, pc)
    ensures var (st', pc') := StepPc(p, st, pc, c); StoreSound(st') && Warm(st', pc') && Later(st, st')
  {
  }

  lemma ProcStep(p: EffectivePolicy, st: Stores, pc: Pc, c: Choice)
    requires StoreSound(st) && Warm(st, pc)
    ensures var (st', pc') := StepPc(p, st, pc, c);
            StoreSound(st') && Warm(st', pc') && Later(st, st')
            && st'.durable == st.durable && (st.dirty ==> st'.dirty)
  {
    if pc.Seed? {
      SeedStep(p, st, pc, c);
    }
  }

  lemma WorkerStep(st: Stores, w: WorkerPc, fail: bool)
    requires StoreSound(st) && WorkerFresh(st, w)
    ensures var (st', w') := StepWorker(st, w, fail);
            StoreSound(st') && WorkerFresh(st', w') && Later(st, st') && st'.keys == st.keys
  {
  }

  lemma WorkerFreshStays(a: Stores, b: Stores, w: WorkerPc)
    requires WorkerFresh(a, w) && Later(a, b) && b.durable == a.durable
    ensures WorkerFresh(b, w)
  {
  }

  lemma SoundNext(s: System, e: Event)
    requires Sound(s) && !e.Wipe?
    ensures Sound(Next(s, e)) && Later(s.stores, Next(s, e).stores)
  {
    var s' := Next(s, e);
    match e
    case Arrive =>
    case OwnerClick =>
    case Run(i, c) =>
      if i < |s.procs| {
        ProcStep(s.policy, s.stores, s.procs[i], c);
        WorkerFreshStays(s.stores, s'.stores, s.worker);
        forall j | 0 <= j < |s'.procs| && j != i
          ensures Warm(s'.stores, s'.procs[j])
        {
          WarmLater(s.stores, s'.stores, s.procs[j]);
        }
      }
    case Sync(fail) =>
      WorkerStep(s.stores, s.worker, fail);
      forall j | 0 <= j < |s.procs|
        ensures Warm(s'.stores, s'.procs[j])
      {
        WarmLater(s.stores, s'.stores, s.procs[j]);
      }
  }

  lemma LaterTransitive(a: Stores, b: Stores, c: Stores)
    requires Later(a, b) && Later(b, c)
    ensures Later(a, c)
  {
  }

  /** Write-behind safety, over every run without a restart. */
  lemma {:induction false} RunStaysSound(s: System, evs: seq<Event>)
    requires Sound(s) && NoWipe(evs)
    ensures Sound(Exec(s, evs)) && Later(s.stores, Exec(s, evs).stores)
    decreases |evs|
  {
    if evs != [] {
      var s1 := Next(s, evs[0]);
      SoundNext(s, evs[0]);
      RunStaysSound(s1, evs[1..]);
      LaterTransitive(s.stores, s1.stores, Exec(s, evs).stores);
    }
  }
}
