/** Exactly which Redis restarts can make a later flush lower the durable row. */
module WipeSafety {
  import opened Domain
  import opened Protocol
  import opened WriteBehind
  import opened CounterStores
  import opened Lag
  import opened Progress
  import opened Restart

  // ----- the condition at the moment of the restart -----

  /** One violation short of `d`, every request is refused: the only way left to mark the link
      is a blocked request, and that adds the violation that is missing. */
  predicate Shut(p: EffectivePolicy, d: Counters) {
    Verdict(p, d.(violations := d.violations - 1)).Some?
  }

  /** The least counters a request may find at the gate, if `d` must not be lowered. */
  function Need(p: EffectivePolicy, d: Counters): Counters {
    if Shut(p, d) then d.(violations := d.violations - 1) else d
  }

  /** What the keys hold after the SETNX still to come, nobody else having set any. */
  function Seeded(f: Field, seed: Counters): Counters {
    Counters(if f.Requests? then seed.requests else 0, if f.Violations? then 0 else seed.bytes, seed.violations)
  }

  /** What a process in the middle of its first snapshot sees if it reads nothing but zeros. */
  function ZeroCompleted(f: Field, seen: Counters): Counters {
    match f
    case Requests => ZERO
    case Bytes => Counters(seen.requests, 0, 0)
    case Violations => Counters(seen.requests, seen.bytes, 0)
  }

  /** The process can do no harm to a durable row `d` when all keys are lost. */
  predicate Harmless(p: EffectivePolicy, d: Counters, pc: Pc) {
    match pc
    case Seed(f, seed) => Within(Need(p, d), Seeded(f, seed))
    case Gate => Within(Need(p, d), ZERO)
    case Snap(f, seen) => Within(d, ZERO) || Verdict(p, ZeroCompleted(f, seen)).Some?
    case Forward => Within(d, ZERO)
    case Incr(f, sent) =>
      (match f
       case Requests => Within(d, ZERO)
       case Bytes => Within(d, Counters(0, sent, 0))
       case Violations => Within(d, Counters(0, 0, 1)))
    case Mark(_, _, _) => Within(d, ZERO)
    case _ => true
  }

  /** The worker can do no harm: whatever it still has to read may as well be zero. */
  predicate WorkerHarmless(d: Counters, w: WorkerPc) {
    match w
    case Reading(f, _) =>
      (match f
       case Requests => Within(d, ZERO)
       case Bytes => d.bytes <= 0 && d.violations <= 0
       case Violations => d.violations <= 0)
    case _ => true
  }

  predicate SafeToRestart(s: System) {
    var d := Usage(s.stores.durable);
    WorkerHarmless(d, s.worker) && forall i :: 0 <= i < |s.procs| ==> Harmless(s.policy, d, s.procs[i])
  }

  /** Counters are never negative, and no seed is ahead of the row it was read from. */
  predicate SeedsBehind(s: System) {
    var d := Usage(s.stores.durable);
    && Within(ZERO, d)
    && forall i :: 0 <= i < |s.procs| && s.procs[i].Seed? ==> Within(ZERO, s.procs[i].seed) && Within(s.procs[i].seed, d)
  }

  lemma SeedBehindProc(p: EffectivePolicy, st: Stores, pc: Pc, c: Choice)
    requires Within(ZERO, Usage(st.durable))
    requires pc.Seed? ==> Within(ZERO, pc.seed) && Within(pc.seed, Usage(st.durable))
    ensures var pc' := StepPc(p, st, pc, c).1; pc'.Seed? ==> Within(ZERO, pc'.seed) && Within(pc'.seed, Usage(st.durable))
    ensures StepPc(p, st, pc, c).0.durable == st.durable
  {
  }

  lemma DurableGrows(st: Stores, w: WorkerPc, fail: bool)
    requires StoreSound(st) && WorkerFresh(st, w)
    ensures Within(Usage(st.durable), Usage(StepWorker(st, w, fail).0.durable))
  {
    WorkerStep(st, w, fail);
    var d, d' := Usage(st.durable), Usage(StepWorker(st, w, fail).0.durable);
    assert d.At(Requests) <= d'.At(Requests) && d.At(Bytes) <= d'.At(Bytes) && d.At(Violations) <= d'.At(Violations);
  }

  lemma SeedsBehindNext(s: System, e: Event)
    requires Sound(s) && SeedsBehind(s) && !e.Wipe?
    ensures SeedsBehind(Next(s, e))
  {
    match e
    case Run(i, c) => if i < |s.procs| { SeedBehindProc(s.policy, s.stores, s.procs[i], c); }
    case Sync(fail) => DurableGrows(s.stores, s.worker, fail);
    case _ =>
  }

  lemma {:induction false} SeedsStayBehind(s: System, evs: seq<Event>)
    requires Sound(s) && SeedsBehind(s) && NoWipe(evs)
    ensures SeedsBehind(Exec(s, evs))
    decreases |evs|
  {
    if evs != [] {
      SoundNext(s, evs[0]);
      SeedsBehindNext(s, evs[0]);
      SeedsStayBehind(Next(s, evs[0]), evs[1..]);
    }
  }

  // ----- safe restarts -----

  lemma VerdictMonotone(p: EffectivePolicy, a: Counters, b: Counters)
    requires Within(a, b) && Verdict(p, a).Some?
    ensures Verdict(p, b).Some?
  {
  }

  /** The snapshot this process will have if it reads the keys as they are now. */
  function Completed(keys: Keys, f: Field, seen: Counters): Counters {
    var low := Snapshot(keys);
    match f
    case Requests => low
    case Bytes => Counters(seen.requests, low.bytes, low.violations)
    case Violations => Counters(seen.requests, seen.bytes, low.violations)
  }

  /** What counter `g` will hold after the SETNX still to come, if nobody else sets it. */
  function Reaches(keys: Keys, f: Field, seed: Counters, g: Field): int {
    if g in keys || Before(g, f) then Read(keys, g) else seed.At(g)
  }

  function Final(keys: Keys, f: Field, seed: Counters): Counters {
    Counters(Reaches(keys, f, seed, Requests), Reaches(keys, f, seed, Bytes), Reaches(keys, f, seed, Violations))
  }

  /** `Harmless`, at any later moment. */
  ghost predicate Benign(p: EffectivePolicy, d: Counters, keys: Keys, pc: Pc) {
    var low := Snapshot(keys);
    match pc
    case Seed(f, seed) => Within(ZERO, seed) && Within(Need(p, d), Final(keys, f, seed))
    case Gate => Within(Need(p, d), low)
    case Snap(f, seen) => Within(d, low) || Verdict(p, Completed(keys, f, seen)).Some?
    case Forward => Within(d, low)
    case Incr(f, sent) => Within(d, if f.Requests? then low else low.With(f, low.At(f) + Delta(f, sent)))
    case Mark(_, _, _) => Within(d, low)
    case _ => true
  }

  ghost predicate WorkerBenign(d: Counters, st: Stores, w: WorkerPc) {
    match w
    case Idle => true
    case Reading(f, seen) => forall g: Field :: d.At(g) <= if Before(g, f) then seen.At(g) else Read(st.keys, g)
    case Upserting(seen) => Within(d, seen)
    case Clearing => true
  }

  ghost predicate StoresAbove(d: Counters, need: Counters, st: Stores) {
    && Within(d, Usage(st.durable))
    && (st.dirty ==> Within(d, Snapshot(st.keys)))
    && (forall g: Field :: g in st.keys ==> 0 <= st.keys[g] && need.At(g) <= st.keys[g])
  }

  ghost predicate Above(d: Counters, s: System) {
    && StoresAbove(d, Need(s.policy, d), s.stores)
    && WorkerBenign(d, s.stores, s.worker)
    && (forall i :: 0 <= i < |s.procs| ==> Benign(s.policy, d, s.stores.keys, s.procs[i]))
  }

  /** Keys never go away and never shrink, and a new key is not negative and not below `need`. */
  ghost predicate KeysGrow(need: Counters, a: Keys, b: Keys) {
    forall g: Field ::
      && (g in a ==> g in b && a[g] <= b[g])
      && (g !in a && g in b ==> 0 <= b[g] && need.At(g) <= b[g])
  }

  lemma SnapshotGrows(need: Counters, a: Keys, b: Keys)
    requires KeysGrow(need, a, b)
    ensures Within(Snapshot(a), Snapshot(b))
  {
    assert Read(a, Requests) <= Read(b, Requests);
    assert Read(a, Bytes) <= Read(b, Bytes);
    assert Read(a, Violations) <= Read(b, Violations);
  }

  lemma BenignStays(p: EffectivePolicy, d: Counters, a: Keys, b: Keys, pc: Pc)
    requires KeysGrow(Need(p, d), a, b) && Benign(p, d, a, pc)
    ensures Benign(p, d, b, pc)
  {
    SnapshotGrows(Need(p, d), a, b);
    match pc {
      case Snap(f, seen) =>
        if Verdict(p, Completed(a, f, seen)).Some? {
          VerdictMonotone(p, Completed(a, f, seen), Completed(b, f, seen));
        }
      case Seed(f, seed) =>
        assert Need(p, d).requests <= Reaches(b, f, seed, Requests);
        assert Need(p, d).bytes <= Reaches(b, f, seed, Bytes);
        assert Need(p, d).violations <= Reaches(b, f, seed, Violations);
      case _ =>
    }
  }

  /** What a step of a process must keep. */
  ghost predicate StepKeeps(p: EffectivePolicy, d: Counters, st: Stores, st': Stores, pc': Pc) {
    && StoresAbove(d, Need(p, d), st') && Benign(p, d, st'.keys, pc')
    && KeysGrow(Need(p, d), st.keys, st'.keys) && st'.durable == st.durable
  }

  /** A SETNX changes nothing about what the keys will hold in the end. */
  lemma SeedReaches(keys: Keys, f: Field, seed: Counters)
    ensures var keys' := SetNX(keys, f, seed.At(f));
            && Final(keys', f, seed) == Final(keys, f, seed)
            && (f.Violations? ==> Snapshot(keys') == Final(keys, f, seed))
            && (f.Requests? ==> Final(keys', Bytes, seed) == Final(keys, f, seed))
            && (f.Bytes? ==> Final(keys', Violations, seed) == Final(keys, f, seed))
  {
  }

  lemma BenignSeed(p: EffectivePolicy, d: Counters, st: Stores, pc: Pc, c: Choice)
    requires pc.Seed? && StoresAbove(d, Need(p, d), st) && Benign(p, d, st.keys, pc)
    ensures var (st', pc') := StepPc(p, st, pc, c); StepKeeps(p, d, st, st', pc')
  {
    if !c.fail {
      var keys := SetNX(st.keys, pc.field, pc.seed.At(pc.field));
      SeedReaches(st.keys, pc.field, pc.seed);
      assert Need(p, d).At(pc.field) <= keys[pc.field];
      SnapshotGrows(Need(p, d), st.keys, keys);
    }
  }

  lemma BenignIncr(p: EffectivePolicy, d: Counters, st: Stores, pc: Pc, c: Choice)
    requires pc.Incr? && StoresAbove(d, Need(p, d), st) && Benign(p, d, st.keys, pc) && Within(ZERO, d)
    ensures var (st', pc') := StepPc(p, st, pc, c); StepKeeps(p, d, st, st', pc')
  {
    var st' := StepPc(p, st, pc, c).0;
    if !c.fail {
      var low, f := Snapshot(st.keys), pc.field;
      assert Snapshot(st'.keys) == low.With(f, low.At(f) + Delta(f, pc.sent));
    }
  }

  lemma BenignGate(p: EffectivePolicy, d: Counters, st: Stores, c: Choice)
    requires StoresAbove(d, Need(p, d), st) && Benign(p, d, st.keys, Gate)
    ensures var (st', pc') := StepPc(p, st, Gate, c); StepKeeps(p, d, st, st', pc')
  {
    if Shut(p, d) {
      VerdictMonotone(p, Need(p, d), Snapshot(st.keys));
    }
  }

  lemma BenignSnap(p: EffectivePolicy, d: Counters, st: Stores, pc: Pc, c: Choice)
    requires pc.Snap? && StoresAbove(d, Need(p, d), st) && Benign(p, d, st.keys, pc)
    ensures var (st', pc') := StepPc(p, st, pc, c); StepKeeps(p, d, st, st', pc')
  {
  }

  lemma BenignMark(p: EffectivePolicy, d: Counters, st: Stores, pc: Pc, c: Choice)
    requires pc.Mark? && StoresAbove(d, Need(p, d), st) && Benign(p, d, st.keys, pc)
    ensures var (st', pc') := StepPc(p, st, pc, c); StepKeeps(p, d, st, st', pc')
  {
  }

  lemma BenignOther(p: EffectivePolicy, d: Counters, st: Stores, pc: Pc, c: Choice)
    requires !pc.Seed? && !pc.Incr? && !pc.Gate? && !pc.Snap? && !pc.Mark? && Within(ZERO, d)
    requires StoresAbove(d, Need(p, d), st) && Benign(p, d, st.keys, pc)
    ensures var (st', pc') := StepPc(p, st, pc, c); StepKeeps(p, d, st, st', pc')
  {
  }

  lemma BenignProc(p: EffectivePolicy, d: Counters, st: Stores, pc: Pc, c: Choice)
    requires Within(ZERO, d) && StoresAbove(d, Need(p, d), st) && Benign(p, d, st.keys, pc)
    ensures var (st', pc') := StepPc(p, st, pc, c); StepKeeps(p, d, st, st', pc')
  {
    match pc
    case Seed(_, _) => BenignSeed(p, d, st, pc, c);
    case Incr(_, _) => BenignIncr(p, d, st, pc, c);
    case Gate => BenignGate(p, d, st, c);
    case Snap(_, _) => BenignSnap(p, d, st, pc, c);
    case Mark(_, _, _) => BenignMark(p, d, st, pc, c);
    case _ => BenignOther(p, d, st, pc, c);
  }

  lemma WorkerBenignStays(d: Counters, need: Counters, a: Stores, b: Stores, w: WorkerPc)
    requires KeysGrow(need, a.keys, b.keys) && WorkerBenign(d, a, w)
    ensures WorkerBenign(d, b, w)
  {
  }

  lemma WithinEach(a: Counters, b: Counters)
    ensures Within(a, b) ==> forall g: Field :: a.At(g) <= b.At(g)
  {
  }

  lemma WorkerBenignStep(d: Counters, need: Counters, st: Stores, w: WorkerPc, fail: bool)
    requires StoresAbove(d, need, st) && WorkerBenign(d, st, w)
    ensures var (st', w') := StepWorker(st, w, fail);
            StoresAbove(d, need, st') && WorkerBenign(d, st', w') && st'.keys == st.keys
  {
    match w {
      case Idle => WithinEach(d, Snapshot(st.keys));
      case Reading(f, seen) =>
        var next := seen.With(f, Read(st.keys, f));
        if f.Violations? {
          assert d.At(Requests) <= next.At(Requests) && d.At(Bytes) <= next.At(Bytes);
        }
      case _ =>
    }
  }

  lemma AboveNext(d: Counters, s: System, e: Event)
    requires Within(ZERO, d) && Above(d, s) && !e.Wipe?
    ensures Above(d, Next(s, e))
  {
    var s' := Next(s, e);
    match e
    case Arrive =>
    case OwnerClick =>
    case Run(i, c) =>
      if i < |s.procs| {
        BenignProc(s.policy, d, s.stores, s.procs[i], c);
        WorkerBenignStays(d, Need(s.policy, d), s.stores, s'.stores, s.worker);
        forall j | 0 <= j < |s'.procs| && j != i ensures Benign(s.policy, d, s'.stores.keys, s'.procs[j]) {
          BenignStays(s.policy, d, s.stores.keys, s'.stores.keys, s.procs[j]);
        }
      }
    case Sync(fail) => WorkerBenignStep(d, Need(s.policy, d), s.stores, s.worker, fail);
  }

  lemma {:induction false} AboveRun(d: Counters, s: System, evs: seq<Event>)
    requires Within(ZERO, d) && Above(d, s) && NoWipe(evs)
    ensures Within(d, Usage(Exec(s, evs).stores.durable))
    decreases |evs|
  {
    if evs != [] {
      AboveNext(d, s, evs[0]);
      AboveRun(d, Next(s, evs[0]), evs[1..]);
    }
  }

  lemma AboveAfterWipe(s: System)
    requires Sound(s) && SeedsBehind(s) && SafeToRestart(s)
    ensures Above(Usage(s.stores.durable), Next(s, Wipe))
  {
  }

  // ----- every other restart -----

  ghost predicate Lowers(s: System, d: Counters) {
    exists evs :: NoWipe(evs) && !Within(d, Usage(Exec(s, evs).stores.durable))
  }

  lemma StepLowers(s: System, e: Event, d: Counters)
    requires !e.Wipe? && Lowers(Next(s, e), d)
    ensures Lowers(s, d)
  {
    var evs :| NoWipe(evs) && !Within(d, Usage(Exec(Next(s, e), evs).stores.durable));
    assert ([e] + evs)[1..] == evs;
    assert NoWipe([e] + evs);
    assert Exec(s, [e] + evs) == Exec(Next(s, e), evs);
  }

  /** The value of counter `g` that the running flush, left alone, makes durable. */
  function Writes(st: Stores, w: WorkerPc, g: Field): int {
    match w
    case Reading(f, seen) => if Before(g, f) then seen.At(g) else Read(st.keys, g)
    case Upserting(seen) => seen.At(g)
    case _ => Usage(st.durable).At(g)
  }

  lemma {:induction false} FlushLowers(s: System, d: Counters, g: Field)
    requires Writes(s.stores, s.worker, g) < d.At(g)
    ensures Lowers(s, d)
    decreases Remaining(s.worker)
  {
    if s.worker.Idle? {
      assert NoWipe([]) && Exec(s, []) == s;
    } else {
      assert Remaining(Next(s, TICK).worker) < Remaining(s.worker);
      FlushLowers(Next(s, TICK), d, g);
      StepLowers(s, TICK, d);
    }
  }

  function Short(a: Counters, d: Counters): Field {
    if a.requests < d.requests then Requests else if a.bytes < d.bytes then Bytes else Violations
  }

  /** A marked link whose keys are short is flushed sooner or later. */
  lemma DirtyLowers(s: System, d: Counters)
    requires s.stores.dirty && !Within(d, Snapshot(s.stores.keys))
    ensures Lowers(s, d)
  {
    var s1 := Next(s, Sync(true));
    FlushLowers(Next(s1, TICK), d, Short(Snapshot(s.stores.keys), d));
    StepLowers(s1, TICK, d);
    StepLowers(s, Sync(true), d);
  }

  lemma MarkLowers(s: System, i: nat, d: Counters)
    requires i < |s.procs| && s.procs[i].Mark? && !Within(d, Snapshot(s.stores.keys))
    ensures Lowers(s, d)
  {
    DirtyLowers(Next(s, Run(i, OK_CHOICE)), d);
    StepLowers(s, Run(i, OK_CHOICE), d);
  }

  lemma IncrLowers(s: System, i: nat, d: Counters)
    requires i < |s.procs| && s.procs[i].Incr?
    requires var low, f := Snapshot(s.stores.keys), s.procs[i].field;
             !Within(d, low.With(f, low.At(f) + Delta(f, s.procs[i].sent)))
    ensures Lowers(s, d)
  {
    MarkLowers(Next(s, Run(i, OK_CHOICE)), i, d);
    StepLowers(s, Run(i, OK_CHOICE), d);
  }

  const FAIL_CHOICE := OK_CHOICE.(fail := true)

  /** If the first INCRBY of an answer fails, the second still marks the link. */
  lemma IncrRequestsLowers(s: System, i: nat, d: Counters)
    requires i < |s.procs| && s.procs[i].Incr? && s.procs[i].field.Requests?
    requires !Within(d, Snapshot(s.stores.keys))
    ensures Lowers(s, d)
  {
    var low := Snapshot(s.stores.keys);
    if low.bytes < d.bytes {
      IncrLowers(s, i, d);
    } else {
      IncrLowers(Next(s, Run(i, FAIL_CHOICE)), i, d);
      StepLowers(s, Run(i, FAIL_CHOICE), d);
    }
  }

  lemma ForwardLowers(s: System, i: nat, d: Counters)
    requires i < |s.procs| && s.procs[i].Forward? && !Within(d, Snapshot(s.stores.keys))
    ensures Lowers(s, d)
  {
    IncrRequestsLowers(Next(s, Run(i, OK_CHOICE)), i, d);
    StepLowers(s, Run(i, OK_CHOICE), d);
  }

  lemma {:induction false} SnapLowers(s: System, i: nat, d: Counters)
    requires i < |s.procs| && s.procs[i].Snap? && !Within(d, Snapshot(s.stores.keys))
    requires Verdict(s.policy, Completed(s.stores.keys, s.procs[i].field, s.procs[i].seen)).None?
    ensures Lowers(s, d)
    decreases Rank(s.procs[i].field)
  {
    var s1 := Next(s, Run(i, OK_CHOICE));
    if s.procs[i].field.Violations? {
      ForwardLowers(s1, i, d);
    } else {
      SnapLowers(s1, i, d);
    }
    StepLowers(s, Run(i, OK_CHOICE), d);
  }

  const BLOCK_CHOICE := OK_CHOICE.(blocked := true)

  lemma GateLowers(s: System, i: nat, d: Counters)
    requires i < |s.procs| && s.procs[i].Gate?
    requires var low := Snapshot(s.stores.keys); !Within(Need(s.policy, d), low) && Within(low, d)
    ensures Lowers(s, d)
  {
    var low := Snapshot(s.stores.keys);
    if !Within(d, low.(violations := low.violations + 1)) {
      IncrLowers(Next(s, Run(i, BLOCK_CHOICE)), i, d);
      StepLowers(s, Run(i, BLOCK_CHOICE), d);
    } else {
      assert low == d.(violations := d.violations - 1);
      SnapLowers(Next(s, Run(i, OK_CHOICE)), i, d);
      StepLowers(s, Run(i, OK_CHOICE), d);
    }
  }

  lemma {:induction false} SeedLowers(s: System, i: nat, d: Counters)
    requires i < |s.procs| && s.procs[i].Seed?
    requires var last := Final(s.stores.keys, s.procs[i].field, s.procs[i].seed);
             !Within(Need(s.policy, d), last) && Within(last, d)
    ensures Lowers(s, d)
    decreases Rank(s.procs[i].field)
  {
    var s1 := Next(s, Run(i, OK_CHOICE));
    if s.procs[i].field.Violations? {
      GateLowers(s1, i, d);
    } else {
      SeedLowers(s1, i, d);
    }
    StepLowers(s, Run(i, OK_CHOICE), d);
  }

  lemma HarmfulProcLowers(s: System, i: nat)
    requires SeedsBehind(s) && i < |s.procs| && !Harmless(s.policy, Usage(s.stores.durable), s.procs[i])
    ensures Lowers(Next(s, Wipe), Usage(s.stores.durable))
  {
    var w, d := Next(s, Wipe), Usage(s.stores.durable);
    assert Snapshot(w.stores.keys) == ZERO;
    match s.procs[i]
    case Seed(f, seed) => SeedLowers(w, i, d);
    case Gate => GateLowers(w, i, d);
    case Snap(f, seen) => SnapLowers(w, i, d);
    case Forward => ForwardLowers(w, i, d);
    case Incr(f, sent) => if f.Requests? { IncrRequestsLowers(w, i, d); } else { IncrLowers(w, i, d); }
    case Mark(_, _, _) => MarkLowers(w, i, d);
    case _ =>
  }

  lemma HarmfulWorkerLowers(s: System)
    requires !WorkerHarmless(Usage(s.stores.durable), s.worker)
    ensures Lowers(Next(s, Wipe), Usage(s.stores.durable))
  {
    var w, d := Next(s, Wipe), Usage(s.stores.durable);
    var g := match s.worker.field
      case Requests => Short(ZERO, d)
      case Bytes => if d.bytes > 0 then Bytes else Violations
      case Violations => Violations;
    FlushLowers(w, d, g);
  }

  /** A Redis restart can never cost durable usage if and only if it comes at a safe moment:
      in a safe one no later run without a further restart ever lowers a durable counter below
      its value at the restart, and after any other some run does. */
  lemma SparesDurableExactlyIfSafe(s: System)
    requires Sound(s) && SeedsBehind(s)
    ensures SafeToRestart(s) <==>
      forall evs :: NoWipe(evs) ==> Within(Usage(s.stores.durable), Usage(Exec(Next(s, Wipe), evs).stores.durable))
  {
    var w, d := Next(s, Wipe), Usage(s.stores.durable);
    if SafeToRestart(s) {
      AboveAfterWipe(s);
      forall evs | NoWipe(evs) ensures Within(d, Usage(Exec(w, evs).stores.durable)) {
        AboveRun(d, w, evs);
      }
    } else {
      if WorkerHarmless(d, s.worker) {
        var i :| 0 <= i < |s.procs| && !Harmless(s.policy, d, s.procs[i]);
        HarmfulProcLowers(s, i);
      } else {
        HarmfulWorkerLowers(s);
      }
    }
  }

  /** A calm moment is a safe one. */
  lemma CalmIsSafe(s: System)
    requires Calm(s) && SeedsBehind(s)
    ensures SafeToRestart(s)
  {
  }
}
