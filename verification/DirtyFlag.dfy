/** The dirty set: when a clean link may be trusted to have its counters in the durable row. */
module DirtyFlag {
  import opened Domain
  import opened Protocol
  import opened WriteBehind
  import opened Lag
  import opened Restart

  /** Every live key has its value in the durable row. */
  ghost predicate Equal(st: Stores) {
    forall g: Field :: g in st.keys ==> Usage(st.durable).At(g) == st.keys[g]
  }

  /** The worker has read counter `f` below `v` and has not cleared the flag yet. */
  predicate Overtaken(st: Stores, w: WorkerPc, f: Field, v: int) {
    match w
    case Idle => false
    case Reading(g, seen) => Before(f, g) && seen.At(f) < v
    case Upserting(seen) => seen.At(f) < v
    case Clearing => Usage(st.durable).At(f) < v
  }

  /** A SADD that cannot do harm: the increment before it is not one the running flush has
      missed, and it fails only if the flag is up or the increment is durable already. */
  predicate InTime(s: System, i: nat, c: Choice) {
    i < |s.procs| && s.procs[i].Mark? ==>
      && !Overtaken(s.stores, s.worker, s.procs[i].field, s.procs[i].value)
      && (c.fail ==> s.stores.dirty || s.procs[i].value <= Usage(s.stores.durable).At(s.procs[i].field))
  }

  /** Every SADD of the run comes in time; increments may come at any moment, and the worker's
      own commands may fail at will. */
  predicate Orderly(s: System, evs: seq<Event>)
    decreases |evs|
  {
    evs != [] ==>
      && !evs[0].Wipe?
      && (evs[0].Run? ==> InTime(s, evs[0].id, evs[0].choice))
      && Orderly(Next(s, evs[0]), evs[1..])
  }

  ghost predicate MarkAbove(ps: seq<Pc>, g: Field, d: int, i: nat) {
    i < |ps| && ps[i].Mark? && ps[i].field == g && ps[i].value > d
  }

  /** If counter `g` is past `d`, an increment past `d` has its SADD still to come. */
  ghost predicate Announced(keys: Keys, ps: seq<Pc>, g: Field, d: int) {
    g in keys && keys[g] > d ==> exists i: nat :: MarkAbove(ps, g, d, i)
  }

  ghost predicate FlushAnnounced(s: System) {
    match s.worker
    case Idle => true
    case Reading(f, seen) => forall g: Field :: Before(g, f) ==> Announced(s.stores.keys, s.procs, g, seen.At(g))
    case Upserting(seen) => forall g: Field :: Announced(s.stores.keys, s.procs, g, seen.At(g))
    case Clearing => forall g: Field :: Announced(s.stores.keys, s.procs, g, Usage(s.stores.durable).At(g))
  }

  /** Whatever is not durable on a clean link, or missed by the running flush, is announced. */
  ghost predicate FlagKept(s: System) {
    && (!s.stores.dirty ==> forall g: Field :: Announced(s.stores.keys, s.procs, g, Usage(s.stores.durable).At(g)))
    && FlushAnnounced(s)
  }

  /** A step of process `i` that leaves `d` behind only if it announces it. */
  lemma AnnouncedProc(s: System, i: nat, c: Choice, g: Field, d: int)
    requires Sound(s) && i < |s.procs| && Announced(s.stores.keys, s.procs, g, d)
    requires g in s.stores.keys || Usage(s.stores.durable).At(g) <= d
    requires s.procs[i].Mark? && s.procs[i].field == g ==> s.procs[i].value <= d
    ensures Announced(Next(s, Run(i, c)).stores.keys, Next(s, Run(i, c)).procs, g, d)
  {
    var s' := Next(s, Run(i, c));
    if g in s'.stores.keys && s'.stores.keys[g] > d {
      if g in s.stores.keys && s.stores.keys[g] > d {
        var j: nat :| MarkAbove(s.procs, g, d, j);
        assert MarkAbove(s'.procs, g, d, j);
      } else {
        assert Warm(s.stores, s.procs[i]);
        assert MarkAbove(s'.procs, g, d, i);
      }
    }
  }

  lemma FlagKeptProc(s: System, i: nat, c: Choice)
    requires Sound(s) && FlagKept(s) && i < |s.procs| && InTime(s, i, c)
    ensures FlagKept(Next(s, Run(i, c)))
  {
    var s' := Next(s, Run(i, c));
    assert s'.stores.durable == s.stores.durable;
    if !s'.stores.dirty {
      forall g: Field ensures Announced(s'.stores.keys, s'.procs, g, Usage(s.stores.durable).At(g)) {
        AnnouncedProc(s, i, c, g, Usage(s.stores.durable).At(g));
      }
    }
    match s.worker {
      case Idle =>
      case Reading(f, seen) =>
        forall g: Field | Before(g, f) ensures Announced(s'.stores.keys, s'.procs, g, seen.At(g)) {
          AnnouncedProc(s, i, c, g, seen.At(g));
        }
      case Upserting(seen) =>
        forall g: Field ensures Announced(s'.stores.keys, s'.procs, g, seen.At(g)) {
          AnnouncedProc(s, i, c, g, seen.At(g));
        }
      case Clearing =>
        forall g: Field ensures Announced(s'.stores.keys, s'.procs, g, Usage(s.stores.durable).At(g)) {
          AnnouncedProc(s, i, c, g, Usage(s.stores.durable).At(g));
        }
    }
  }

  lemma FlagKeptArrival(s: System, pc: Pc)
    requires FlagKept(s)
    ensures FlagKept(s.(procs := s.procs + [pc]))
  {
    var ps := s.procs + [pc];
    forall g: Field, d | Announced(s.stores.keys, s.procs, g, d) ensures Announced(s.stores.keys, ps, g, d) {
      if g in s.stores.keys && s.stores.keys[g] > d {
        var i: nat :| MarkAbove(s.procs, g, d, i);
        assert MarkAbove(ps, g, d, i);
      }
    }
  }

  lemma FlagKeptNext(s: System, e: Event)
    requires Sound(s) && FlagKept(s) && !e.Wipe?
    requires e.Run? ==> InTime(s, e.id, e.choice)
    ensures FlagKept(Next(s, e))
  {
    match e
    case Arrive => FlagKeptArrival(s, Lookup);
    case OwnerClick => FlagKeptArrival(s, TermRead(Manual, OwnerTerminated));
    case Run(i, c) => if i < |s.procs| { FlagKeptProc(s, i, c); }
    case Sync(fail) =>
  }

  /** No SADD is outstanding. */
  predicate NoMark(ps: seq<Pc>) {
    forall i :: 0 <= i < |ps| ==> !ps[i].Mark?
  }

  /** Flush correctness: in an orderly run, whatever the worker's commands do and whenever
      counters are incremented, a clean link with no SADD outstanding has its live counters in
      the durable row. */
  lemma {:induction false} CleanMeansEqual(s: System, evs: seq<Event>)
    requires Sound(s) && FlagKept(s) && Orderly(s, evs)
    ensures FlagKept(Exec(s, evs))
    ensures !Exec(s, evs).stores.dirty && NoMark(Exec(s, evs).procs) ==> Equal(Exec(s, evs).stores)
    decreases |evs|
  {
    if evs != [] {
      SoundNext(s, evs[0]);
      FlagKeptNext(s, evs[0]);
      CleanMeansEqual(Next(s, evs[0]), evs[1..]);
    } else if !s.stores.dirty && NoMark(s.procs) {
      forall g: Field | g in s.stores.keys ensures Usage(s.stores.durable).At(g) == s.stores.keys[g] {
        assert Announced(s.stores.keys, s.procs, g, Usage(s.stores.durable).At(g));
      }
    }
  }

  // ----- the hypothesis is the right one -----

  function Ticks(n: nat): seq<Event> {
    seq(n, i => TICK)
  }

  lemma {:induction false} FlushEnds(s: System)
    ensures var t := Exec(s, Ticks(Remaining(s.worker)));
            && t.worker.Idle? && t.procs == s.procs && t.stores.keys == s.stores.keys
            && (s.worker.Idle? || !t.stores.dirty)
    ensures FinishesFlush(s.worker, Ticks(Remaining(s.worker)))
    decreases Remaining(s.worker)
  {
    if !s.worker.Idle? {
      var n := Remaining(s.worker);
      assert Ticks(n)[0] == TICK && Ticks(n)[1..] == Ticks(n - 1);
      FlushEnds(Next(s, TICK));
    }
  }

  lemma {:induction false} TicksAreOrderly(s: System, n: nat)
    ensures Orderly(s, Ticks(n))
    decreases n
  {
    if n > 0 {
      assert Ticks(n)[0] == TICK && Ticks(n)[1..] == Ticks(n - 1);
      TicksAreOrderly(Next(s, TICK), n - 1);
    }
  }

  /** The only outstanding SADD lands during a flush, and then the flush ends, nothing failing:
      the link ends clean, and it is in step if and only if the SADD was not overtaken. */
  lemma CleanLinkInStepExactlyIfInTime(s: System, i: nat, c: Choice)
    requires Sound(s) && FlagKept(s) && !s.worker.Idle? && !c.fail
    requires i < |s.procs| && s.procs[i].Mark? && NoMark(s.procs[i := Lookup])
    requires s.procs[i].field in s.stores.keys && s.procs[i].value <= s.stores.keys[s.procs[i].field]
    ensures var t := Exec(s, [Run(i, c)] + Ticks(Remaining(s.worker)));
            && t.worker.Idle? && !t.stores.dirty && NoMark(t.procs)
            && (Equal(t.stores) <==> !Overtaken(s.stores, s.worker, s.procs[i].field, s.procs[i].value))
  {
    var f, v, ticks := s.procs[i].field, s.procs[i].value, Ticks(Remaining(s.worker));
    var evs := [Run(i, c)] + ticks;
    var s1 := Next(s, Run(i, c));
    assert evs[1..] == ticks;
    FlushEnds(s1);
    assert NoMark(s1.procs) by {
      forall j | 0 <= j < |s1.procs| ensures !s1.procs[j].Mark? {
        assert j != i ==> s.procs[i := Lookup][j] == s1.procs[j];
      }
    }
    if Overtaken(s.stores, s.worker, f, v) {
      var seen := match s.worker
        case Reading(_, r) => r.At(f)
        case Upserting(r) => r.At(f)
        case _ => Usage(s.stores.durable).At(f);
      FlushWritesWhatWasRead(s1, ticks, f, seen);
    } else {
      TicksAreOrderly(s1, Remaining(s.worker));
      CleanMeansEqual(s, evs);
    }
  }

  /** A worker that has read (5, 50, 1), and a blocked request that is about to be counted. */
  const MID_FLUSH := System(UNLIMITED, SETTLED.(dirty := true), [Incr(Violations, 0)], Upserting(Counters(5, 50, 1)), [], 1)

  /** The smallest case: all commands successful, a clean link whose durable row is behind. */
  lemma LostDirtyFlag()
    ensures Sound(MID_FLUSH) && FlagKept(MID_FLUSH)
    ensures Exec(MID_FLUSH, [GO, GO, TICK, TICK]) ==
      MID_FLUSH.(stores := SETTLED.(keys := map[Requests := 5, Bytes := 50, Violations := 2]),
                 procs := [Done(Blocked)], worker := Idle)
  {
    Unfold4(MID_FLUSH, GO, GO, TICK, TICK);
    var s1 := Next(MID_FLUSH, GO);
    assert s1.stores.keys == map[Requests := 5, Bytes := 50, Violations := 2];
    assert s1.procs == [Mark(Violations, 0, 2)];
    assert Next(s1, GO).procs == [Done(Blocked)];
  }
}
