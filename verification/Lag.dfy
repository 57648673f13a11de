/** How far the durable row is behind after a flush: exactly by what was counted since the
    worker read the counter. */
module Lag {
  import opened Domain
  import opened Protocol
  import opened WriteBehind
  import opened Conservation

  function AddedBy(s: System, e: Event, f: Field): nat {
    if e.Run? && e.id < |s.procs| && !e.choice.fail && s.procs[e.id].Incr? && s.procs[e.id].field == f
    then Delta(f, s.procs[e.id].sent) else 0
  }

  /** What the run adds to counter `f`: every INCRBY that succeeds. */
  function Added(s: System, evs: seq<Event>, f: Field): nat
    decreases |evs|
  {
    if evs == [] then 0 else AddedBy(s, evs[0], f) + Added(Next(s, evs[0]), evs[1..], f)
  }

  lemma AddedProc(p: EffectivePolicy, st: Stores, pc: Pc, c: Choice, f: Field)
    requires StoreSound(st) && Warm(st, pc)
    ensures Current(StepPc(p, st, pc, c).0, f) == Current(st, f) +
      if !c.fail && pc.Incr? && pc.field == f then Delta(f, pc.sent) else 0
  {
    match pc {
      case Incr(g, sent) =>
      case Seed(g, seed) =>
      case _ =>
    }
  }

  lemma AddedNext(s: System, e: Event, f: Field)
    requires Sound(s) && !e.Wipe?
    ensures Current(Next(s, e).stores, f) == Current(s.stores, f) + AddedBy(s, e, f)
  {
    match e {
      case Run(i, c) => if i < |s.procs| { AddedProc(s.policy, s.stores, s.procs[i], c, f); }
      case Sync(fail) => BalanceSync(s.stores, s.worker, fail, f);
      case _ =>
    }
  }

  lemma {:induction false} CurrentGrowsByAdded(s: System, evs: seq<Event>, f: Field)
    requires Sound(s) && NoWipe(evs)
    ensures Current(Exec(s, evs).stores, f) == Current(s.stores, f) + Added(s, evs, f)
    decreases |evs|
  {
    if evs != [] {
      SoundNext(s, evs[0]);
      AddedNext(s, evs[0], f);
      CurrentGrowsByAdded(Next(s, evs[0]), evs[1..], f);
    }
  }

  /** The worker holds, or has just written, value `v` for counter `f`. */
  ghost predicate Carries(w: WorkerPc, durable: Option<Counters>, f: Field, v: int) {
    match w
    case Idle => Usage(durable).At(f) == v
    case Reading(g, seen) => Before(f, g) && seen.At(f) == v
    case Upserting(seen) => seen.At(f) == v
    case Clearing => Usage(durable).At(f) == v
  }

  /** How many commands of the flush are left. */
  function Remaining(w: WorkerPc): nat {
    match w
    case Idle => 0
    case Reading(g, _) => (match g case Requests => 5 case Bytes => 4 case Violations => 3)
    case Upserting(_) => 2
    case Clearing => 1
  }

  function Syncs(evs: seq<Event>): nat {
    if evs == [] then 0 else (if evs[0].Sync? then 1 else 0) + Syncs(evs[1..])
  }

  /** The run holds the rest of one flush: that many worker steps, none failing. */
  predicate FinishesFlush(w: WorkerPc, evs: seq<Event>) {
    Syncs(evs) == Remaining(w) && forall e :: e in evs ==> e.Sync? ==> !e.fail
  }

  lemma DurableUntouched(p: EffectivePolicy, st: Stores, pc: Pc, c: Choice)
    ensures StepPc(p, st, pc, c).0.durable == st.durable
  {
  }

  lemma CarriesOn(st: Stores, w: WorkerPc, f: Field, v: int)
    requires Carries(w, st.durable, f, v) && !w.Idle?
    ensures var (st', w') := StepWorker(st, w, false);
            Carries(w', st'.durable, f, v) && Remaining(w') == Remaining(w) - 1
  {
  }

  lemma {:induction false} FlushWritesWhatWasRead(s: System, evs: seq<Event>, f: Field, v: int)
    requires Carries(s.worker, s.stores.durable, f, v) && FinishesFlush(s.worker, evs)
    ensures Exec(s, evs).worker.Idle? && Usage(Exec(s, evs).stores.durable).At(f) == v
    decreases |evs|
  {
    if evs != [] {
      var s1 := Next(s, evs[0]);
      assert evs[0] in evs;
      if evs[0].Sync? {
        CarriesOn(s.stores, s.worker, f, v);
      } else if evs[0].Run? && evs[0].id < |s.procs| {
        DurableUntouched(s.policy, s.stores, s.procs[evs[0].id], evs[0].choice);
      }
      FlushWritesWhatWasRead(s1, evs[1..], f, v);
    }
  }

  /** The worker is about to GET counter `f`, and the run is the rest of that flush, nothing of
      the worker failing. Afterwards the durable counter is behind the live one by exactly what
      was counted since the GET, so the two agree if and only if nothing was. */
  lemma LagIsWhatWasAddedMeanwhile(s: System, evs: seq<Event>, f: Field)
    requires Sound(s) && NoWipe(evs) && s.worker.Reading? && s.worker.field == f
    requires evs != [] && evs[0] == Sync(false) && FinishesFlush(s.worker, evs)
    ensures var t := Exec(s, evs);
            && Current(t.stores, f) - Usage(t.stores.durable).At(f) == Added(s, evs, f)
            && (Current(t.stores, f) == Usage(t.stores.durable).At(f) <==> Added(s, evs, f) == 0)
  {
    var s1 := Next(s, evs[0]);
    var v := Read(s.stores.keys, f);
    SoundNext(s, evs[0]);
    AddedNext(s, evs[0], f);
    assert Carries(s1.worker, s1.stores.durable, f, v);
    assert Remaining(s1.worker) == Remaining(s.worker) - 1;
    FlushWritesWhatWasRead(s1, evs[1..], f, v);
    CurrentGrowsByAdded(s1, evs[1..], f);
    assert Current(s.stores, f) == v;
  }
}
