/** Every process finishes, whatever the others do. */
module Progress {
  import opened Domain
  import opened Protocol
  import opened WriteBehind
  import opened Termination

  function Rank(f: Field): nat {
    match f
    case Requests => 3
    case Bytes => 2
    case Violations => 1
  }

  /** The number of its own commands a process still has ahead of it, at most. */
  function Left(pc: Pc): nat {
    match pc
    case Lookup => 20
    case LoadUsage => 19
    case Seed(f, _) => 15 + Rank(f)
    case Gate => 15
    case Snap(f, _) => 11 + Rank(f)
    case Forward => 11
    case Incr(f, _) => if f.Requests? then 10 else if f.Bytes? then 8 else 5
    case Mark(f, _, _) => if f.Requests? then 9 else if f.Bytes? then 7 else 4
    case Recheck(f, _) => 3 + Rank(f)
    case TermRead(_, _) => 3
    case TermWrite(_, _) => 2
    case TermRow(_, _) => 1
    case Done(_) => 0
  }

  lemma StepGetsOn(p: EffectivePolicy, st: Stores, pc: Pc, c: Choice)
    ensures pc.Done? ==> StepPc(p, st, pc, c) == (st, pc)
    ensures !pc.Done? ==> Left(StepPc(p, st, pc, c).1) < Left(pc)
  {
  }

  /** How often process `i` gets to run. */
  function Turns(i: nat, evs: seq<Event>): nat {
    if evs == [] then 0 else (if evs[0].Run? && evs[0].id == i then 1 else 0) + Turns(i, evs[1..])
  }

  /** A process is done after as many turns as it has commands left, whatever the other
      processes, the sync worker, failures and restarts do in between. */
  lemma {:induction false} ProcessFinishes(s: System, evs: seq<Event>, i: nat)
    requires i < |s.procs| && Turns(i, evs) >= Left(s.procs[i])
    ensures i < |Exec(s, evs).procs| && Exec(s, evs).procs[i].Done?
    decreases |evs|
  {
    if evs != [] {
      if evs[0].Run? && evs[0].id == i {
        StepGetsOn(s.policy, s.stores, s.procs[i], evs[0].choice);
      }
      ProcessFinishes(Next(s, evs[0]), evs[1..], i);
    } else {
      StepGetsOn(s.policy, s.stores, s.procs[i], Choice(false, false, false, false, 0));
    }
  }

  /** No new process, and turns enough for each of those present. */
  predicate Settling(s: System, evs: seq<Event>) {
    && (forall e :: e in evs ==> !e.Arrive? && !e.OwnerClick?)
    && (forall i :: 0 <= i < |s.procs| ==> Turns(i, evs) >= Left(s.procs[i]))
  }

  lemma {:induction false} SameProcesses(s: System, evs: seq<Event>)
    requires forall e :: e in evs ==> !e.Arrive? && !e.OwnerClick?
    ensures |Exec(s, evs).procs| == |s.procs|
    decreases |evs|
  {
    if evs != [] {
      assert evs[0] in evs;
      SameProcesses(Next(s, evs[0]), evs[1..]);
    }
  }

  /** Eventual termination: an active link that went over a limit is terminated once the
      processes present have had their turns, in any order. */
  lemma OverLimitEndsTerminated(s0: System, evs: seq<Event>, s: System, more: seq<Event>, f: Field)
    requires Sound(s0) && !OverLimit(s0, f) && NoWipe(evs) && NoFailure(evs)
    requires s == Exec(s0, evs) && OverLimit(s, f)
    requires NoWipe(more) && NoFailure(more) && Settling(s, more)
    ensures Exec(s, more).stores.status.Terminated?
  {
    var t := Exec(s, more);
    SameProcesses(s, more);
    forall i | 0 <= i < |t.procs| ensures t.procs[i].Done? {
      ProcessFinishes(s, more, i);
    }
    ExecAppend(s0, evs, more);
    RunStaysSound(s0, evs);
    RunStaysSound(s, more);
    PolicyFixed(s0, evs);
    PolicyFixed(s, more);
    assert Current(s.stores, f) <= Current(t.stores, f);
    NoMissedTermination(s0, evs + more, f);
  }
}
