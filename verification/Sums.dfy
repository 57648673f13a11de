/** Sums of a weight over the processes of a link. */
module Sums {
  import opened Domain
  import opened Protocol

  function Sum(w: Pc -> int, ps: seq<Pc>): int {
    if ps == [] then 0 else w(ps[0]) + Sum(w, ps[1..])
  }

  lemma {:induction false} SumUpdate(w: Pc -> int, ps: seq<Pc>, i: nat, pc: Pc)
    requires i < |ps|
    ensures Sum(w, ps[i := pc]) == Sum(w, ps) - w(ps[i]) + w(pc)
  {
    if i == 0 {
      assert ps[0 := pc][1..] == ps[1..];
    } else {
      assert ps[i := pc][1..] == ps[1..][i - 1 := pc];
      SumUpdate(w, ps[1..], i - 1, pc);
    }
  }

  lemma {:induction false} SumAppend(w: Pc -> int, ps: seq<Pc>, pc: Pc)
    ensures Sum(w, ps + [pc]) == Sum(w, ps) + w(pc)
  {
    if ps == [] {
      assert ps + [pc] == [pc];
    } else {
      assert (ps + [pc])[1..] == ps[1..] + [pc];
      SumAppend(w, ps[1..], pc);
    }
  }

  function Change(w: Pc -> int, s: System, e: Event): int {
    match e
    case Arrive => w(Lookup)
    case OwnerClick => w(TermRead(Manual, OwnerTerminated))
    case Run(i, c) =>
      if i < |s.procs| then w(StepPc(s.policy, s.stores, s.procs[i], c).1) - w(s.procs[i]) else 0
    case _ => 0
  }

  /** The sum after one event: only the process that moved, or the one that arrived, counts. */
  lemma SumNext(w: Pc -> int, s: System, e: Event)
    ensures Sum(w, Next(s, e).procs) == Sum(w, s.procs) + Change(w, s, e)
  {
    match e
    case Arrive => SumAppend(w, s.procs, Lookup);
    case OwnerClick => SumAppend(w, s.procs, TermRead(Manual, OwnerTerminated));
    case Run(i, c) =>
      if i < |s.procs| {
        SumUpdate(w, s.procs, i, StepPc(s.policy, s.stores, s.procs[i], c).1);
      }
    case _ =>
  }

  /** Weight `v` never exceeds `k` times weight `w`, so neither do their sums. */
  lemma {:induction false} SumBound(v: Pc -> int, w: Pc -> int, k: int, ps: seq<Pc>)
    requires forall i :: 0 <= i < |ps| ==> v(ps[i]) <= k * w(ps[i])
    ensures Sum(v, ps) <= k * Sum(w, ps)
  {
    if ps != [] {
      SumBound(v, w, k, ps[1..]);
    }
  }

  lemma {:induction false} SumNonNegative(w: Pc -> int, ps: seq<Pc>)
    requires forall i :: 0 <= i < |ps| ==> w(ps[i]) >= 0
    ensures Sum(w, ps) >= 0
    ensures forall i :: 0 <= i < |ps| ==> w(ps[i]) <= Sum(w, ps)
  {
    if ps != [] {
      SumNonNegative(w, ps[1..]);
      forall i | 0 <= i < |ps| ensures w(ps[i]) <= Sum(w, ps) {
        if i > 0 { assert ps[i] == ps[1..][i - 1]; }
      }
    }
  }

  lemma {:induction false} SumZero(w: Pc -> int, ps: seq<Pc>)
    requires forall i :: 0 <= i < |ps| ==> w(ps[i]) == 0
    ensures Sum(w, ps) == 0
  {
    if ps != [] {
      SumZero(w, ps[1..]);
    }
  }

  /** All bytes the guests were sent. */
  function Total(answers: seq<Answer>): nat {
    if answers == [] then 0 else answers[0].sent + Total(answers[1..])
  }

  lemma {:induction false} TotalAppend(answers: seq<Answer>, a: Answer)
    ensures Total(answers + [a]) == Total(answers) + a.sent
  {
    if answers == [] {
      assert answers + [a] == [a];
    } else {
      assert (answers + [a])[1..] == answers[1..] + [a];
      TotalAppend(answers[1..], a);
    }
  }
}
