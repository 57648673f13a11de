/** The link_terminations ledger under racing terminators, automatic and manual. */
module Ledger {
  import opened Domain
  import opened Protocol
  import opened Sums
  import opened Progress

  // ----- rows and status agree -----

  function RowPending(pc: Pc): int {
    if pc.TermRow? then 1 else 0
  }

  /** A row, or a process about to write one, means the link is terminated. */
  ghost predicate RowsMeanTerminated(s: System) {
    && (s.stores.ledger != [] ==> s.stores.status.Terminated?)
    && (forall i :: 0 <= i < |s.procs| && s.procs[i].TermRow? ==> s.stores.status.Terminated?)
  }

  /** A terminated link has a row, or a process about to write one. */
  predicate TerminatedMeansRow(s: System) {
    s.stores.status.Terminated? ==> s.stores.ledger != [] || Sum(RowPending, s.procs) >= 1
  }

  lemma {:induction false} PendingRows(ps: seq<Pc>)
    ensures Sum(RowPending, ps) >= 0
    ensures forall i :: 0 <= i < |ps| ==> RowPending(ps[i]) <= Sum(RowPending, ps)
  {
    SumNonNegative(RowPending, ps);
  }

  lemma AgreesNext(s: System, e: Event)
    requires RowsMeanTerminated(s)
    ensures RowsMeanTerminated(Next(s, e))
    ensures !Fails(e) && TerminatedMeansRow(s) ==> TerminatedMeansRow(Next(s, e))
  {
    SumNext(RowPending, s, e);
    PendingRows(s.procs);
    PendingRows(Next(s, e).procs);
    if e.Run? && e.id < |s.procs| {
      assert Next(s, e).procs[e.id] == StepPc(s.policy, s.stores, s.procs[e.id], e.choice).1;
    }
  }

  /** In every run, whatever fails and however often Redis restarts, a row means terminated;
      without failures terminated means a row, or a process about to write one. */
  lemma {:induction false} LedgerAgrees(s: System, evs: seq<Event>)
    requires RowsMeanTerminated(s)
    ensures RowsMeanTerminated(Exec(s, evs))
    ensures NoFailure(evs) && TerminatedMeansRow(s) ==> TerminatedMeansRow(Exec(s, evs))
    decreases |evs|
  {
    if evs != [] {
      AgreesNext(s, evs[0]);
      LedgerAgrees(Next(s, evs[0]), evs[1..]);
    }
  }

  // ----- which rows -----

  /** 1 for a process that has read "active" and has a row with reason `r` still to write. */
  function Claim(r: Reason): Pc -> int {
    (pc: Pc) => if (pc.TermWrite? || pc.TermRow?) && pc.reason == r then 1 else 0
  }

  function Rows(ledger: seq<Reason>, r: Reason): nat {
    multiset(ledger)[r]
  }

  /** Rows with reason `r` that are written or claimed. */
  function Accounted(s: System, r: Reason): int {
    Rows(s.stores.ledger, r) + Sum(Claim(r), s.procs)
  }

  /** The event is a terminator with reason `r` reading "active". */
  predicate ReadsActive(s: System, e: Event, r: Reason) {
    && e.Run? && e.id < |s.procs| && !e.choice.fail
    && s.procs[e.id].TermRead? && s.procs[e.id].reason == r && s.stores.status.Active?
  }

  /** The processes that read "active" with reason `r`, in the order in which they do. */
  function EarlyReaders(s: System, evs: seq<Event>, r: Reason): seq<nat>
    decreases |evs|
  {
    if evs == [] then []
    else (if ReadsActive(s, evs[0], r) then [evs[0].id] else []) + EarlyReaders(Next(s, evs[0]), evs[1..], r)
  }

  lemma ClaimStep(p: EffectivePolicy, st: Stores, pc: Pc, c: Choice, r: Reason)
    ensures var (st', pc') := StepPc(p, st, pc, c);
            var gain := Rows(st'.ledger, r) + Claim(r)(pc') - Rows(st.ledger, r) - Claim(r)(pc);
            var early := if !c.fail && pc.TermRead? && pc.reason == r && st.status.Active? then 1 else 0;
            gain <= early && (!c.fail ==> gain == early)
  {
  }

  lemma AccountedNext(s: System, e: Event, r: Reason)
    ensures Accounted(Next(s, e), r) <= Accounted(s, r) + (if ReadsActive(s, e, r) then 1 else 0)
    ensures !Fails(e) ==> Accounted(Next(s, e), r) == Accounted(s, r) + (if ReadsActive(s, e, r) then 1 else 0)
  {
    SumNext(Claim(r), s, e);
    if e.Run? && e.id < |s.procs| {
      ClaimStep(s.policy, s.stores, s.procs[e.id], e.choice, r);
    }
  }

  /** Over every run, from any state: rows written or claimed grow by at most one for each
      process that reads "active", reason by reason, and by exactly that if nothing fails. */
  lemma {:induction false} RowsComeFromEarlyReaders(s: System, evs: seq<Event>, r: Reason)
    ensures Accounted(Exec(s, evs), r) <= Accounted(s, r) + |EarlyReaders(s, evs, r)|
    ensures NoFailure(evs) ==> Accounted(Exec(s, evs), r) == Accounted(s, r) + |EarlyReaders(s, evs, r)|
    decreases |evs|
  {
    if evs != [] {
      AccountedNext(s, evs[0], r);
      RowsComeFromEarlyReaders(Next(s, evs[0]), evs[1..], r);
    }
  }

  /** Nobody reads "active" once the status is written. */
  lemma {:induction false} ReadersComeBeforeTheWrite(s: System, evs: seq<Event>, r: Reason)
    requires s.stores.status.Terminated?
    ensures Exec(s, evs).stores.status.Terminated? && EarlyReaders(s, evs, r) == []
    decreases |evs|
  {
    if evs != [] {
      ReadersComeBeforeTheWrite(Next(s, evs[0]), evs[1..], r);
    }
  }

  lemma LeftNext(s: System, e: Event, i: nat)
    requires i < |s.procs|
    ensures i < |Next(s, e).procs| && Left(Next(s, e).procs[i]) <= Left(s.procs[i])
  {
    if e.Run? && e.id == i {
      StepGetsOn(s.policy, s.stores, s.procs[i], e.choice);
    }
  }

  lemma ReaderMovesOn(s: System, e: Event, r: Reason)
    requires ReadsActive(s, e, r)
    ensures Left(s.procs[e.id]) == 3 && Left(Next(s, e).procs[e.id]) == 2
  {
  }

  /** A process reads the status at most once, so the readers are as many terminators. */
  lemma {:induction false} ReadersAreDistinct(s: System, evs: seq<Event>, r: Reason)
    ensures var ids := EarlyReaders(s, evs, r);
            && (forall j, k :: 0 <= j < k < |ids| ==> ids[j] != ids[k])
            && (forall i :: i in ids && i < |s.procs| ==> Left(s.procs[i]) >= 3)
    decreases |evs|
  {
    if evs != [] {
      var e, s1 := evs[0], Next(s, evs[0]);
      ReadersAreDistinct(s1, evs[1..], r);
      forall i | 0 <= i < |s.procs| ensures i < |s1.procs| && Left(s1.procs[i]) <= Left(s.procs[i]) {
        LeftNext(s, e, i);
      }
      if ReadsActive(s, e, r) {
        ReaderMovesOn(s, e, r);
        assert e.id !in EarlyReaders(s1, evs[1..], r);
      }
    }
  }

  /** Started at rest: when all processes are done, the ledger has gained at most one row for
      each process that read "active" before the status write, with that process's own reason,
      and exactly those rows if nothing failed. */
  lemma SettledLedger(s: System, evs: seq<Event>, r: Reason)
    requires Quiescent(s) && Quiescent(Exec(s, evs))
    ensures Rows(Exec(s, evs).stores.ledger, r) <= Rows(s.stores.ledger, r) + |EarlyReaders(s, evs, r)|
    ensures NoFailure(evs) ==>
      Rows(Exec(s, evs).stores.ledger, r) == Rows(s.stores.ledger, r) + |EarlyReaders(s, evs, r)|
  {
    RowsComeFromEarlyReaders(s, evs, r);
    SumZero(Claim(r), s.procs);
    SumZero(Claim(r), Exec(s, evs).procs);
  }

  /** With no other terminator between its status read and its row, the process that terminates
      an active link leaves exactly one row, with its own reason, whatever runs afterwards. */
  lemma SoleTerminatorWritesOneRow(s: System, i: nat, c: Choice, evs: seq<Event>, q: Reason)
    requires s.stores.status.Active? && s.stores.ledger == []
    requires i < |s.procs| && s.procs[i].TermWrite? && !c.fail
    requires forall j :: 0 <= j < |s.procs| && j != i ==> !s.procs[j].TermWrite? && !s.procs[j].TermRow?
    requires NoFailure(evs) && Quiescent(Exec(Next(s, Run(i, c)), evs))
    ensures Rows(Exec(Next(s, Run(i, c)), evs).stores.ledger, q) == if q == s.procs[i].reason then 1 else 0
    ensures Exec(Next(s, Run(i, c)), evs).stores.status.Terminated?
  {
    var s1 := Next(s, Run(i, c));
    ReadersComeBeforeTheWrite(s1, evs, q);
    RowsComeFromEarlyReaders(s1, evs, q);
    SumZero(Claim(q), Exec(s1, evs).procs);
    SumUpdate(Claim(q), s.procs, i, s1.procs[i]);
    var others := s.procs[i := Lookup];
    SumUpdate(Claim(q), s.procs, i, Lookup);
    SumZero(Claim(q), others);
  }
}
