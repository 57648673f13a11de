/** The flush loop (app/internal/limiter/sync_worker.go). */
module SyncWorkers {
  import opened Domain
  import opened Protocol
  import opened CounterStores
  import Lag

  /** Which command of a link's flush fails, if any. */
  datatype FlushFault = NoFault | GetFails | UpsertFails | ClearFails

  /** The flush-relevant part of a link. */
  datatype Copy = Copy(keys: Keys, dirty: bool, durable: Option<Counters>)

  /** The protocol's worker, run on one listed link without interruption. */
  function WorkAlone(st: Stores, w: WorkerPc, fault: FlushFault): Stores
    decreases Lag.Remaining(w)
  {
    if w.Idle? then st
    else
      var fail := match w
        case Reading(_, _) => fault.GetFails?
        case Upserting(_) => fault.UpsertFails?
        case _ => fault.ClearFails?;
      var (st', w') := StepWorker(st, w, fail);
      WorkAlone(st', w', fault)
  }

  /** What one pass does to a link of the listing. */
  function Flushed(c: Copy, fault: FlushFault): Copy {
    var seen := Some(Snapshot(c.keys));
    match fault
    case NoFault => Copy(c.keys, false, seen)
    case GetFails => c
    case UpsertFails => c
    case ClearFails => Copy(c.keys, c.dirty, seen)
  }

  /** One GET of the pass. */
  lemma WorkRead(st: Stores, f: Field, seen: Counters, fault: FlushFault)
    ensures WorkAlone(st, Reading(f, seen), fault) ==
      if fault.GetFails? then st else WorkAlone(st, AfterRead(f, seen.With(f, Read(st.keys, f))), fault)
  {
    assert WorkAlone(st, Idle, fault) == st;
  }

  /** The upsert and the clearing of the flag. */
  lemma WorkWrite(st: Stores, seen: Counters, fault: FlushFault)
    ensures WorkAlone(st, Upserting(seen), fault) ==
      if fault.UpsertFails? then st
      else st.(durable := Some(seen), dirty := if fault.ClearFails? then st.dirty else false)
  {
    assert WorkAlone(st, Idle, fault) == st;
    if !fault.UpsertFails? {
      var up := st.(durable := Some(seen));
      var (end, w) := StepWorker(up, Clearing, fault.ClearFails?);
      assert WorkAlone(end, Idle, fault) == end;
      assert WorkAlone(up, Clearing, fault) == end;
    }
  }

  /** A pass over a link does what the protocol's worker does when nobody interferes. */
  lemma FlushIsTheProtocolsWorker(st: Stores, fault: FlushFault)
    ensures var c := Flushed(Copy(st.keys, st.dirty, st.durable), fault);
            WorkAlone(st, Reading(Requests, ZERO), fault) == st.(keys := c.keys, dirty := c.dirty, durable := c.durable)
  {
    var s1 := ZERO.With(Requests, Read(st.keys, Requests));
    var s2 := s1.With(Bytes, Read(st.keys, Bytes));
    var s3 := s2.With(Violations, Read(st.keys, Violations));
    assert s3 == Snapshot(st.keys);
    WorkRead(st, Requests, ZERO, fault);
    WorkRead(st, Bytes, s1, fault);
    WorkRead(st, Violations, s2, fault);
    WorkWrite(st, s3, fault);
  }

  /** Every live key has its value in the durable row. */
  predicate InStep(c: Copy) {
    forall g: Field :: g in c.keys ==> Usage(c.durable).At(g) == c.keys[g]
  }

  function Passed(c: Copy, listFails: bool, fault: FlushFault): Copy {
    if !listFails && c.dirty then Flushed(c, fault) else c
  }

  /** Flush correctness for one link: a pass keeps "clean means in step" for every fault, never
      lowers a durable counter that was not ahead of its live key, and without faults leaves the
      link clean and in step. */
  lemma PassKeepsCleanInStep(c: Copy, listFails: bool, fault: FlushFault)
    requires !c.dirty ==> InStep(c)
    requires c.dirty ==> AllKeys(c.keys)
    ensures var d := Passed(c, listFails, fault);
            && (!d.dirty ==> InStep(d))
            && (!listFails && fault.NoFault? ==> !d.dirty && InStep(d))
            && ((forall g: Field :: g in c.keys ==> Usage(c.durable).At(g) <= c.keys[g]) ==>
                  forall g: Field :: Usage(c.durable).At(g) <= Usage(d.durable).At(g))
  {
  }

  class SyncWorker {
    const store: CounterStore
    const usage: UsageTable

    constructor (store: CounterStore, usage: UsageTable)
      ensures this.store == store && this.usage == usage
    {
      this.store, this.usage := store, usage;
    }

    function CopyOf(l: LinkId): Copy
      reads store, usage
    {
      Copy(store.KeysOf(l), l in store.dirty, usage.Row(l))
    }

    method FlushLink(l: LinkId, fault: FlushFault)
      modifies store`dirty, usage
      ensures CopyOf(l) == Flushed(old(CopyOf(l)), fault)
      ensures forall k: LinkId :: k != l ==> CopyOf(k) == old(CopyOf(k))
    {
      var counters := store.Get(l, fault.GetFails?);
      if counters.Err? {
        return;
      }
      var stored := usage.Upsert(l, counters.value, fault.UpsertFails?);
      if !stored {
        return;
      }
      var cleared := store.ClearDirty(l, fault.ClearFails?);
    }

    /** One pass. Whatever fails for one link, the others get their pass: links that were dirty
        are flushed as far as their own fault lets them, the rest is untouched. */
    method FlushOnce(listFails: bool, fault: LinkId -> FlushFault)
      modifies store`dirty, usage
      ensures forall l: LinkId :: CopyOf(l) == Passed(old(CopyOf(l)), listFails, fault(l))
    {
      if listFails {
        return;
      }
      var ids := store.DirtyLinkIDs();
      for i := 0 to |ids|
        invariant forall l: LinkId ::
          CopyOf(l) == if l in ids[..i] then Flushed(old(CopyOf(l)), fault(l)) else old(CopyOf(l))
      {
        assert ids[i] !in ids[..i];
        assert ids[..i + 1] == ids[..i] + [ids[i]];
        FlushLink(ids[i], fault(ids[i]));
      }
      assert ids[..|ids|] == ids;
    }
  }
}
