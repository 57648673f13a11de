/** The batching access logger (app/internal/proxy/logwriter.go). */
module AccessLogger {

  const CHANNEL_BATCHES := 20

  function Concat<T>(batches: seq<seq<T>>): seq<T> {
    if batches == [] then [] else Concat(batches[..|batches| - 1]) + batches[|batches| - 1]
  }

  lemma ConcatNext<T>(batches: seq<seq<T>>, batch: seq<T>)
    ensures Concat(batches + [batch]) == Concat(batches) + batch
  {
    assert (batches + [batch])[..|batches|] == batches;
  }

  /** What can happen to the logger: a call of `Log`, or one turn of the loop in `Run`. */
  datatype Event<T> = Enqueue(entry: T) | Receive | Tick | Cancel

  /** `handed` is what `InsertBatch` was called with; `offered` and `dropped` are history. */
  datatype State<T> = State(
    batchSize: nat, channel: seq<T>, batch: seq<T>, stopped: bool,
    handed: seq<seq<T>>, offered: seq<T>, dropped: seq<T>)

  function Flush<T>(s: State<T>): State<T> {
    if s.batch == [] then s else s.(handed := s.handed + [s.batch], batch := [])
  }

  function Next<T>(s: State<T>, e: Event<T>): State<T> {
    match e
    case Enqueue(x) =>
      var t := s.(offered := s.offered + [x]);
      if |s.channel| < s.batchSize * CHANNEL_BATCHES then t.(channel := s.channel + [x])
      else t.(dropped := s.dropped + [x])
    case Receive =>
      if s.stopped || s.channel == [] then s
      else
        var t := s.(batch := s.batch + [s.channel[0]], channel := s.channel[1..]);
        if |t.batch| >= s.batchSize then Flush(t) else t
    case Tick => if s.stopped then s else Flush(s)
    case Cancel => if s.stopped then s else Flush(s).(stopped := true)
  }

  function Exec<T>(s: State<T>, evs: seq<Event<T>>): State<T>
    decreases |evs|
  {
    if evs == [] then s else Exec(Next(s, evs[0]), evs[1..])
  }

  function Start<T>(batchSize: int): State<T> {
    State(if batchSize < 1 then 1 else batchSize, [], [], false, [], [], [])
  }

  // ----- what every run keeps -----

  /** Accepted entries, oldest first: handed off, in the batch, in the channel. */
  function Kept<T>(s: State<T>): seq<T> {
    Concat(s.handed) + s.batch + s.channel
  }

  /** `kept` and `dropped` are an ordered split of `offered`. */
  ghost predicate Splits<T>(offered: seq<T>, kept: seq<T>, dropped: seq<T>)
    decreases |offered|
  {
    if offered == [] then kept == [] && dropped == []
    else
      var front, last := offered[..|offered| - 1], offered[|offered| - 1];
      || (kept != [] && kept[|kept| - 1] == last && Splits(front, kept[..|kept| - 1], dropped))
      || (dropped != [] && dropped[|dropped| - 1] == last && Splits(front, kept, dropped[..|dropped| - 1]))
  }

  ghost predicate Sound<T>(s: State<T>) {
    && s.batchSize >= 1
    && Splits(s.offered, Kept(s), s.dropped)
    && |s.batch| < s.batchSize
    && |s.channel| <= s.batchSize * CHANNEL_BATCHES
    && (s.stopped ==> s.batch == [])
    && (forall k :: 0 <= k < |s.handed| ==> 1 <= |s.handed[k]| <= s.batchSize)
  }

  lemma SplitsNext<T>(offered: seq<T>, kept: seq<T>, dropped: seq<T>, x: T)
    requires Splits(offered, kept, dropped)
    ensures Splits(offered + [x], kept + [x], dropped)
    ensures Splits(offered + [x], kept, dropped + [x])
  {
    assert (offered + [x])[..|offered|] == offered;
    assert (kept + [x])[..|kept|] == kept;
    assert (dropped + [x])[..|dropped|] == dropped;
  }

  /** Flushing keeps everything kept; it is due when the batch has reached its size. */
  lemma FlushSound<T>(s: State<T>)
    requires s.batchSize >= 1 && Splits(s.offered, Kept(s), s.dropped) && |s.batch| <= s.batchSize
    requires |s.channel| <= s.batchSize * CHANNEL_BATCHES && !s.stopped
    requires forall k :: 0 <= k < |s.handed| ==> 1 <= |s.handed[k]| <= s.batchSize
    ensures Kept(Flush(s)) == Kept(s) && Sound(Flush(s)) && Flush(s).batch == []
  {
    if s.batch != [] {
      ConcatNext(s.handed, s.batch);
      assert Kept(Flush(s)) == Kept(s);
    }
  }

  lemma KeptEnqueue<T>(s: State<T>, x: T)
    ensures Kept(Next(s, Enqueue(x))) ==
      if |s.channel| < s.batchSize * CHANNEL_BATCHES then Kept(s) + [x] else Kept(s)
  {
    if |s.channel| < s.batchSize * CHANNEL_BATCHES {
      assert Kept(Next(s, Enqueue(x))) == Kept(s) + [x];
    } else {
      assert Kept(Next(s, Enqueue(x))) == Kept(s);
    }
  }

  lemma EnqueueSound<T>(s: State<T>, x: T)
    requires Sound(s)
    ensures Sound(Next(s, Enqueue(x)))
  {
    SplitsNext(s.offered, Kept(s), s.dropped, x);
    KeptEnqueue(s, x);
  }

  lemma ReceiveSound<T>(s: State<T>)
    requires Sound(s)
    ensures Sound(Next(s, Receive))
  {
    if !s.stopped && s.channel != [] {
      var t := s.(batch := s.batch + [s.channel[0]], channel := s.channel[1..]);
      assert s.channel == [s.channel[0]] + s.channel[1..];
      assert Kept(t) == Kept(s);
      if |t.batch| >= s.batchSize {
        FlushSound(t);
      }
    }
  }

  lemma TickSound<T>(s: State<T>)
    requires Sound(s)
    ensures Sound(Next(s, Tick)) && Sound(Next(s, Cancel))
  {
    if !s.stopped {
      FlushSound(s);
      assert Kept(Next(s, Cancel)) == Kept(Flush(s));
    }
  }

  lemma NextKeeps<T>(s: State<T>, e: Event<T>)
    ensures Next(s, e).batchSize == s.batchSize
    ensures !e.Enqueue? ==> Next(s, e).dropped == s.dropped
  {
  }

  lemma SoundNext<T>(s: State<T>, e: Event<T>)
    requires Sound(s)
    ensures Sound(Next(s, e)) && Next(s, e).batchSize == s.batchSize
    ensures |Next(s, e).dropped| > |s.dropped| ==> e.Enqueue? && |s.channel| == s.batchSize * 20
  {
    NextKeeps(s, e);
    match e
    case Enqueue(x) => EnqueueSound(s, x);
    case Receive => ReceiveSound(s);
    case Tick => TickSound(s);
    case Cancel => TickSound(s);
  }

  // ----- what one turn does -----

  /** A tick hands off the whole batch, however short, and nothing else happens. */
  lemma TickHandsOff<T>(s: State<T>)
    requires !s.stopped
    ensures var t := Next(s, Tick);
            && t.batch == []
            && t.handed == (if s.batch == [] then s.handed else s.handed + [s.batch])
            && t.channel == s.channel && t.offered == s.offered && t.dropped == s.dropped && !t.stopped
  {
  }

  /** A cancellation does what a tick does, and stops the loop; the channel is not emptied. */
  lemma CancelHandsOffAndStops<T>(s: State<T>)
    requires !s.stopped
    ensures Next(s, Cancel) == Next(s, Tick).(stopped := true)
  {
  }

  /** A receive takes the oldest entry of the channel into the batch, and hands the batch off
      as soon as it holds `batchSize` entries. */
  lemma ReceiveTakesTheOldest<T>(s: State<T>)
    requires Sound(s) && !s.stopped && s.channel != []
    ensures var t, more := Next(s, Receive), s.batch + [s.channel[0]];
            && s.channel == [s.channel[0]] + t.channel
            && t.offered == s.offered && t.dropped == s.dropped && !t.stopped
            && (|more| < s.batchSize ==> t.batch == more && t.handed == s.handed)
            && (|more| == s.batchSize ==> t.batch == [] && t.handed == s.handed + [more])
  {
  }

  /** Conservation, over every run: what was offered is, in order, what was handed off, what is
      in the batch, what is in the channel, and what was dropped; no batch is empty or too
      long, and between turns fewer than 21 batches are pending. */
  lemma {:induction false} LoggerConserves<T>(s: State<T>, evs: seq<Event<T>>)
    requires Sound(s)
    ensures Sound(Exec(s, evs)) && Exec(s, evs).batchSize == s.batchSize
    ensures |Exec(s, evs).batch| + |Exec(s, evs).channel| <= s.batchSize * 21 - 1
    decreases |evs|
  {
    if evs != [] {
      SoundNext(s, evs[0]);
      LoggerConserves(Next(s, evs[0]), evs[1..]);
    }
  }

  /** The entries the run's calls of `Log` bring, read off the events alone. */
  function Offers<T>(evs: seq<Event<T>>): seq<T> {
    if evs == [] then [] else (if evs[0].Enqueue? then [evs[0].entry] else []) + Offers(evs[1..])
  }

  /** Nothing that `Log` was called with is forgotten: it is kept or counted as dropped. */
  lemma {:induction false} EveryEntryIsOffered<T>(s: State<T>, evs: seq<Event<T>>)
    ensures Exec(s, evs).offered == s.offered + Offers(evs)
    decreases |evs|
  {
    if evs != [] {
      EveryEntryIsOffered(Next(s, evs[0]), evs[1..]);
    }
  }

  lemma {:induction false} ConcatMonotone<T>(a: seq<seq<T>>, b: seq<seq<T>>)
    requires a <= b
    ensures Concat(a) <= Concat(b)
    decreases |b|
  {
    if a != b {
      ConcatMonotone(a, b[..|b| - 1]);
    }
  }

  lemma {:induction false} HandedGrows<T>(s: State<T>, evs: seq<Event<T>>)
    ensures s.handed <= Exec(s, evs).handed
    decreases |evs|
  {
    if evs != [] {
      HandedGrows(Next(s, evs[0]), evs[1..]);
    }
  }

  lemma {:induction false} ExecAppend<T>(s: State<T>, a: seq<Event<T>>, b: seq<Event<T>>)
    ensures Exec(s, a + b) == Exec(Exec(s, a), b)
    decreases |a|
  {
    if a == [] {
      assert a + b == b;
    } else {
      assert (a + b)[1..] == a[1..] + b;
      ExecAppend(Next(s, a[0]), a[1..], b);
    }
  }

  /** Whatever the loop had received when a tick came has been handed off from then on, in
      order: an entry waits at most for the next tick. */
  lemma ReceivedBeforeATickIsHandedOff<T>(s: State<T>, before: seq<Event<T>>, after: seq<Event<T>>)
    requires !Exec(s, before).stopped
    ensures var t := Exec(s, before);
            Concat(t.handed) + t.batch <= Concat(Exec(s, before + [Tick] + after).handed)
  {
    var t := Exec(s, before);
    var u := Next(t, Tick);
    ExecAppend(s, before + [Tick], after);
    ExecAppend(s, before, [Tick]);
    assert Exec(t, [Tick]) == u by {
      var one: seq<Event<T>> := [Tick];
      assert one[1..] == [];
    }
    TickHandsOff(t);
    ConcatNext(t.handed, t.batch);
    assert Concat(u.handed) == Concat(t.handed) + t.batch;
    HandedGrows(u, after);
    ConcatMonotone(u.handed, Exec(u, after).handed);
  }

  /** At turn `j` of the run the loop hands off batch number `k`. */
  ghost predicate HandsOffAt<T>(s: State<T>, evs: seq<Event<T>>, j: nat, k: nat) {
    && j < |evs|
    && |Exec(s, evs[..j]).handed| == k
    && |Exec(s, evs[..j + 1]).handed| == k + 1
  }

  /** A batch shorter than `batchSize` was handed off by a tick or by the cancellation. */
  lemma {:induction false} ShortBatchesComeFromTicks<T>(s: State<T>, evs: seq<Event<T>>, k: nat) returns (j: nat)
    requires Sound(s) && |s.handed| <= k < |Exec(s, evs).handed|
    requires |Exec(s, evs).handed[k]| < s.batchSize
    ensures HandsOffAt(s, evs, j, k) && (evs[j].Tick? || evs[j].Cancel?)
    decreases |evs|
  {
    var t := Next(s, evs[0]);
    SoundNext(s, evs[0]);
    HandedGrows(t, evs[1..]);
    if k < |t.handed| {
      j := 0;
      assert evs[..0] == [] && evs[..1] == [evs[0]] && [evs[0]][1..] == [];
      assert Exec(s, evs[..1]) == t;
      if evs[0].Receive? {
        ReceiveTakesTheOldest(s);
      }
    } else {
      var i := ShortBatchesComeFromTicks(t, evs[1..], k);
      j := i + 1;
      assert evs[..j][1..] == evs[1..][..i] && evs[..j + 1][1..] == evs[1..][..i + 1];
    }
  }

  /** The configured size is used, except that anything below one entry becomes one. */
  lemma StartsEmpty<T>(batchSize: int)
    ensures var s := Start<T>(batchSize);
            && s.batchSize == (if batchSize >= 1 then batchSize else 1)
            && s.channel == [] && s.batch == [] && s.handed == [] && s.offered == [] && s.dropped == [] && !s.stopped
  {
  }

  lemma StartSound<T>(batchSize: int)
    ensures Sound(Start<T>(batchSize))
  {
  }

  /** With nothing dropped, everything offered is kept. */
  lemma {:induction false} NothingDropped<T>(offered: seq<T>, kept: seq<T>)
    requires Splits(offered, kept, [])
    ensures kept == offered
    decreases |offered|
  {
    if offered != [] {
      var n := |offered| - 1;
      NothingDropped(offered[..n], kept[..|kept| - 1]);
      assert kept == kept[..|kept| - 1] + [offered[n]];
      assert offered == offered[..n] + [offered[n]];
    }
  }

  lemma {:induction false} AfterStopNothingIsHandedOff<T>(s: State<T>, evs: seq<Event<T>>)
    requires s.stopped
    ensures Exec(s, evs).handed == s.handed && Exec(s, evs).batch == s.batch && Exec(s, evs).stopped
    ensures s.channel <= Exec(s, evs).channel
    decreases |evs|
  {
    if evs != [] {
      AfterStopNothingIsHandedOff(Next(s, evs[0]), evs[1..]);
    }
  }

  /** Shutdown without drops: everything offered was handed off except what is still in the
      channel, and that stays there for good. */
  lemma ShutdownLeavesTheChannel<T>(batchSize: int, evs: seq<Event<T>>)
    requires Exec(Start(batchSize), evs).stopped && Exec(Start(batchSize), evs).dropped == []
    ensures var s := Exec(Start(batchSize), evs); s.offered == Concat(s.handed) + s.channel
  {
    StartSound<T>(batchSize);
    LoggerConserves(Start(batchSize), evs);
    var s := Exec(Start(batchSize), evs);
    NothingDropped(s.offered, Kept(s));
    assert Concat(s.handed) + [] == Concat(s.handed);
  }

  // ----- the code -----

  lemma {:induction false} ExecOneMore<T>(s: State<T>, evs: seq<Event<T>>, n: nat)
    requires n < |evs|
    ensures Exec(s, evs[..n + 1]) == Next(Exec(s, evs[..n]), evs[n])
    decreases n
  {
    if n == 0 {
      assert evs[..1] == [evs[0]];
    } else {
      assert evs[..n + 1][1..] == evs[1..][..n];
      assert evs[..n][1..] == evs[1..][..n - 1];
      ExecOneMore(Next(s, evs[0]), evs[1..], n - 1);
    }
  }

  class AsyncAccessLogger<T> {
    const batchSize: nat
    var entries: seq<T>             // the channel
    var batch: seq<T>
    var stopped: bool               // Run has returned
    var inserted: seq<seq<T>>       // the batches the repository was given
    ghost var offered: seq<T>
    ghost var dropped: seq<T>

    constructor (batchSize: int)
      ensures Model() == Start(batchSize)
    {
      this.batchSize := if batchSize < 1 then 1 else batchSize;
      entries, batch, stopped, inserted := [], [], false, [];
      offered, dropped := [], [];
    }

    ghost function Model(): State<T>
      reads this
    {
      State(batchSize, entries, batch, stopped, inserted, offered, dropped)
    }

    /** Never blocks: a full channel drops the entry. */
    method Log(entry: T)
      modifies this
      ensures Model() == Next(old(Model()), Enqueue(entry))
    {
      offered := offered + [entry];
      if |entries| < batchSize * 20 {
        entries := entries + [entry];
      } else {
        dropped := dropped + [entry];
      }
    }

    /** A failed insert is logged; the batch is given up either way. */
    method FlushBatch()
      modifies this`batch, this`inserted
      ensures Model() == Flush(old(Model()))
    {
      if |batch| == 0 {
        return;
      }
      inserted := inserted + [batch];
      batch := [];
    }

    /** The loop, driven by what its select finds ready; calls of `Log` happen in between. It
        returns at the first cancellation. */
    method Run(ready: seq<Event<T>>) returns (turns: nat)
      requires !stopped
      modifies this
      ensures turns <= |ready| && Model() == Exec(old(Model()), ready[..turns])
      ensures stopped <==> exists k :: 0 <= k < |ready| && ready[k].Cancel?
      ensures stopped ==> 0 < turns && ready[turns - 1].Cancel?
      ensures !stopped ==> turns == |ready|
    {
      turns := 0;
      while turns < |ready|
        invariant turns <= |ready| && Model() == Exec(old(Model()), ready[..turns])
        invariant !stopped && forall k :: 0 <= k < turns ==> !ready[k].Cancel?
      {
        ExecOneMore(old(Model()), ready, turns);
        var e := ready[turns];
        turns := turns + 1;
        match e {
          case Enqueue(x) => Log(x);
          case Receive =>
            if |entries| > 0 {
              batch, entries := batch + [entries[0]], entries[1..];
              if |batch| >= batchSize {
                FlushBatch();
              }
            }
          case Tick => FlushBatch();
          case Cancel =>
            FlushBatch();
            stopped := true;
            return;
        }
      }
      assert ready[..turns] == ready;
    }
  }
}
