/** The in-process event hub (app/internal/pubsub/hub.go). */
module Hubs {

  const CAPACITY := 32

  // ----- one subscriber, as a value -----

  /** `published` are the events published while the subscription lasted. */
  datatype Feed<T> = Feed(live: bool, buffer: seq<T>, received: seq<T>, published: seq<T>)

  datatype FeedEvent<T> = Published(event: T) | Received | Cancelled

  /** A non-blocking send on a buffered channel. */
  function Offer<T>(buffer: seq<T>, e: T): seq<T> {
    if |buffer| < CAPACITY then buffer + [e] else buffer
  }

  function NextFeed<T>(f: Feed<T>, e: FeedEvent<T>): Feed<T> {
    match e
    case Published(x) => if f.live then f.(buffer := Offer(f.buffer, x), published := f.published + [x]) else f
    case Received =>
      if f.buffer == [] then f else f.(received := f.received + [f.buffer[0]], buffer := f.buffer[1..])
    case Cancelled => f.(live := false)
  }

  function ExecFeed<T>(f: Feed<T>, evs: seq<FeedEvent<T>>): Feed<T>
    decreases |evs|
  {
    if evs == [] then f else ExecFeed(NextFeed(f, evs[0]), evs[1..])
  }

  function NewFeed<T>(): Feed<T> {
    Feed(true, [], [], [])
  }

  /** `a` is what remains of `b` after leaving elements out. */
  predicate Subsequence<T(==)>(a: seq<T>, b: seq<T>)
    decreases |b|
  {
    if a == [] then true
    else if b == [] then false
    else
      || (a[|a| - 1] == b[|b| - 1] && Subsequence(a[..|a| - 1], b[..|b| - 1]))
      || Subsequence(a, b[..|b| - 1])
  }

  function Got<T>(f: Feed<T>): seq<T> {
    f.received + f.buffer
  }

  ghost predicate FeedSound<T>(f: Feed<T>) {
    |f.buffer| <= 32 && Subsequence(Got(f), f.published)
  }

  lemma SubsequenceNext<T>(a: seq<T>, b: seq<T>, x: T)
    requires Subsequence(a, b)
    ensures Subsequence(a + [x], b + [x]) && Subsequence(a, b + [x])
  {
    assert (a + [x])[..|a|] == a && (b + [x])[..|b|] == b;
  }

  lemma FeedNext<T>(f: Feed<T>, e: FeedEvent<T>)
    requires FeedSound(f)
    ensures FeedSound(NextFeed(f, e))
  {
    match e
    case Published(x) =>
      if f.live {
        SubsequenceNext(Got(f), f.published, x);
        if |f.buffer| < CAPACITY {
          assert Got(NextFeed(f, e)) == Got(f) + [x];
        }
      }
    case Received =>
      if f.buffer != [] {
        assert Got(NextFeed(f, e)) == Got(f);
      }
    case Cancelled =>
  }

  /** A receive takes the oldest buffered event, once; an empty channel gives nothing. */
  lemma ReceiveTakesTheOldest<T>(f: Feed<T>)
    ensures var g := NextFeed(f, Received);
            && g.live == f.live && g.published == f.published
            && (f.buffer == [] ==> g == f)
            && (f.buffer != [] ==> f.buffer == [f.buffer[0]] + g.buffer && g.received == f.received + [f.buffer[0]])
  {
  }

  /** A publish reaches a live subscriber with fewer than 32 events buffered, and nobody else. */
  lemma PublishReaches<T>(f: Feed<T>, x: T)
    ensures var g := NextFeed(f, Published(x));
            && g.live == f.live && g.received == f.received
            && g.buffer == (if f.live && |f.buffer| < 32 then f.buffer + [x] else f.buffer)
  {
  }

  /** The events published before the first cancel, read off the events alone. */
  function BeforeCancel<T>(evs: seq<FeedEvent<T>>): seq<T> {
    if evs == [] || evs[0].Cancelled? then []
    else (if evs[0].Published? then [evs[0].event] else []) + BeforeCancel(evs[1..])
  }

  /** A cancel ends a subscription for good: whatever follows, nothing is delivered any more;
      what was buffered can still be drained. */
  lemma {:induction false} CancelIsForGood<T>(f: Feed<T>, evs: seq<FeedEvent<T>>)
    requires !f.live
    ensures var g := ExecFeed(f, evs); !g.live && g.published == f.published && Got(g) == Got(f)
    decreases |evs|
  {
    if evs != [] {
      var g := NextFeed(f, evs[0]);
      assert Got(g) == Got(f);
      CancelIsForGood(g, evs[1..]);
    }
  }

  lemma CancelEndsTheSubscription<T>(f: Feed<T>, evs: seq<FeedEvent<T>>)
    ensures var g, h := NextFeed(f, Cancelled), ExecFeed(NextFeed(f, Cancelled), evs);
            && !g.live && g.buffer == f.buffer && g.received == f.received && g.published == f.published
            && !h.live && h.published == f.published && Got(h) == Got(f)
  {
    CancelIsForGood(NextFeed(f, Cancelled), evs);
  }

  /** `published` is what was published between subscribe and cancel, no more and no less. */
  lemma {:induction false} PublishedMeansDuringTheSubscription<T>(f: Feed<T>, evs: seq<FeedEvent<T>>)
    requires f.live
    ensures ExecFeed(f, evs).published == f.published + BeforeCancel(evs)
    decreases |evs|
  {
    if evs != [] {
      if evs[0].Cancelled? {
        CancelEndsTheSubscription(f, evs[1..]);
      } else {
        PublishedMeansDuringTheSubscription(NextFeed(f, evs[0]), evs[1..]);
      }
    }
  }

  lemma {:induction false} FeedStaysSound<T>(f: Feed<T>, evs: seq<FeedEvent<T>>)
    requires FeedSound(f)
    ensures FeedSound(ExecFeed(f, evs))
    decreases |evs|
  {
    if evs != [] {
      FeedNext(f, evs[0]);
      FeedStaysSound(NextFeed(f, evs[0]), evs[1..]);
    }
  }

  /** What a subscriber has received and has buffered is, in order, part of what was published
      between its subscribe and its cancel; at most 32 events are ever buffered. */
  lemma FeedIsInOrder<T>(evs: seq<FeedEvent<T>>)
    ensures var f := ExecFeed(NewFeed(), evs);
            Subsequence(f.received + f.buffer, BeforeCancel(evs)) && |f.buffer| <= 32
  {
    FeedStaysSound(NewFeed(), evs);
    PublishedMeansDuringTheSubscription(NewFeed(), evs);
    assert [] + BeforeCancel(evs) == BeforeCancel(evs);
  }

  /** No publish finds the buffer full. */
  predicate KeepsUp<T>(f: Feed<T>, evs: seq<FeedEvent<T>>)
    decreases |evs|
  {
    evs != [] ==>
      && (evs[0].Published? && f.live ==> |f.buffer| < 32)
      && KeepsUp(NextFeed(f, evs[0]), evs[1..])
  }

  lemma {:induction false} FeedNeverCatchesUp<T>(f: Feed<T>, evs: seq<FeedEvent<T>>)
    ensures |f.published| - |Got(f)| <= |ExecFeed(f, evs).published| - |Got(ExecFeed(f, evs))|
    decreases |evs|
  {
    if evs != [] {
      FeedNeverCatchesUp(NextFeed(f, evs[0]), evs[1..]);
    }
  }

  lemma {:induction false} KeepingUp<T>(f: Feed<T>, evs: seq<FeedEvent<T>>)
    requires FeedSound(f) && Got(f) == f.published
    ensures KeepsUp(f, evs) <==> Got(ExecFeed(f, evs)) == ExecFeed(f, evs).published
    decreases |evs|
  {
    if evs != [] {
      var g := NextFeed(f, evs[0]);
      FeedNext(f, evs[0]);
      if evs[0].Published? && f.live && |f.buffer| >= 32 {
        FeedNeverCatchesUp(g, evs[1..]);
      } else {
        assert Got(g) == g.published by {
          if evs[0].Published? && f.live {
            assert Got(g) == Got(f) + [evs[0].event];
          } else if evs[0].Received? && f.buffer != [] {
            assert Got(g) == Got(f);
          }
        }
        KeepingUp(g, evs[1..]);
      }
    }
  }

  /** A subscriber misses nothing of its subscription exactly if it never has 32 events buffered
      at a publish. */
  lemma MissesNothingExactlyIfItKeepsUp<T>(evs: seq<FeedEvent<T>>)
    ensures var f := ExecFeed(NewFeed(), evs);
            KeepsUp(NewFeed(), evs) <==> f.received + f.buffer == BeforeCancel(evs)
  {
    KeepingUp(NewFeed(), evs);
    PublishedMeansDuringTheSubscription(NewFeed(), evs);
    assert [] + BeforeCancel(evs) == BeforeCancel(evs);
  }

  // ----- the hub, as a value -----

  datatype HubEvent<T> = Subscribe | Cancel(id: nat) | Publish(event: T) | Receive(id: nat)

  /** Subscribers are numbered in the order they came. */
  function NextHub<T>(h: seq<Feed<T>>, e: HubEvent<T>): seq<Feed<T>> {
    match e
    case Subscribe => h + [NewFeed()]
    case Cancel(i) => if i < |h| then h[i := NextFeed(h[i], Cancelled)] else h
    case Publish(x) => seq(|h|, i requires 0 <= i < |h| => NextFeed(h[i], Published(x)))
    case Receive(i) => if i < |h| then h[i := NextFeed(h[i], Received)] else h
  }

  function ExecHub<T>(h: seq<Feed<T>>, evs: seq<HubEvent<T>>): seq<Feed<T>>
    decreases |evs|
  {
    if evs == [] then h else ExecHub(NextHub(h, evs[0]), evs[1..])
  }

  /** What concerns subscriber `i`: every publish, its own receives and its own cancels. */
  function Concerns<T>(evs: seq<HubEvent<T>>, i: nat): seq<FeedEvent<T>> {
    if evs == [] then []
    else
      var rest := Concerns(evs[1..], i);
      match evs[0]
      case Publish(x) => [Published(x)] + rest
      case Cancel(j) => if i == j then [Cancelled] + rest else rest
      case Receive(j) => if i == j then [Received] + rest else rest
      case Subscribe => rest
  }

  /** Independence: a subscriber's feed is a function of the publishes and of its own actions;
      no other subscriber's backlog, arrival or departure can change it. */
  lemma {:induction false} FeedsAreIndependent<T>(h: seq<Feed<T>>, evs: seq<HubEvent<T>>, i: nat)
    requires i < |h|
    ensures i < |ExecHub(h, evs)| && ExecHub(h, evs)[i] == ExecFeed(h[i], Concerns(evs, i))
    decreases |evs|
  {
    if evs != [] {
      FeedsAreIndependent(NextHub(h, evs[0]), evs[1..], i);
      var rest := Concerns(evs[1..], i);
      assert forall e: FeedEvent<T> :: ([e] + rest)[1..] == rest;
    }
  }

  /** What is published until subscriber `i` cancels, read off the hub's events alone. */
  function PublishedUntilCancel<T>(evs: seq<HubEvent<T>>, i: nat): seq<T> {
    if evs == [] || evs[0] == HubEvent.Cancel(i) then []
    else (if evs[0].Publish? then [evs[0].event] else []) + PublishedUntilCancel(evs[1..], i)
  }

  lemma {:induction false} ConcernsUntilCancel<T>(evs: seq<HubEvent<T>>, i: nat)
    ensures BeforeCancel(Concerns(evs, i)) == PublishedUntilCancel(evs, i)
  {
    if evs != [] {
      ConcernsUntilCancel(evs[1..], i);
      var rest := Concerns(evs[1..], i);
      assert forall e: FeedEvent<T> :: ([e] + rest)[1..] == rest;
    }
  }

  /** Delivery, over every run of the hub: the subscriber that comes now gets, in order, part of
      what is published from now until it cancels, whatever all other subscribers do, and all of
      it if it keeps up. */
  lemma EachSubscriberGetsItsOwn<T>(h: seq<Feed<T>>, evs: seq<HubEvent<T>>)
    ensures var i, all := |h|, ExecHub(NextHub(h, HubEvent.Subscribe), evs);
            && i < |all|
            && Subsequence(all[i].received + all[i].buffer, PublishedUntilCancel(evs, i))
            && (KeepsUp(NewFeed(), Concerns(evs, i)) <==>
                  all[i].received + all[i].buffer == PublishedUntilCancel(evs, i))
  {
    var mine := Concerns(evs, |h|);
    FeedsAreIndependent(NextHub(h, HubEvent.Subscribe), evs, |h|);
    ConcernsUntilCancel(evs, |h|);
    FeedIsInOrder(mine);
    MissesNothingExactlyIfItKeepsUp(mine);
  }

  // ----- the code -----

  class Chan<T> {
    var buffer: seq<T>
    var closed: bool
    ghost var received: seq<T>
    ghost var published: seq<T>

    constructor ()
      ensures Contents() == NewFeed()
    {
      buffer, closed := [], false;
      received, published := [], [];
    }

    ghost function Contents(): Feed<T>
      reads this
    {
      Feed(!closed, buffer, received, published)
    }

    /** `select { case ch <- e: default: }`; sending on a closed channel would panic. */
    method TrySend(e: T)
      requires !closed
      modifies this
      ensures Contents() == NextFeed(old(Contents()), Published(e))
    {
      if |buffer| < 32 {
        buffer := buffer + [e];
      }
      published := published + [e];
    }

    /** The consumer's side; a closed channel can still be drained. */
    method Take() returns (e: T)
      requires buffer != []
      modifies this
      ensures e == old(buffer)[0] && Contents() == NextFeed(old(Contents()), Received)
    {
      e := buffer[0];
      received, buffer := received + [e], buffer[1..];
    }

    /** Closing a closed channel would panic. */
    method Close()
      requires !closed
      modifies this
      ensures Contents() == NextFeed(old(Contents()), Cancelled)
    {
      closed := true;
    }
  }

  class Hub<T> {
    var subs: set<Chan<T>>
    ghost var all: seq<Chan<T>>        // every channel ever handed out, in order
    ghost var model: seq<Feed<T>>

    /** The registered channels are the open ones, and `model` is what the channels hold. */
    ghost predicate Valid()
      reads this, all
    {
      && (forall i, j :: 0 <= i < j < |all| ==> all[i] != all[j])
      && (forall ch :: ch in subs ==> ch in all && !ch.closed)
      && (forall i :: 0 <= i < |all| && !all[i].closed ==> all[i] in subs)
      && |model| == |all|
      && (forall i :: 0 <= i < |all| ==> model[i] == all[i].Contents())
    }

    constructor ()
      ensures Valid() && model == []
    {
      subs, all, model := {}, [], [];
    }

    method Subscribe() returns (ch: Chan<T>)
      requires Valid()
      modifies this
      ensures Valid() && fresh(ch) && all == old(all) + [ch]
      ensures model == NextHub(old(model), HubEvent.Subscribe)
      ensures subs == old(subs) + {ch} && !ch.closed && ch.buffer == []
    {
      ch := new Chan();
      subs := subs + {ch};
      all, model := all + [ch], model + [NewFeed()];
    }

    /** The returned cancel function: deletes and closes the channel the first time and does
        nothing after. */
    method Cancel(ch: Chan<T>, ghost i: nat)
      requires Valid() && i < |all| && all[i] == ch
      modifies this, ch
      ensures Valid() && all == old(all)
      ensures model == NextHub(old(model), HubEvent.Cancel(i))
      ensures ch !in subs && ch.closed && ch.buffer == old(ch.buffer)
      ensures subs == old(subs) - {ch}
    {
      if ch in subs {
        subs := subs - {ch};
        ch.Close();
      }
      model := NextHub(model, HubEvent.Cancel(i));
    }

    /** A consumer's read from its channel. */
    method Receive(ch: Chan<T>, ghost i: nat) returns (e: T)
      requires Valid() && i < |all| && all[i] == ch && ch.buffer != []
      modifies this`model, ch
      ensures Valid() && all == old(all) && subs == old(subs)
      ensures e == old(ch.buffer)[0] && model == NextHub(old(model), HubEvent.Receive(i))
      ensures ch.buffer == old(ch.buffer)[1..]
    {
      e := ch.Take();
      model := NextHub(model, HubEvent.Receive(i));
    }

    /** Every registered channel is offered the event once, in an order Go chooses; nobody else
        is touched, and no closed channel is sent to. */
    method Publish(e: T)
      requires Valid()
      modifies this`model, subs
      ensures Valid() && all == old(all) && subs == old(subs)
      ensures model == NextHub(old(model), HubEvent.Publish(e))
      ensures forall ch :: ch in all ==>
        ch.buffer == if ch in subs && |old(ch.buffer)| < 32 then old(ch.buffer) + [e] else old(ch.buffer)
    {
      var rest := subs;
      while rest != {}
        invariant rest <= subs && model == old(model)
        invariant forall ch :: ch in all && (ch in rest || ch !in subs) ==> ch.Contents() == old(ch.Contents())
        invariant forall ch :: ch in subs - rest ==> ch.Contents() == NextFeed(old(ch.Contents()), Published(e))
        decreases rest
      {
        var ch :| ch in rest;
        ch.TrySend(e);
        rest := rest - {ch};
      }
      model := NextHub(model, HubEvent.Publish(e));
      forall i | 0 <= i < |all| ensures model[i] == all[i].Contents() {
        assert all[i] in all;
      }
    }
  }
}
