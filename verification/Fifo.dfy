/** The usage queue as a plain first-in first-out queue whose front expires. */
module Fifo {

  type Time = int

  datatype Item = Item(enqueuedAt: Time, payload: string)

  /** How an item left the queue, and the expiry limit in force when it did. */
  datatype Fate = Popped | Expired | Cleared

  datatype Departure = Departure(item: Item, fate: Fate, cutoff: Time)

  datatype Queue = Queue(live: seq<Item>, arrived: seq<Item>, departed: seq<Departure>)

  const NEW := Queue([], [], [])

  datatype Event =
    | Enqueue(payload: string, now: Time, window: nat)
    | Pop(count: nat, now: Time, window: nat)
    | Clear(now: Time)

  /** How many items at the front are older than `cutoff`, up to the first that is not. */
  function ExpiredPrefix(live: seq<Item>, cutoff: Time): (n: nat)
    ensures n <= |live|
    ensures forall i :: 0 <= i < n ==> live[i].enqueuedAt < cutoff
    ensures n < |live| ==> live[n].enqueuedAt >= cutoff
  {
    if live == [] || live[0].enqueuedAt >= cutoff then 0 else 1 + ExpiredPrefix(live[1..], cutoff)
  }

  function Marked(items: seq<Item>, fate: Fate, cutoff: Time): (ds: seq<Departure>)
    ensures |ds| == |items|
    ensures forall i :: 0 <= i < |ds| ==> ds[i] == Departure(items[i], fate, cutoff)
  {
    if items == [] then [] else Marked(items[..|items| - 1], fate, cutoff) + [Departure(items[|items| - 1], fate, cutoff)]
  }

  /** The first `n` live items leave with the given fate. */
  function Leave(q: Queue, n: nat, fate: Fate, cutoff: Time): Queue
    requires n <= |q.live|
  {
    q.(live := q.live[n..], departed := q.departed + Marked(q.live[..n], fate, cutoff))
  }

  function Expire(q: Queue, cutoff: Time): Queue {
    Leave(q, ExpiredPrefix(q.live, cutoff), Expired, cutoff)
  }

  /** How many items a pop of up to `count` hands out. */
  function Take(q: Queue, count: nat): (n: nat)
    ensures n <= |q.live|
  {
    if count < |q.live| then count else |q.live|
  }

  function AfterEnqueue(q: Queue, payload: string, now: Time, window: nat): Queue {
    var kept := Expire(q, now - window);
    kept.(live := kept.live + [Item(now, payload)], arrived := kept.arrived + [Item(now, payload)])
  }

  /** Up to `count` items leave as popped. */
  function Popping(kept: Queue, count: nat, cutoff: Time): Queue {
    Leave(kept, Take(kept, count), Popped, cutoff)
  }

  function Handed(kept: Queue, count: nat): seq<string> {
    Payloads(kept.live[..Take(kept, count)])
  }

  function AfterPop(q: Queue, count: nat, now: Time, window: nat): Queue {
    Popping(Expire(q, now - window), count, now - window)
  }

  function AfterClear(q: Queue, now: Time): Queue {
    Leave(q, |q.live|, Cleared, now)
  }

  function Step(q: Queue, e: Event): Queue {
    match e
    case Enqueue(payload, now, window) => AfterEnqueue(q, payload, now, window)
    case Pop(count, now, window) => AfterPop(q, count, now, window)
    case Clear(now) => AfterClear(q, now)
  }

  /** What one pop hands out. */
  function PopResult(q: Queue, count: nat, now: Time, window: nat): seq<string> {
    Handed(Expire(q, now - window), count)
  }

  function Payloads(items: seq<Item>): (ps: seq<string>)
    ensures |ps| == |items|
    ensures forall i :: 0 <= i < |ps| ==> ps[i] == items[i].payload
  {
    if items == [] then [] else Payloads(items[..|items| - 1]) + [items[|items| - 1].payload]
  }

  function Run(events: seq<Event>): Queue {
    if events == [] then NEW else Step(Run(events[..|events| - 1]), events[|events| - 1])
  }

  /** Everything the pops of a run handed out, in order. */
  function Delivered(events: seq<Event>): seq<string> {
    if events == [] then []
    else
      var prior := events[..|events| - 1];
      var e := events[|events| - 1];
      Delivered(prior) + (if e.Pop? then PopResult(Run(prior), e.count, e.now, e.window) else [])
  }

  function Departed(ds: seq<Departure>): (items: seq<Item>)
    ensures |items| == |ds|
    ensures forall i :: 0 <= i < |items| ==> items[i] == ds[i].item
  {
    if ds == [] then [] else Departed(ds[..|ds| - 1]) + [ds[|ds| - 1].item]
  }

  /** The payloads among the first `n` departures that were handed out. */
  function PoppedUpTo(ds: seq<Departure>, n: nat): seq<string>
    requires n <= |ds|
  {
    if n == 0 then []
    else PoppedUpTo(ds, n - 1) + (if ds[n - 1].fate.Popped? then [ds[n - 1].item.payload] else [])
  }

  function PoppedOf(ds: seq<Departure>): seq<string> {
    PoppedUpTo(ds, |ds|)
  }

  // ----- how much a pop hands out

  /** A pop hands out the oldest unexpired payloads: as many as asked for, or all there are. */
  lemma PopCount(q: Queue, count: nat, now: Time, window: nat)
    ensures var kept := Expire(q, now - window).live; var out := PopResult(q, count, now, window);
      && |out| == (if count < |kept| then count else |kept|)
      && (forall i :: 0 <= i < |out| ==> out[i] == kept[i].payload)
      && AfterPop(q, count, now, window).live == kept[|out|..]
  {
  }

  /** A pop that hands out less than asked for leaves nothing behind. */
  lemma PopDrains(q: Queue, count: nat, now: Time, window: nat, out: seq<string>, after: Queue)
    requires out == PopResult(q, count, now, window) && after == Step(q, Pop(count, now, window))
    ensures |out| <= count && (|out| < count ==> after.live == [])
  {
    PopCount(q, count, now, window);
  }

  // ----- conservation

  /** Arrivals are the departures, in order, followed by what is still queued. */
  ghost predicate Conserved(q: Queue) {
    q.arrived == Departed(q.departed) + q.live
  }

  lemma DepartedConcat(a: seq<Departure>, b: seq<Departure>)
    ensures Departed(a + b) == Departed(a) + Departed(b)
  {
  }

  lemma DepartedMarked(items: seq<Item>, fate: Fate, cutoff: Time)
    ensures Departed(Marked(items, fate, cutoff)) == items
  {
  }

  lemma SplitAt(items: seq<Item>, n: nat)
    requires n <= |items|
    ensures items == items[..n] + items[n..]
  {
  }

  lemma LeaveConserves(q: Queue, n: nat, fate: Fate, cutoff: Time)
    requires Conserved(q) && n <= |q.live|
    ensures Conserved(Leave(q, n, fate, cutoff))
  {
    DepartedConcat(q.departed, Marked(q.live[..n], fate, cutoff));
    DepartedMarked(q.live[..n], fate, cutoff);
    SplitAt(q.live, n);
    var d := Departed(q.departed);
    assert d + (q.live[..n] + q.live[n..]) == (d + q.live[..n]) + q.live[n..];
  }

  lemma ArriveConserves(q: Queue, item: Item)
    requires Conserved(q)
    ensures Conserved(q.(live := q.live + [item], arrived := q.arrived + [item]))
  {
    assert Departed(q.departed) + (q.live + [item]) == (Departed(q.departed) + q.live) + [item];
  }

  lemma EnqueueConserves(q: Queue, after: Queue, payload: string, now: Time, window: nat)
    requires Conserved(q) && after == AfterEnqueue(q, payload, now, window)
    ensures Conserved(after)
  {
    ExpireConserves(q, Expire(q, now - window), now - window);
    ArriveConserves(Expire(q, now - window), Item(now, payload));
  }

  lemma ExpireConserves(q: Queue, kept: Queue, cutoff: Time)
    requires Conserved(q) && kept == Expire(q, cutoff)
    ensures Conserved(kept)
  {
    LeaveConserves(q, ExpiredPrefix(q.live, cutoff), Expired, cutoff);
  }

  lemma PopConserves(q: Queue, kept: Queue, after: Queue, count: nat, cutoff: Time)
    requires Conserved(q) && kept == Expire(q, cutoff) && after == Popping(kept, count, cutoff)
    ensures Conserved(after)
  {
    ExpireConserves(q, kept, cutoff);
    TakeConserves(kept, after, count, cutoff);
  }

  lemma TakeConserves(kept: Queue, after: Queue, count: nat, cutoff: Time)
    requires Conserved(kept) && after == Popping(kept, count, cutoff)
    ensures Conserved(after)
  {
    LeaveConserves(kept, Take(kept, count), Popped, cutoff);
  }

  lemma PopStepConserves(q: Queue, after: Queue, count: nat, now: Time, window: nat)
    requires Conserved(q) && after == AfterPop(q, count, now, window)
    ensures Conserved(after)
  {
    PopConserves(q, Expire(q, now - window), after, count, now - window);
  }

  lemma StepConserves(q: Queue, e: Event)
    requires Conserved(q)
    ensures Conserved(Step(q, e))
  {
    match e
    case Enqueue(payload, now, window) => EnqueueConserves(q, Step(q, e), payload, now, window);
    case Pop(count, now, window) => PopStepConserves(q, Step(q, e), count, now, window);
    case Clear(now) => LeaveConserves(q, |q.live|, Cleared, now);
  }

  /** In every run each arrival leaves at most once, in order of arrival, and nothing else ever leaves. */
  lemma {:induction false} RunConserves(events: seq<Event>)
    ensures Conserved(Run(events))
  {
    if events != [] {
      RunConserves(events[..|events| - 1]);
      StepConserves(Run(events[..|events| - 1]), events[|events| - 1]);
    }
  }

  lemma {:induction false} PoppedPrefix(ds: seq<Departure>, more: seq<Departure>, n: nat)
    requires n <= |ds|
    ensures PoppedUpTo(ds + more, n) == PoppedUpTo(ds, n)
  {
    if n > 0 {
      PoppedPrefix(ds, more, n - 1);
    }
  }

  /** Appending departures of one fate hands out their payloads, or nothing. */
  lemma {:induction false} PoppedOfMarked(ds: seq<Departure>, items: seq<Item>, fate: Fate, cutoff: Time, n: nat)
    requires n <= |items|
    ensures PoppedUpTo(ds + Marked(items, fate, cutoff), |ds| + n)
         == PoppedOf(ds) + (if fate.Popped? then Payloads(items)[..n] else [])
  {
    var all := ds + Marked(items, fate, cutoff);
    if n == 0 {
      PoppedPrefix(ds, Marked(items, fate, cutoff), |ds|);
    } else {
      PoppedOfMarked(ds, items, fate, cutoff, n - 1);
      assert all[|ds| + n - 1] == Departure(items[n - 1], fate, cutoff);
      var ps := Payloads(items);
      assert ps[..n] == ps[..n - 1] + [items[n - 1].payload];
    }
  }

  lemma LeaveDelivers(q: Queue, n: nat, fate: Fate, cutoff: Time)
    requires n <= |q.live|
    ensures PoppedOf(Leave(q, n, fate, cutoff).departed)
         == PoppedOf(q.departed) + (if fate.Popped? then Payloads(q.live[..n]) else [])
  {
    PoppedOfMarked(q.departed, q.live[..n], fate, cutoff, n);
  }

  lemma ExpireDelivers(q: Queue, cutoff: Time)
    ensures PoppedOf(Expire(q, cutoff).departed) == PoppedOf(q.departed)
  {
    LeaveDelivers(q, ExpiredPrefix(q.live, cutoff), Expired, cutoff);
  }

  lemma EnqueueDelivers(q: Queue, payload: string, now: Time, window: nat)
    ensures PoppedOf(AfterEnqueue(q, payload, now, window).departed) == PoppedOf(q.departed)
  {
    ExpireDelivers(q, now - window);
  }

  lemma PopDelivers(q: Queue, count: nat, now: Time, window: nat)
    ensures PoppedOf(AfterPop(q, count, now, window).departed) == PoppedOf(q.departed) + PopResult(q, count, now, window)
  {
    ExpireDelivers(q, now - window);
    TakeDelivers(Expire(q, now - window), count, now - window);
  }

  lemma TakeDelivers(kept: Queue, count: nat, cutoff: Time)
    ensures PoppedOf(Leave(kept, Take(kept, count), Popped, cutoff).departed)
         == PoppedOf(kept.departed) + Payloads(kept.live[..Take(kept, count)])
  {
    LeaveDelivers(kept, Take(kept, count), Popped, cutoff);
  }

  lemma StepDelivers(q: Queue, e: Event)
    ensures PoppedOf(Step(q, e).departed)
         == PoppedOf(q.departed) + (if e.Pop? then PopResult(q, e.count, e.now, e.window) else [])
  {
    match e
    case Enqueue(payload, now, window) => EnqueueDelivers(q, payload, now, window);
    case Pop(count, now, window) => PopDelivers(q, count, now, window);
    case Clear(now) => LeaveDelivers(q, |q.live|, Cleared, now);
  }

  /** What the pops hand out over a run is exactly the popped part of the departures, once each and in order. */
  lemma {:induction false} DeliveredArePopped(events: seq<Event>)
    ensures Delivered(events) == PoppedOf(Run(events).departed)
  {
    if events != [] {
      DeliveredArePopped(events[..|events| - 1]);
      StepDelivers(Run(events[..|events| - 1]), events[|events| - 1]);
    }
  }

  // ----- expiry, with a clock that does not run backwards

  ghost predicate Sorted(items: seq<Item>) {
    forall i, j :: 0 <= i <= j < |items| ==> items[i].enqueuedAt <= items[j].enqueuedAt
  }

  /** The clock readings of a run do not decrease. */
  ghost predicate Monotone(events: seq<Event>) {
    forall i, j :: 0 <= i <= j < |events| ==> events[i].now <= events[j].now
  }

  ghost predicate ArrivedBy(q: Queue, now: Time) {
    forall i :: 0 <= i < |q.live| ==> q.live[i].enqueuedAt <= now
  }

  /** Items expire only when too old, and are handed out only when not. */
  ghost predicate FatesJust(q: Queue) {
    forall i :: 0 <= i < |q.departed| ==>
      && (q.departed[i].fate.Expired? ==> q.departed[i].item.enqueuedAt < q.departed[i].cutoff)
      && (q.departed[i].fate.Popped? ==> q.departed[i].item.enqueuedAt >= q.departed[i].cutoff)
  }

  ghost predicate Timely(q: Queue, now: Time) {
    Sorted(q.live) && ArrivedBy(q, now) && FatesJust(q)
  }

  ghost predicate Young(items: seq<Item>, cutoff: Time) {
    forall i :: 0 <= i < |items| ==> items[i].enqueuedAt >= cutoff
  }

  lemma ExpireTimely(q: Queue, s: Queue, now: Time, cutoff: Time)
    requires Timely(q, now) && s == Expire(q, cutoff)
    ensures Timely(s, now) && Young(s.live, cutoff)
  {
    var n := ExpiredPrefix(q.live, cutoff);
    assert forall i :: 0 <= i < |s.live| ==> s.live[i] == q.live[n + i];
    forall i | 0 <= i < |s.departed|
      ensures s.departed[i].fate.Expired? ==> s.departed[i].item.enqueuedAt < s.departed[i].cutoff
      ensures s.departed[i].fate.Popped? ==> s.departed[i].item.enqueuedAt >= s.departed[i].cutoff
    {
      if i < |q.departed| {
        assert s.departed[i] == q.departed[i];
      } else {
        assert s.departed[i] == Departure(q.live[i - |q.departed|], Expired, cutoff);
      }
    }
  }

  lemma PopTimely(q: Queue, now: Time, n: nat, cutoff: Time)
    requires Timely(q, now) && n <= |q.live| && Young(q.live, cutoff)
    ensures Timely(Leave(q, n, Popped, cutoff), now)
    ensures Young(Leave(q, n, Popped, cutoff).live, cutoff)
  {
    var s := Leave(q, n, Popped, cutoff);
    assert forall i :: 0 <= i < |s.live| ==> s.live[i] == q.live[n + i];
    forall i | 0 <= i < |s.departed|
      ensures s.departed[i].fate.Expired? ==> s.departed[i].item.enqueuedAt < s.departed[i].cutoff
      ensures s.departed[i].fate.Popped? ==> s.departed[i].item.enqueuedAt >= s.departed[i].cutoff
    {
      if i < |q.departed| {
        assert s.departed[i] == q.departed[i];
      } else {
        assert s.departed[i] == Departure(q.live[i - |q.departed|], Popped, cutoff);
      }
    }
  }

  lemma EnqueueTimely(q: Queue, payload: string, now: Time, window: nat)
    requires Timely(q, now)
    ensures Timely(AfterEnqueue(q, payload, now, window), now)
    ensures Young(AfterEnqueue(q, payload, now, window).live, now - window)
  {
    ExpireTimely(q, Expire(q, now - window), now, now - window);
    ArriveTimely(Expire(q, now - window), AfterEnqueue(q, payload, now, window), Item(now, payload), now, now - window);
  }

  lemma ArriveTimely(q: Queue, after: Queue, item: Item, now: Time, cutoff: Time)
    requires Timely(q, now) && Young(q.live, cutoff) && item.enqueuedAt == now >= cutoff
    requires after == q.(live := q.live + [item], arrived := q.arrived + [item])
    ensures Timely(after, now) && Young(after.live, cutoff)
  {
  }

  lemma ClearTimely(q: Queue, now: Time)
    requires Timely(q, now)
    ensures Timely(AfterClear(q, now), now)
  {
    var s := AfterClear(q, now);
    assert forall i :: 0 <= i < |q.departed| ==> s.departed[i] == q.departed[i];
  }

  lemma AfterPopTimely(q: Queue, count: nat, now: Time, window: nat)
    requires Timely(q, now)
    ensures Timely(AfterPop(q, count, now, window), now)
    ensures Young(AfterPop(q, count, now, window).live, now - window)
  {
    ExpireTimely(q, Expire(q, now - window), now, now - window);
    TakeTimely(Expire(q, now - window), AfterPop(q, count, now, window), count, now, now - window);
  }

  lemma TakeTimely(kept: Queue, after: Queue, count: nat, now: Time, cutoff: Time)
    requires Timely(kept, now) && Young(kept.live, cutoff) && after == Popping(kept, count, cutoff)
    ensures Timely(after, now) && Young(after.live, cutoff)
  {
    PopTimely(kept, now, Take(kept, count), cutoff);
  }

  lemma StepTimely(q: Queue, e: Event)
    requires Timely(q, e.now)
    ensures Timely(Step(q, e), e.now)
    ensures !e.Clear? ==> Young(Step(q, e).live, e.now - e.window)
  {
    match e
    case Enqueue(payload, now, window) => EnqueueTimely(q, payload, now, window);
    case Pop(count, now, window) => AfterPopTimely(q, count, now, window);
    case Clear(now) => ClearTimely(q, now);
  }

  /**
   * With a clock that does not run backwards, a run expires exactly the items too old at the time,
   * hands out only items young enough, and leaves none too old behind.
   */
  lemma {:induction false} RunTimely(events: seq<Event>, now: Time)
    requires Monotone(events)
    requires events != [] ==> events[|events| - 1].now <= now
    ensures Timely(Run(events), now)
    ensures events != [] && !events[|events| - 1].Clear? ==>
      Young(Run(events).live, events[|events| - 1].now - events[|events| - 1].window)
  {
    if events != [] {
      var prior := events[..|events| - 1];
      var e := events[|events| - 1];
      assert prior != [] ==> prior[|prior| - 1] == events[|events| - 2];
      RunTimely(prior, e.now);
      StepTimely(Run(prior), e);
    }
  }
}
