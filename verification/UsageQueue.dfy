/** The usage queue: retained payloads behind a lazy head index, and live subscribers. */
module UsageQueues {
  import opened Wrappers
  import Fifo
  import PubSub

  const DEFAULT_RETENTION_SECONDS := 60
  const MAX_RETENTION_SECONDS := 3600

  /** A channel as the program has it: the payloads in its buffer, and whether it is closed. */
  datatype Channel = Channel(buffer: seq<string>, closed: bool)

  /** What a channel's history leaves of it. */
  ghost function View(c: PubSub.Chan): Channel {
    Channel(if c.received <= |c.sent| then c.sent[c.received..] else [], c.closed)
  }

  ghost function Views(chans: map<PubSub.ChanId, PubSub.Chan>): map<PubSub.ChanId, Channel> {
    map id | id in chans :: View(chans[id])
  }

  lemma ViewsUpdate(chans: map<PubSub.ChanId, PubSub.Chan>, id: PubSub.ChanId, c: PubSub.Chan)
    ensures Views(chans[id := c]) == Views(chans)[id := View(c)]
  {
  }

  lemma ViewsSame(a: map<PubSub.ChanId, PubSub.Chan>, b: map<PubSub.ChanId, PubSub.Chan>)
    requires a.Keys == b.Keys && forall id :: id in a ==> View(a[id]) == View(b[id])
    ensures Views(a) == Views(b)
  {
  }

  /** Taking subscribers out leaves every channel as it is. */
  lemma ClearKeepsViews(s: PubSub.State)
    requires PubSub.Sane(s)
    ensures Views(PubSub.ClearStep(s).chans) == Views(s.chans)
  {
    ViewsSame(s.chans, PubSub.ClearStep(s).chans);
  }

  lemma ClearWired(s: PubSub.State, after: PubSub.State)
    requires PubSub.Safe(s) && after == PubSub.ClearStep(s)
    ensures PubSub.Safe(after) && Views(after.chans) == Views(s.chans) && after == PubSub.Step(s, PubSub.Clear)
  {
    PubSub.ClearSafe(s);
    ClearKeepsViews(s);
  }

  lemma UnsubscribeKeepsViews(s: PubSub.State, id: PubSub.ChanId)
    requires PubSub.Sane(s)
    ensures Views(PubSub.UnsubscribeStep(s, id).chans) == Views(s.chans)
  {
    ViewsSame(s.chans, PubSub.UnsubscribeStep(s, id).chans);
  }

  /**
   * Every subscriber with fewer than 256 payloads unread gets one more, every other one is disconnected
   * and its channel closed, and no other channel changes.
   */
  ghost predicate Delivers(
    subscribers: set<PubSub.ChanId>, channels: map<PubSub.ChanId, Channel>, payload: string,
    subscribers': set<PubSub.ChanId>, channels': map<PubSub.ChanId, Channel>)
  {
    && channels'.Keys == channels.Keys && subscribers' <= subscribers
    && forall id :: id in channels ==>
         if id !in subscribers then channels'[id] == channels[id]
         else if |channels[id].buffer| < 256 then
           id in subscribers' && channels'[id] == Channel(channels[id].buffer + [payload], false)
         else id !in subscribers' && channels'[id] == Channel(channels[id].buffer, true)
  }

  lemma PublishDelivers(s: PubSub.State, payload: string, t: PubSub.State)
    requires PubSub.Safe(s) && t == PubSub.Step(s, PubSub.Publish(payload))
    ensures Delivers(s.subscribers, Views(s.chans), payload, t.subscribers, Views(t.chans))
  {
    PubSub.PublishLeaves(s, payload);
    forall id | id in s.subscribers
      ensures id in s.chans && id in t.chans
      ensures if |View(s.chans[id]).buffer| < 256 then
          id in t.subscribers && View(t.chans[id]) == Channel(View(s.chans[id]).buffer + [payload], false)
        else id !in t.subscribers && View(t.chans[id]) == Channel(View(s.chans[id]).buffer, true)
    {
      ReachedView(s, payload, id);
    }
  }

  lemma ReachedView(s: PubSub.State, payload: string, id: PubSub.ChanId)
    requires PubSub.Safe(s) && id in s.subscribers
    ensures var t := PubSub.PublishStep(s, payload);
      && id in t.chans
      && if |View(s.chans[id]).buffer| < 256 then
           id in t.subscribers && View(t.chans[id]) == Channel(View(s.chans[id]).buffer + [payload], false)
         else id !in t.subscribers && View(t.chans[id]) == Channel(View(s.chans[id]).buffer, true)
  {
    PubSub.PublishReaches(s, payload, id);
    var c := s.chans[id];
    assert PubSub.ChanOk(s, id);
    assert (c.sent + [payload])[c.received..] == c.sent[c.received..] + [payload];
  }

  class UsageQueue {
    var enabled: bool
    var retentionSeconds: int
    var items: seq<Fifo.Item>
    var head: nat
    var subscribers: set<PubSub.ChanId>
    var channels: map<PubSub.ChanId, Channel>
    var nextSubscriberID: nat

    /** Everything that ever arrived and left. */
    ghost var history: Fifo.Queue
    /** Everything published, what of it each channel was sent, and the channels still to be closed. */
    ghost var published: seq<string>
    ghost var chans: map<PubSub.ChanId, PubSub.Chan>
    ghost var pending: multiset<PubSub.ChanId>

    ghost function Hub(): PubSub.State
      reads this
    {
      PubSub.State(subscribers, chans, nextSubscriberID, pending, published, false)
    }

    /** The subscribers are safe, and the channels are what their histories leave of them. */
    ghost predicate Wired()
      reads this
    {
      PubSub.Safe(Hub()) && channels == Views(chans)
    }

    /** The live part of the storage is what the plain queue holds. */
    ghost predicate Represents()
      reads this
    {
      head <= |items| && history.live == items[head..]
    }

    /** The dead prefix is empty, or shorter than both 1024 and the number of live items. */
    ghost predicate Compact()
      reads this
    {
      head == 0 || (head < 1024 && head < |history.live|)
    }

    ghost predicate Retains()
      reads this
    {
      Represents() && Compact() && retentionSeconds > 0
    }

    ghost predicate Valid()
      reads this
    {
      Retains() && Wired()
    }

    constructor ()
      ensures Valid() && history == Fifo.NEW && Hub() == PubSub.START
      ensures !enabled && retentionSeconds == DEFAULT_RETENTION_SECONDS
    {
      enabled, retentionSeconds := false, DEFAULT_RETENTION_SECONDS;
      items, head := [], 0;
      subscribers, channels, nextSubscriberID := {}, map[], 0;
      history, published, chans, pending := Fifo.NEW, [], map[], multiset{};
    }

    // ----- retained payloads

    /** Moves the head past the expired front. */
    method SkipExpired(cutoff: Fifo.Time)
      requires head <= |items|
      modifies this`head
      ensures head == old(head) + Fifo.ExpiredPrefix(items[old(head)..], cutoff) <= |items|
    {
      ghost var before := head;
      while head < |items| && items[head].enqueuedAt < cutoff
        invariant before <= head <= |items|
        invariant Fifo.ExpiredPrefix(items[before..], cutoff)
               == head - before + Fifo.ExpiredPrefix(items[head..], cutoff)
      {
        assert items[head..][1..] == items[head + 1..];
        head := head + 1;
      }
    }

    method PruneLocked(now: Fifo.Time)
      requires Represents() && retentionSeconds > 0
      modifies this`items, this`head, this`history
      ensures Represents()
      ensures history == Fifo.Expire(old(history), now - retentionSeconds)
    {
      var windowSeconds := retentionSeconds;
      if windowSeconds <= 0 {
        windowSeconds := DEFAULT_RETENTION_SECONDS;
      }
      PruneBefore(now - windowSeconds);
    }

    method PruneBefore(cutoff: Fifo.Time)
      requires Represents()
      modifies this`items, this`head, this`history
      ensures Represents() && history == Fifo.Expire(old(history), cutoff)
    {
      ExpiredLive(history, items, head, cutoff);
      history := Fifo.Expire(history, cutoff);
      if head >= |items| {
        items, head := [], 0;
        return;
      }
      SkipExpired(cutoff);
    }

    static lemma ExpiredLive(q: Fifo.Queue, items: seq<Fifo.Item>, head: nat, cutoff: Fifo.Time)
      requires head <= |items| && q.live == items[head..]
      ensures Fifo.Expire(q, cutoff).live == items[head + Fifo.ExpiredPrefix(items[head..], cutoff)..]
    {
      DropFront(items, head, Fifo.ExpiredPrefix(items[head..], cutoff));
    }

    static lemma DropFront(items: seq<Fifo.Item>, head: nat, n: nat)
      requires head + n <= |items|
      ensures items[head..][n..] == items[head + n..]
    {
    }

    method MaybeCompactLocked()
      requires Represents()
      modifies this`items, this`head
      ensures Represents() && Compact()
    {
      if head == 0 {
        return;
      }
      if head >= |items| {
        items, head := [], 0;
        return;
      }
      if head < 1024 && head * 2 < |items| {
        return;
      }
      items, head := items[head..], 0;
    }

    method EnqueueItem(payload: string, now: Fifo.Time)
      requires Retains()
      modifies this`items, this`head, this`history
      ensures Retains()
      ensures history == Fifo.Step(old(history), Fifo.Enqueue(payload, now, retentionSeconds))
    {
      PruneLocked(now);
      AppendItem(Fifo.Item(now, payload));
      MaybeCompactLocked();
    }

    method AppendItem(item: Fifo.Item)
      requires Represents()
      modifies this`items, this`history
      ensures Represents()
      ensures history == old(history).(live := old(history).live + [item], arrived := old(history).arrived + [item])
    {
      assert (items + [item])[head..] == items[head..] + [item];
      items := items + [item];
      history := history.(live := history.live + [item], arrived := history.arrived + [item]);
    }

    method PopItems(count: nat, now: Fifo.Time) returns (out: seq<string>)
      requires Retains()
      modifies this`items, this`head, this`history
      ensures Retains()
      ensures history == Fifo.Step(old(history), Fifo.Pop(count, now, retentionSeconds))
      ensures out == Fifo.PopResult(old(history), count, now, retentionSeconds)
    {
      ghost var before, window := history, retentionSeconds;
      PruneLocked(now);
      out := TakeKept(before, count, now, window);
    }

    /** Pops from what pruning left of `before`. */
    method TakeKept(ghost before: Fifo.Queue, count: nat, ghost now: Fifo.Time, ghost window: nat)
      returns (out: seq<string>)
      requires Represents() && history == Fifo.Expire(before, now - window)
      modifies this`items, this`head, this`history
      ensures Represents() && Compact()
      ensures history == Fifo.Step(before, Fifo.Pop(count, now, window))
      ensures out == Fifo.PopResult(before, count, now, window)
    {
      ghost var kept := history;
      out := TakeItems(count, now - window);
      PopIsTake(before, kept, history, out, count, now, window);
    }

    static lemma PopIsTake(
      q: Fifo.Queue, kept: Fifo.Queue, after: Fifo.Queue, out: seq<string>, count: nat, now: Fifo.Time, window: nat)
      requires kept == Fifo.Expire(q, now - window)
      requires after == Fifo.Popping(kept, count, now - window) && out == Fifo.Handed(kept, count)
      ensures after == Fifo.Step(q, Fifo.Pop(count, now, window)) && out == Fifo.PopResult(q, count, now, window)
    {
    }

    /** Hands out up to `count` live items. */
    method TakeItems(count: nat, ghost cutoff: Fifo.Time) returns (out: seq<string>)
      requires Represents()
      modifies this`items, this`head, this`history
      ensures Represents() && Compact()
      ensures history == Fifo.Popping(old(history), count, cutoff)
      ensures out == Fifo.Handed(old(history), count)
    {
      var available := |items| - head;
      var taken := count;
      if taken > available {
        taken := available;
      }
      assert taken == Fifo.Take(history, count);
      out := Collect(taken);
      DropFront(items, head, taken);
      history := Fifo.Leave(history, taken, Fifo.Popped, cutoff);
      if available <= 0 {
        items, head := [], 0;
        return;
      }
      head := head + taken;
      MaybeCompactLocked();
    }

    method Collect(taken: nat) returns (out: seq<string>)
      requires Represents() && taken <= |items| - head
      ensures out == Fifo.Payloads(history.live[..taken])
    {
      out := [];
      for i := 0 to taken
        invariant |out| == i
        invariant forall k :: 0 <= k < i ==> out[k] == items[head + k].payload
      {
        out := out + [items[head + i].payload];
      }
    }

    // ----- subscribers

    method PublishToSubscribers(payload: string) returns (delivered: bool)
      requires Wired()
      modifies this`subscribers, this`channels, this`chans, this`published
      ensures Wired()
      ensures delivered == (old(subscribers) != {})
      ensures Hub() == PubSub.Step(old(Hub()), PubSub.Publish(payload))
      ensures Delivers(old(subscribers), old(channels), payload, subscribers, channels)
    {
      ghost var before := Hub();
      PubSub.PublishSafe(before, payload);
      PublishDelivers(before, payload, PubSub.Step(before, PubSub.Publish(payload)));
      if subscribers == {} {
        return false;
      }
      OfferAll(payload);
      published := published + [payload];
      return true;
    }

    /** Offers the payload to each subscriber in turn; neither a send nor a close here can panic. */
    method OfferAll(payload: string)
      requires Wired()
      modifies this`subscribers, this`channels, this`chans
      ensures subscribers == PubSub.Roomy(old(Hub())) && chans == PubSub.Offered(old(Hub()), payload)
      ensures channels == Views(chans)
      ensures !exists id :: id in old(subscribers) && old(chans)[id].closed
    {
      ghost var before := Hub();
      PubSub.SubscribersOpen(before);
      var todo := subscribers;
      while todo != {}
        invariant PubSub.Offering(before, subscribers, chans, todo, payload) && channels == Views(chans)
        decreases todo
      {
        var id :| id in todo;
        OfferNext(before, todo, id, payload);
        todo := todo - {id};
      }
      PubSub.OfferedAll(before, subscribers, chans, payload);
    }

    method OfferNext(ghost before: PubSub.State, ghost todo: set<PubSub.ChanId>, id: PubSub.ChanId, payload: string)
      requires PubSub.Safe(before) && before.published == published && id in todo
      requires PubSub.Offering(before, subscribers, chans, todo, payload) && channels == Views(chans)
      modifies this`subscribers, this`channels, this`chans
      ensures PubSub.Offering(before, subscribers, chans, todo - {id}, payload) && channels == Views(chans)
    {
      PubSub.OfferOne(before, subscribers, chans, todo, id, payload);
      PubSub.OpenToOffer(before, subscribers, chans, todo, id, payload);
      OfferTo(id, payload);
    }

    /** One send that does not block: a channel without room is closed and its subscriber taken out. */
    method OfferTo(id: PubSub.ChanId, payload: string)
      requires id in chans && channels == Views(chans) && chans[id].received <= |chans[id].sent| && !chans[id].closed
      modifies this`subscribers, this`channels, this`chans
      ensures channels == Views(chans)
      ensures chans == old(chans)[id := PubSub.Offer(old(chans)[id], payload, |published|)]
      ensures subscribers == if PubSub.Full(old(chans)[id]) then old(subscribers) - {id} else old(subscribers)
    {
      ghost var c := chans[id];
      ViewsUpdate(chans, id, PubSub.Offer(c, payload, |published|));
      chans := chans[id := PubSub.Offer(c, payload, |published|)];
      var channel := channels[id];
      if |channel.buffer| < PubSub.CAPACITY {
        assert (c.sent + [payload])[c.received..] == c.sent[c.received..] + [payload];
        channels := channels[id := channel.(buffer := channel.buffer + [payload])];
      } else {
        subscribers := subscribers - {id};
        channels := channels[id := channel.(closed := true)];
      }
    }

    method SubscribeUsage() returns (id: PubSub.ChanId)
      requires Wired()
      modifies this`subscribers, this`channels, this`chans, this`nextSubscriberID
      ensures Wired()
      ensures id == nextSubscriberID && id !in old(chans)
      ensures Hub() == PubSub.Step(old(Hub()), PubSub.Subscribe)
    {
      ghost var before := Hub();
      PubSub.SubscribeSafe(before);
      id := nextSubscriberID + 1;
      nextSubscriberID := id;
      subscribers := subscribers + {id};
      ViewsUpdate(chans, id, PubSub.Chan([], 0, false, |published|, None));
      channels := channels[id := Channel([], false)];
      chans := chans[id := PubSub.Chan([], 0, false, |published|, None)];
      assert Hub() == PubSub.SubscribeStep(before);
    }

    /** The section of an unsubscribe under the lock; the caller closes the channel if it is returned. */
    method UnsubscribeLocked(id: PubSub.ChanId) returns (found: bool)
      requires Wired()
      modifies this`subscribers, this`chans, this`pending
      ensures Wired()
      ensures found == (id in old(subscribers)) && (found ==> id in pending)
      ensures subscribers == old(subscribers) - {id}
      ensures Hub() == PubSub.Step(old(Hub()), PubSub.Unsubscribe(id))
      ensures !found ==> Hub() == old(Hub())
    {
      ghost var before := Hub();
      PubSub.UnsubscribeSafe(before, id);
      UnsubscribeKeepsViews(before, id);
      found := id in subscribers;
      if found {
        subscribers := subscribers - {id};
        pending := pending + multiset{id};
        chans := PubSub.UnsubscribeStep(before, id).chans;
      }
    }

    /** Closes a channel taken out before. It is open: closing it cannot panic. */
    method Close(id: PubSub.ChanId)
      requires Wired() && id in pending
      modifies this`channels, this`chans, this`pending
      ensures Wired() && id in old(channels) && !old(channels)[id].closed
      ensures id in old(chans) && chans == old(chans)[id := old(chans)[id].(closed := true)]
      ensures Hub() == PubSub.Step(old(Hub()), PubSub.CloseOne(id))
      ensures channels == old(channels)[id := old(channels)[id].(closed := true)] && pending == old(pending) - multiset{id}
    {
      ghost var before := Hub();
      PubSub.CloseSafe(before, id);
      assert PubSub.ChanOk(before, id);
      ViewsUpdate(chans, id, chans[id].(closed := true));
      channels := channels[id := channels[id].(closed := true)];
      chans := chans[id := chans[id].(closed := true)];
      pending := pending - multiset{id};
      assert Hub() == PubSub.CloseStep(before, id);
    }

    method UnsubscribeUsage(id: PubSub.ChanId)
      requires Wired()
      modifies this`subscribers, this`channels, this`chans, this`pending
      ensures Wired() && subscribers == old(subscribers) - {id}
      ensures id in old(subscribers) ==> id in channels && channels == old(channels)[id := old(channels[id]).(closed := true)]
      ensures id in old(subscribers) ==> Hub() == PubSub.Removed(old(Hub()), id)
      ensures id !in old(subscribers) ==> channels == old(channels) && Hub() == old(Hub())
    {
      var found := UnsubscribeLocked(id);
      if found {
        Close(id);
      }
    }

    method TakeSubscribers() returns (taken: set<PubSub.ChanId>)
      requires Wired()
      modifies this`subscribers, this`channels, this`chans, this`pending
      ensures Wired()
      ensures taken == old(subscribers) && AllPending(taken, pending)
      ensures Hub() == PubSub.Step(old(Hub()), PubSub.Clear)
    {
      ghost var before := Hub();
      taken := subscribers;
      pending := pending + multiset(subscribers);
      chans := PubSub.ClearStep(before).chans;
      subscribers := {};
      ClearWired(before, Hub());
    }

    /** The section of a clear under the lock; the caller closes the channels taken out. */
    method ClearLocked(now: Fifo.Time) returns (taken: set<PubSub.ChanId>)
      requires Valid()
      modifies this`items, this`head, this`history, this`subscribers, this`channels, this`chans, this`pending
      ensures Valid()
      ensures taken == old(subscribers) && AllPending(taken, pending)
      ensures history == Fifo.Step(old(history), Fifo.Clear(now)) && history.live == []
      ensures Hub() == PubSub.Step(old(Hub()), PubSub.Clear)
    {
      ClearItems(now);
      taken := TakeSubscribers();
    }

    method ClearItems(now: Fifo.Time)
      requires Retains()
      modifies this`items, this`head, this`history
      ensures Retains()
      ensures history == Fifo.Step(old(history), Fifo.Clear(now)) && history.live == []
    {
      items, head := [], 0;
      history := Fifo.AfterClear(history, now);
    }

    static ghost predicate SameBuffers(was: map<PubSub.ChanId, Channel>, channels: map<PubSub.ChanId, Channel>) {
      was.Keys == channels.Keys && forall id :: id in was ==> channels[id].buffer == was[id].buffer
    }

    static ghost predicate AllClosed(ids: set<PubSub.ChanId>, channels: map<PubSub.ChanId, Channel>) {
      forall id :: id in ids ==> id in channels && channels[id].closed
    }

    static ghost predicate AllPending(ids: set<PubSub.ChanId>, pending: multiset<PubSub.ChanId>) {
      forall id :: id in ids ==> id in pending
    }

    /** Closing the channels in `todo`, all of them owed, is what is left to do. */
    static ghost predicate Owes(todo: set<PubSub.ChanId>, chans: map<PubSub.ChanId, PubSub.Chan>,
                                pending: multiset<PubSub.ChanId>, finalChans: map<PubSub.ChanId, PubSub.Chan>,
                                finalPending: multiset<PubSub.ChanId>) {
      && AllPending(todo, pending)
      && PubSub.ClosedIn(chans, todo) == finalChans
      && pending - multiset(todo) == finalPending
    }

    static lemma OwesOneLess(todo: set<PubSub.ChanId>, id: PubSub.ChanId, chans: map<PubSub.ChanId, PubSub.Chan>,
                             pending: multiset<PubSub.ChanId>, finalChans: map<PubSub.ChanId, PubSub.Chan>,
                             finalPending: multiset<PubSub.ChanId>)
      requires Owes(todo, chans, pending, finalChans, finalPending) && id in todo && id in chans
      ensures Owes(todo - {id}, chans[id := chans[id].(closed := true)], pending - multiset{id}, finalChans, finalPending)
    {
      PubSub.ClosedOneLess(chans, todo, id);
      PubSub.PendingOneLess(pending, todo, id);
    }

    method CloseNext(id: PubSub.ChanId, ghost todo: set<PubSub.ChanId>,
                     ghost finalChans: map<PubSub.ChanId, PubSub.Chan>, ghost finalPending: multiset<PubSub.ChanId>)
      requires Wired() && id in todo && Owes(todo, chans, pending, finalChans, finalPending)
      modifies this`channels, this`chans, this`pending
      ensures Wired() && Owes(todo - {id}, chans, pending, finalChans, finalPending)
    {
      ghost var before, owed := chans, pending;
      Close(id);
      OwesOneLess(todo, id, before, owed, finalChans, finalPending);
    }

    method CloseAll(taken: set<PubSub.ChanId>)
      requires Wired() && AllPending(taken, pending)
      modifies this`channels, this`chans, this`pending
      ensures Wired()
      ensures chans == PubSub.ClosedIn(old(chans), taken) && pending == old(pending) - multiset(taken)
    {
      ghost var finalChans, finalPending := PubSub.ClosedIn(chans, taken), pending - multiset(taken);
      var todo := taken;
      while todo != {}
        invariant Wired() && Owes(todo, chans, pending, finalChans, finalPending)
        decreases todo
      {
        var id :| id in todo;
        CloseNext(id, todo, finalChans, finalPending);
        todo := todo - {id};
      }
      PubSub.ClosedNone(chans, pending);
    }

    /** Empties the queue and disconnects every subscriber. */
    method Clear(now: Fifo.Time)
      requires Valid()
      modifies this`items, this`head, this`history, this`subscribers, this`channels, this`chans, this`pending
      ensures Valid() && subscribers == {}
      ensures history == Fifo.Step(old(history), Fifo.Clear(now)) && history.live == []
      ensures AllClosed(old(subscribers), channels) && SameBuffers(old(channels), channels)
      ensures Hub() == PubSub.Cleared(old(Hub()))
    {
      ghost var before := Hub();
      var taken := ClearLocked(now);
      ghost var owing := Hub();
      CloseAll(taken);
      ClearedIs(before, owing, Hub());
    }

    /** Taking all subscribers out and then closing their channels. */
    static lemma ClearedIs(before: PubSub.State, owing: PubSub.State, after: PubSub.State)
      requires PubSub.Safe(before) && owing == PubSub.Step(before, PubSub.Clear)
      requires after == owing.(chans := PubSub.ClosedIn(owing.chans, before.subscribers),
                               pending := owing.pending - multiset(before.subscribers))
      ensures after == PubSub.Cleared(before)
      ensures AllClosed(before.subscribers, Views(after.chans)) && SameBuffers(Views(before.chans), Views(after.chans))
    {
      ClearedPending(before.pending, before.subscribers);
      ClearedClosed(before);
      ClearedBuffers(before);
    }

    static lemma ClearedPending(pending: multiset<PubSub.ChanId>, taken: set<PubSub.ChanId>)
      ensures pending + multiset(taken) - multiset(taken) == pending
    {
    }

    static lemma ClearedClosed(s: PubSub.State)
      requires PubSub.Sane(s)
      ensures AllClosed(s.subscribers, Views(PubSub.Cleared(s).chans))
    {
    }

    static lemma ClearedBuffers(s: PubSub.State)
      requires PubSub.Sane(s)
      ensures SameBuffers(Views(s.chans), Views(PubSub.Cleared(s).chans))
    {
    }

    // ----- the package's entry points

    method SetRetentionSeconds(value: int)
      requires Valid()
      modifies this`retentionSeconds
      ensures Valid() && 0 < retentionSeconds <= 60 * 60
      ensures 0 < value <= 60 * 60 ==> retentionSeconds == value
      ensures value <= 0 ==> retentionSeconds == 60
      ensures value > 60 * 60 ==> retentionSeconds == 60 * 60
    {
      var normalized := value;
      if normalized <= 0 {
        normalized := DEFAULT_RETENTION_SECONDS;
      } else if normalized > MAX_RETENTION_SECONDS {
        normalized := MAX_RETENTION_SECONDS;
      }
      retentionSeconds := normalized;
    }

    method SetEnabled(value: bool, now: Fifo.Time)
      requires Valid()
      modifies this`enabled, this`items, this`head, this`history, this`subscribers, this`channels, this`chans, this`pending
      ensures Valid() && enabled == value
      ensures !value ==> history == Fifo.Step(old(history), Fifo.Clear(now)) && history.live == []
      ensures !value ==> Hub() == PubSub.Cleared(old(Hub())) && AllClosed(old(subscribers), channels)
      ensures !value ==> subscribers == {} && SameBuffers(old(channels), channels)
      ensures value ==> history == old(history) && Hub() == old(Hub())
    {
      enabled := value;
      if !value {
        Clear(now);
      }
    }

    /** An accepted payload goes to the subscribers there are, and otherwise into the queue, never both. */
    method Enqueue(payload: string, now: Fifo.Time)
      requires Valid()
      modifies this`items, this`head, this`history, this`subscribers, this`channels, this`chans, this`published
      ensures Valid()
      ensures !old(enabled) || payload == "" ==> history == old(history) && Hub() == old(Hub())
      ensures old(enabled) && payload != "" && old(subscribers) != {} ==>
        history == old(history) && Hub() == PubSub.Step(old(Hub()), PubSub.Publish(payload))
      ensures old(enabled) && payload != "" && old(subscribers) != {} ==>
        Delivers(old(subscribers), old(channels), payload, subscribers, channels)
      ensures old(enabled) && payload != "" && old(subscribers) == {} ==>
        && Hub() == old(Hub())
        && history == Fifo.Step(old(history), Fifo.Enqueue(payload, now, old(retentionSeconds)))
    {
      if !enabled {
        return;
      }
      if |payload| == 0 {
        return;
      }
      var delivered := PublishToSubscribers(payload);
      if delivered {
        return;
      }
      EnqueueItem(payload, now);
    }

    method PopOldest(count: int, now: Fifo.Time) returns (out: seq<string>)
      requires Valid()
      modifies this`items, this`head, this`history
      ensures Valid()
      ensures !enabled || count <= 0 ==> out == [] && history == old(history)
      ensures enabled && count > 0 ==>
        && out == Fifo.PopResult(old(history), count, now, retentionSeconds)
        && history == Fifo.Step(old(history), Fifo.Pop(count, now, retentionSeconds))
      ensures enabled && count > 0 ==> |out| <= count && (|out| < count ==> history.live == [])
    {
      if !enabled || count <= 0 {
        return [];
      }
      ghost var before := history;
      out := PopItems(count, now);
      Fifo.PopDrains(before, count, now, retentionSeconds, out, history);
    }

    /** Storage stays below twice the live count. */
    lemma StorageBound()
      requires Valid()
      ensures |items| == |history.live| || |items| < 2 * |history.live|
    {
      assert |history.live| == |items| - head;
    }
  }
}
