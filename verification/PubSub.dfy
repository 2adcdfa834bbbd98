/**
 * Publishing to subscribers, as steps of concurrent threads. Sections under the lock are single
 * steps; channels taken out by an unsubscribe or a clear are closed by later steps of their own.
 */
module PubSub {
  import opened Wrappers

  type ChanId = nat

  /** Payloads a channel's buffer can hold. */
  const CAPACITY: nat := 256

  /**
   * A subscriber's channel: what was sent on it, how much of that was received, and the block of
   * published payloads between its subscription and its removal.
   */
  datatype Chan = Chan(sent: seq<string>, received: nat, closed: bool, from: nat, until: Option<nat>)

  /** `pending` are the channels that some thread has taken out and still has to close. */
  datatype State = State(
    subscribers: set<ChanId>,
    chans: map<ChanId, Chan>,
    nextID: nat,
    pending: multiset<ChanId>,
    published: seq<string>,
    panicked: bool)

  const START := State({}, map[], 0, multiset{}, [], false)

  datatype Event =
    | Publish(payload: string)
    | Subscribe
    | Unsubscribe(id: ChanId)
    | Clear
    | CloseOne(id: ChanId)
    | Receive(id: ChanId)

  // ----- one channel

  /** Sending without blocking: the payload is buffered, or the channel is closed for being full. */
  function Offer(c: Chan, payload: string, at: nat): Chan
    requires c.received <= |c.sent|
  {
    if |c.sent| - c.received < CAPACITY then c.(sent := c.sent + [payload])
    else c.(closed := true, until := Some(at))
  }

  predicate Full(c: Chan) {
    |c.sent| - c.received >= CAPACITY
  }

  // ----- steps

  function Roomy(s: State): set<ChanId>
    requires Sane(s)
  {
    set id | id in s.subscribers && !Full(s.chans[id])
  }

  function Offered(s: State, payload: string): map<ChanId, Chan>
    requires Sane(s)
  {
    map id | id in s.chans ::
      if id in s.subscribers then Offer(s.chans[id], payload, |s.published|) else s.chans[id]
  }

  /** Every subscriber is offered the payload; full ones are taken out and closed under the lock. */
  function PublishStep(s: State, payload: string): State
    requires Sane(s)
  {
    if s.subscribers == {} then s
    else
      s.(subscribers := Roomy(s),
         chans := Offered(s, payload),
         published := s.published + [payload],
         panicked := s.panicked || exists id :: id in s.subscribers && s.chans[id].closed)
  }

  function SubscribeStep(s: State): State {
    var id := s.nextID + 1;
    s.(nextID := id,
       subscribers := s.subscribers + {id},
       chans := s.chans[id := Chan([], 0, false, |s.published|, None)])
  }

  function UnsubscribeStep(s: State, id: ChanId): State
    requires Sane(s)
  {
    if id !in s.subscribers then s
    else
      s.(subscribers := s.subscribers - {id},
         chans := s.chans[id := s.chans[id].(until := Some(|s.published|))],
         pending := s.pending + multiset{id})
  }

  function ClearStep(s: State): State
    requires Sane(s)
  {
    s.(subscribers := {},
       chans := (map id | id in s.chans ::
         if id in s.subscribers then s.chans[id].(until := Some(|s.published|)) else s.chans[id]),
       pending := s.pending + multiset(s.subscribers))
  }

  /** Closing a channel that is already closed panics. */
  function CloseStep(s: State, id: ChanId): State
    requires Sane(s)
  {
    if id !in s.pending || id !in s.chans then s
    else
      s.(pending := s.pending - multiset{id},
         chans := s.chans[id := s.chans[id].(closed := true)],
         panicked := s.panicked || s.chans[id].closed)
  }

  function ReceiveStep(s: State, id: ChanId): State
    requires Sane(s)
  {
    if id !in s.chans || s.chans[id].received >= |s.chans[id].sent| then s
    else s.(chans := s.chans[id := s.chans[id].(received := s.chans[id].received + 1)])
  }

  /** Shape of the tables, before anything is said about closing. */
  ghost predicate Sane(s: State) {
    && s.subscribers <= s.chans.Keys
    && forall id :: id in s.chans ==> s.chans[id].received <= |s.chans[id].sent|
  }

  // ----- the invariant

  function End(c: Chan, published: seq<string>): nat {
    if c.until.Some? then c.until.value else |published|
  }

  ghost predicate GapFree(c: Chan, published: seq<string>) {
    && c.from <= End(c, published) <= |published|
    && c.sent == published[c.from..End(c, published)]
  }

  ghost predicate ChanOk(s: State, id: ChanId)
    requires id in s.chans
  {
    var c := s.chans[id];
    && 0 < id <= s.nextID
    && c.received <= |c.sent| <= c.received + CAPACITY
    && (c.until.None? <==> id in s.subscribers)
    && (c.closed <==> id !in s.subscribers && s.pending[id] == 0)
    && (id in s.subscribers ==> s.pending[id] == 0)
    && s.pending[id] <= 1
    && GapFree(c, s.published)
  }

  ghost predicate Safe(s: State) {
    && Sane(s)
    && !s.panicked
    && (forall id :: id in s.chans ==> ChanOk(s, id))
    && (forall id :: id in s.pending ==> id in s.chans)
  }

  function Step(s: State, e: Event): State
    requires Sane(s)
  {
    match e
    case Publish(payload) => PublishStep(s, payload)
    case Subscribe => SubscribeStep(s)
    case Unsubscribe(id) => UnsubscribeStep(s, id)
    case Clear => ClearStep(s)
    case CloseOne(id) => CloseStep(s, id)
    case Receive(id) => ReceiveStep(s, id)
  }

  // ----- removals with the closes they owe

  /** A subscriber taken out and its channel closed. */
  function Removed(s: State, id: ChanId): State
    requires Safe(s)
  {
    UnsubscribeSafe(s, id);
    Step(Step(s, Unsubscribe(id)), CloseOne(id))
  }

  /** Channels with those in `done` closed, and nothing else changed. */
  function ClosedIn(chans: map<ChanId, Chan>, done: set<ChanId>): map<ChanId, Chan> {
    map id | id in chans :: if id in done then chans[id].(closed := true) else chans[id]
  }

  /** All subscribers taken out, with their channels closed: what was sent and received stays. */
  function Cleared(s: State): State
    requires Sane(s)
  {
    s.(subscribers := {}, chans := ClosedIn(ClearStep(s).chans, s.subscribers))
  }

  lemma ClosedOneLess(chans: map<ChanId, Chan>, todo: set<ChanId>, id: ChanId)
    requires id in chans && id in todo
    ensures ClosedIn(chans[id := chans[id].(closed := true)], todo - {id}) == ClosedIn(chans, todo)
  {
  }

  lemma PendingOneLess(pending: multiset<ChanId>, todo: set<ChanId>, id: ChanId)
    requires id in todo
    ensures (pending - multiset{id}) - multiset(todo - {id}) == pending - multiset(todo)
  {
    assert multiset(todo) == multiset(todo - {id}) + multiset{id};
  }

  lemma ClosedNone(chans: map<ChanId, Chan>, pending: multiset<ChanId>)
    ensures ClosedIn(chans, {}) == chans && pending - multiset({}) == pending
  {
  }

  // ----- offering a payload to one subscriber after another

  /** The subscribers outside `todo` have been offered the payload. */
  ghost predicate Offering(
    before: State, subscribers: set<ChanId>, chans: map<ChanId, Chan>, todo: set<ChanId>, payload: string)
    requires Sane(before)
  {
    && todo <= before.subscribers
    && (forall id :: id in subscribers <==> id in before.subscribers && (id in todo || !Full(before.chans[id])))
    && chans.Keys == before.chans.Keys
    && (forall id :: id in chans ==>
          chans[id] == if id in before.subscribers && id !in todo
                       then Offer(before.chans[id], payload, |before.published|) else before.chans[id])
  }

  lemma OfferOne(
    before: State, subscribers: set<ChanId>, chans: map<ChanId, Chan>, todo: set<ChanId>, id: ChanId, payload: string)
    requires Sane(before) && Offering(before, subscribers, chans, todo, payload) && id in todo
    ensures chans[id] == before.chans[id]
    ensures Offering(before, if Full(chans[id]) then subscribers - {id} else subscribers,
                     chans[id := Offer(chans[id], payload, |before.published|)], todo - {id}, payload)
  {
  }

  /** Those not offered the payload yet are open, as they were before. */
  lemma OpenToOffer(
    before: State, subscribers: set<ChanId>, chans: map<ChanId, Chan>, todo: set<ChanId>, id: ChanId, payload: string)
    requires Safe(before) && Offering(before, subscribers, chans, todo, payload) && id in todo
    ensures id in chans && !chans[id].closed && chans[id].received <= |chans[id].sent|
  {
    OfferOne(before, subscribers, chans, todo, id, payload);
    assert ChanOk(before, id);
  }

  lemma SubscribersOpen(s: State)
    requires Safe(s)
    ensures !exists id :: id in s.subscribers && s.chans[id].closed
  {
    forall id | id in s.subscribers ensures !s.chans[id].closed {
      assert ChanOk(s, id);
    }
  }

  lemma OfferedAll(before: State, subscribers: set<ChanId>, chans: map<ChanId, Chan>, payload: string)
    requires Sane(before) && Offering(before, subscribers, chans, {}, payload)
    ensures subscribers == Roomy(before) && chans == Offered(before, payload)
  {
  }

  lemma PublishSafe(s: State, payload: string)
    requires Safe(s)
    ensures Safe(PublishStep(s, payload))
  {
    var t := PublishStep(s, payload);
    forall id | id in t.chans ensures ChanOk(t, id) {
      assert ChanOk(s, id);
      var c := s.chans[id];
      if s.subscribers != {} {
        assert t.published[c.from..End(c, s.published)] == s.published[c.from..End(c, s.published)];
        if id in s.subscribers {
          assert t.published[c.from..|t.published|] == s.published[c.from..] + [payload];
        }
      }
    }
    assert forall id :: id in s.subscribers ==> ChanOk(s, id);
  }

  /** A subscriber with room is sent the payload and stays; one with 256 payloads unread is taken out and closed. */
  lemma PublishReaches(s: State, payload: string, id: ChanId)
    requires Safe(s) && id in s.subscribers
    ensures var t := PublishStep(s, payload);
      && id in t.chans && t.chans[id].received == s.chans[id].received
      && if |s.chans[id].sent| - s.chans[id].received < 256 then
           id in t.subscribers && !t.chans[id].closed && t.chans[id].sent == s.chans[id].sent + [payload]
         else
           id !in t.subscribers && t.chans[id].closed && t.chans[id].sent == s.chans[id].sent
  {
    assert ChanOk(s, id);
  }

  /** A publish is recorded once, and touches no channel of a former subscriber. */
  lemma PublishLeaves(s: State, payload: string)
    requires Safe(s)
    ensures var t := PublishStep(s, payload);
      && t.chans.Keys == s.chans.Keys && t.subscribers <= s.subscribers && t.pending == s.pending
      && (forall id :: id in s.chans && id !in s.subscribers ==> t.chans[id] == s.chans[id])
      && t.published == s.published + if s.subscribers == {} then [] else [payload]
  {
  }

  /** A receive takes the oldest unread payload of the channel, if there is one. */
  lemma ReceiveTakesNext(s: State, id: ChanId)
    requires Sane(s) && id in s.chans && s.chans[id].received < |s.chans[id].sent|
    ensures var c, d := s.chans[id], ReceiveStep(s, id).chans[id];
      d.sent == c.sent && c.sent[c.received..] == [c.sent[c.received]] + d.sent[d.received..]
  {
  }

  lemma SubscribeSafe(s: State)
    requires Safe(s)
    ensures Safe(SubscribeStep(s)) && s.nextID + 1 !in s.chans
  {
    var t := SubscribeStep(s);
    assert forall id :: id in s.chans ==> ChanOk(s, id);
    assert forall id :: id in s.chans ==> id <= s.nextID;
    forall id | id in t.chans ensures ChanOk(t, id) {
      if id in s.chans {
        assert ChanOk(s, id);
      } else {
        assert id !in s.pending;
      }
    }
  }

  lemma UnsubscribeSafe(s: State, id: ChanId)
    requires Safe(s)
    ensures Safe(UnsubscribeStep(s, id))
  {
    var t := UnsubscribeStep(s, id);
    forall j | j in t.chans ensures ChanOk(t, j) {
      assert ChanOk(s, j);
    }
  }

  lemma ClearSafe(s: State)
    requires Safe(s)
    ensures Safe(ClearStep(s))
  {
    var t := ClearStep(s);
    forall j | j in t.chans ensures ChanOk(t, j) {
      assert ChanOk(s, j);
    }
  }

  lemma CloseSafe(s: State, id: ChanId)
    requires Safe(s)
    ensures Safe(CloseStep(s, id))
  {
    var t := CloseStep(s, id);
    forall j | j in t.chans ensures ChanOk(t, j) {
      assert ChanOk(s, j);
    }
    if id in s.pending {
      assert ChanOk(s, id);
    }
  }

  lemma ReceiveSafe(s: State, id: ChanId)
    requires Safe(s)
    ensures Safe(ReceiveStep(s, id))
  {
    var t := ReceiveStep(s, id);
    forall j | j in t.chans ensures ChanOk(t, j) {
      assert ChanOk(s, j);
    }
  }

  lemma StepSafe(s: State, e: Event)
    requires Safe(s)
    ensures Safe(Step(s, e))
  {
    match e
    case Publish(payload) => PublishSafe(s, payload);
    case Subscribe => SubscribeSafe(s);
    case Unsubscribe(id) => UnsubscribeSafe(s, id);
    case Clear => ClearSafe(s);
    case CloseOne(id) => CloseSafe(s, id);
    case Receive(id) => ReceiveSafe(s, id);
  }

  // ----- runs

  /** `s` is reached from the start by some interleaving of steps. */
  ghost predicate Reaches(events: seq<Event>, s: State)
    decreases |events|
  {
    if events == [] then s == START
    else exists p :: Sane(p) && Reaches(events[..|events| - 1], p) && s == Step(p, events[|events| - 1])
  }

  /** No interleaving closes a channel twice or sends on a closed one, and every block sent is gap-free. */
  lemma {:induction false} EveryInterleavingSafe(events: seq<Event>, s: State)
    requires Reaches(events, s)
    ensures Safe(s)
    decreases |events|
  {
    if events != [] {
      var p :| Sane(p) && Reaches(events[..|events| - 1], p) && s == Step(p, events[|events| - 1]);
      EveryInterleavingSafe(events[..|events| - 1], p);
      StepSafe(p, events[|events| - 1]);
    }
  }

  /** Every sequence of steps can be taken from the start. */
  lemma {:induction false} RunExists(events: seq<Event>) returns (s: State)
    ensures Reaches(events, s)
    decreases |events|
  {
    if events == [] {
      s := START;
    } else {
      var p := RunExists(events[..|events| - 1]);
      EveryInterleavingSafe(events[..|events| - 1], p);
      s := Step(p, events[|events| - 1]);
    }
  }

  /** Once no close is outstanding, exactly the removed channels are closed. */
  lemma QuiescentClosed(events: seq<Event>, s: State, id: ChanId)
    requires Reaches(events, s) && s.pending == multiset{} && id in s.chans
    ensures s.chans[id].closed <==> id !in s.subscribers
  {
    EveryInterleavingSafe(events, s);
    assert ChanOk(s, id);
  }
}
