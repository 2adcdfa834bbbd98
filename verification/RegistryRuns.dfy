/** Whole runs of the registry: every mutator as an event, and what every reachable state satisfies. */
module RegistryRuns {
  import opened Wrappers
  import opened MapSum
  import opened RegistryTables
  import opened RegistryLaws
  import Text

  /** Time after which a quota mark no longer counts. */
  const QUOTA_WINDOW := 300

  datatype Event =
    | Register(client: string, provider: string, models: seq<Option<ModelInfo>>, now: Time)
    | Unregister(client: string, now: Time)
    | SetQuotaExceeded(client: string, id: string, now: Time)
    | ClearQuotaExceeded(client: string, id: string)
    | Suspend(client: string, id: string, reason: string, now: Time)
    | Resume(client: string, id: string, now: Time)
    | CleanupExpired(now: Time)

  function MarkQuota(r: Registration, client: string, now: Time): Registration {
    r.(quotaExceeded := r.quotaExceeded[client := now])
  }

  function ClearQuota(r: Registration, client: string): Registration {
    r.(quotaExceeded := r.quotaExceeded - {client})
  }

  function MarkSuspended(r: Registration, client: string, reason: string, now: Time): Registration {
    if client in r.suspended then r
    else r.(suspended := r.suspended[client := reason], lastUpdated := now)
  }

  function ClearSuspended(r: Registration, client: string, now: Time): Registration {
    if client in r.suspended then r.(suspended := r.suspended - {client}, lastUpdated := now) else r
  }

  function WithoutExpired(r: Registration, now: Time): Registration {
    r.(quotaExceeded := map c | c in r.quotaExceeded && now - r.quotaExceeded[c] < QUOTA_WINDOW :: r.quotaExceeded[c])
  }

  /** One event on the tables. */
  function Apply(t: Tables, e: Event): Tables {
    match e
    case Register(client, provider, models, now) => Settled(t, client, Text.ToLower(provider), models, now)
    case Unregister(client, now) => Unregistered(t, client, now)
    case SetQuotaExceeded(client, id, now) =>
      if id in t.models then t.(models := t.models[id := MarkQuota(t.models[id], client, now)]) else t
    case ClearQuotaExceeded(client, id) =>
      if id in t.models then t.(models := t.models[id := ClearQuota(t.models[id], client)]) else t
    case Suspend(client, id, reason, now) =>
      if client == "" || id == "" || id !in t.models then t
      else t.(models := t.models[id := MarkSuspended(t.models[id], client, reason, now)])
    case Resume(client, id, now) =>
      if client == "" || id == "" || id !in t.models then t
      else t.(models := t.models[id := ClearSuspended(t.models[id], client, now)])
    case CleanupExpired(now) =>
      t.(models := map id | id in t.models :: WithoutExpired(t.models[id], now))
  }

  function Run(t: Tables, events: seq<Event>): Tables {
    if events == [] then t
    else Apply(Run(t, events[..|events| - 1]), events[|events| - 1])
  }

  lemma RunOne(t: Tables, events: seq<Event>, e: Event)
    ensures Run(t, events + [e]) == Apply(Run(t, events), e)
  {
    assert (events + [e])[..|events|] == events;
  }

  // ----- counters in every reachable state

  /** `s` differs from `t` only in quota marks, suspension marks and update times. */
  ghost predicate SameCounters(t: Tables, s: Tables) {
    && s.clientModels == t.clientModels
    && s.clientInfos == t.clientInfos
    && s.clientProviders == t.clientProviders
    && s.models.Keys == t.models.Keys
    && forall id :: id in t.models ==> SameButMarks(t.models[id], s.models[id])
  }

  lemma SameCountersConsistent(t: Tables, s: Tables)
    requires Consistent(t) && SameCounters(t, s)
    ensures Consistent(s)
  {
    forall id ensures Counted(s, id) {
      assert Counted(t, id);
      SameShares(t, s, id);
      if id in s.models {
        forall p
          ensures p in s.models[id].providers <==> p != "" && TotalBy(s, p, id) > 0
          ensures p in s.models[id].providers ==> s.models[id].providers[p] == TotalBy(s, p, id)
        {
          SameSharesBy(t, s, p, id);
        }
      }
    }
  }

  lemma SameShares(t: Tables, s: Tables, id: string)
    requires s.clientModels == t.clientModels
    ensures Total(s, id) == Total(t, id)
  {
    assert Shares(s, id) == Shares(t, id);
  }

  lemma SameSharesBy(t: Tables, s: Tables, p: string, id: string)
    requires s.clientModels == t.clientModels && s.clientProviders == t.clientProviders
    ensures TotalBy(s, p, id) == TotalBy(t, p, id)
  {
    assert SharesBy(s, p, id) == SharesBy(t, p, id);
  }

  /** `b` differs from `a` only in marks and its update time. */
  ghost predicate SameButMarks(a: Registration, b: Registration) {
    b == a.(quotaExceeded := b.quotaExceeded, suspended := b.suspended, lastUpdated := b.lastUpdated)
  }

  lemma OneEntryKeepsCounters(t: Tables, id: string, r: Registration)
    requires id in t.models && SameButMarks(t.models[id], r)
    ensures SameCounters(t, t.(models := t.models[id := r]))
  {
  }

  lemma CleanupKeepsCounters(t: Tables, now: Time)
    ensures SameCounters(t, Apply(t, CleanupExpired(now)))
  {
  }

  lemma MarkEventKeepsCounters(t: Tables, e: Event)
    requires !e.Register? && !e.Unregister?
    ensures SameCounters(t, Apply(t, e))
  {
    match e
    case SetQuotaExceeded(client, id, now) =>
      if id in t.models {
        OneEntryKeepsCounters(t, id, MarkQuota(t.models[id], client, now));
      }
    case ClearQuotaExceeded(client, id) =>
      if id in t.models {
        OneEntryKeepsCounters(t, id, ClearQuota(t.models[id], client));
      }
    case Suspend(client, id, reason, now) =>
      if id in t.models {
        OneEntryKeepsCounters(t, id, MarkSuspended(t.models[id], client, reason, now));
      }
    case Resume(client, id, now) =>
      if id in t.models {
        OneEntryKeepsCounters(t, id, ClearSuspended(t.models[id], client, now));
      }
    case CleanupExpired(now) => CleanupKeepsCounters(t, now);
  }

  lemma EventConsistent(t: Tables, e: Event)
    requires Consistent(t)
    ensures Consistent(Apply(t, e))
  {
    match e
    case Register(client, provider, models, now) => SettledConsistent(t, client, Text.ToLower(provider), models, now);
    case Unregister(client, now) => SettledConsistent(t, client, "", [], now);
    case _ =>
      MarkEventKeepsCounters(t, e);
      SameCountersConsistent(t, Apply(t, e));
  }

  lemma EmptyConsistent()
    ensures Consistent(EMPTY) && MarksOwned(EMPTY)
  {
    forall id ensures Counted(EMPTY, id) {
      assert Shares(EMPTY, id) == map[];
    }
  }

  /** After any run, every counter is exactly what the clients' own lists add up to. */
  lemma {:induction false} CountersExactInEveryRun(events: seq<Event>)
    ensures Consistent(Run(EMPTY, events))
  {
    if events == [] {
      EmptyConsistent();
    } else {
      CountersExactInEveryRun(events[..|events| - 1]);
      EventConsistent(Run(EMPTY, events[..|events| - 1]), events[|events| - 1]);
    }
  }

  // ----- marks

  /** Quota and suspension setters name only clients that list the model. */
  ghost predicate Disciplined(t: Tables, e: Event) {
    (e.SetQuotaExceeded? || e.Suspend?) && e.id in t.models ==> Listed(t, e.client, e.id) > 0
  }

  ghost predicate DisciplinedRun(events: seq<Event>) {
    forall i :: 0 <= i < |events| ==> Disciplined(Run(EMPTY, events[..i]), events[i])
  }

  ghost predicate Marked(t: Tables, c: string, id: string) {
    id in t.models && (c in t.models[id].quotaExceeded || c in t.models[id].suspended)
  }

  lemma MarkSource(t: Tables, e: Event, c: string, id: string)
    requires !e.Register? && !e.Unregister?
    requires Marked(Apply(t, e), c, id)
    ensures Marked(t, c, id) || ((e.SetQuotaExceeded? || e.Suspend?) && e.client == c && e.id == id && id in t.models)
  {
  }

  lemma EventMarksOwned(t: Tables, e: Event)
    requires Consistent(t) && MarksOwned(t) && Disciplined(t, e)
    ensures MarksOwned(Apply(t, e))
  {
    match e
    case Register(client, provider, models, now) => SettledMarksOwned(t, client, Text.ToLower(provider), models, now);
    case Unregister(client, now) => SettledMarksOwned(t, client, "", [], now);
    case _ =>
      MarkEventKeepsCounters(t, e);
      forall id, c | Marked(Apply(t, e), c, id)
        ensures Listed(Apply(t, e), c, id) > 0
      {
        MarkSource(t, e, c, id);
      }
  }

  lemma {:induction false} MarksOwnedInEveryRun(events: seq<Event>)
    requires DisciplinedRun(events)
    ensures MarksOwned(Run(EMPTY, events))
  {
    if events == [] {
      EmptyConsistent();
    } else {
      var prior := events[..|events| - 1];
      forall i | 0 <= i < |prior| ensures Disciplined(Run(EMPTY, prior[..i]), prior[i]) {
        assert prior[..i] == events[..i];
      }
      MarksOwnedInEveryRun(prior);
      CountersExactInEveryRun(prior);
      EventMarksOwned(Run(EMPTY, prior), events[|events| - 1]);
    }
  }

  /**
   * In every state reached with marks set only for clients that list the model, registering a
   * client is the same as unregistering it first.
   */
  lemma RegisterIsUnregisterThenRegister(
    events: seq<Event>, client: string, provider: string, models: seq<Option<ModelInfo>>, now: Time)
    requires DisciplinedRun(events)
    ensures var register := Event.Register(client, provider, models, now);
            Run(EMPTY, events + [register]) == Run(EMPTY, events + [Unregister(client, now), register])
  {
    var register := Event.Register(client, provider, models, now);
    var t := Run(EMPTY, events);
    CountersExactInEveryRun(events);
    MarksOwnedInEveryRun(events);
    OwnedMarksAreNotForeign(t, client, models);
    ReconcileIsFreshRegistration(t, client, Text.ToLower(provider), models, now);
    RunOne(EMPTY, events, register);
    RunOne(EMPTY, events, Unregister(client, now));
    RunOne(EMPTY, events + [Unregister(client, now)], register);
    assert events + [Unregister(client, now)] + [register] == events + [Unregister(client, now), register];
  }

  lemma MarkedForeign(
    t: Tables, client: string, other: string, id: string, models: seq<Option<ModelInfo>>, marked: Time)
    requires SoleReturn(t, client, models, id) && other != client
    ensures !NoForeignMarks(Apply(t, SetQuotaExceeded(other, id, marked)), client, models)
  {
    var s := Apply(t, SetQuotaExceeded(other, id, marked));
    assert other in s.models[id].quotaExceeded;
    assert !NoForeignMarksOn(s, client, models, id);
  }

  /** A mark set for a client that does not list the model tells the two apart. */
  lemma ForeignMarkSurvivesReconciliation(
    t: Tables, client: string, other: string, id: string, provider: string, models: seq<Option<ModelInfo>>,
    marked: Time, now: Time)
    requires Consistent(t) && SoleReturn(t, client, models, id) && other != client
    ensures var s := Apply(t, SetQuotaExceeded(other, id, marked));
            Settled(s, client, provider, models, now) != Settled(Unregistered(s, client, now), client, provider, models, now)
  {
    var e := SetQuotaExceeded(other, id, marked);
    EventConsistent(t, e);
    MarkedForeign(t, client, other, id, models, marked);
    ReconcileIsFreshRegistration(Apply(t, e), client, provider, models, now);
  }

  /** Such a state is one registration away from the empty registry. */
  lemma SoleReturnReachable()
    ensures var gpt := Some(ModelInfo("gpt", ""));
            SoleReturn(Run(EMPTY, [Event.Register("a", "openai", [gpt], 0)]), "a", [gpt], "gpt")
  {
    var gpt := Some(ModelInfo("gpt", ""));
    var e := Event.Register("a", "openai", [gpt], 0);
    assert [gpt][..0] == [];
    assert RawIds([gpt]) == ["gpt"] by {
      assert RawIds([]) == [];
    }
    RunOne(EMPTY, [], e);
    assert [] + [e] == [e];
    EmptyConsistent();
    SettledLookup(EMPTY, "a", Text.ToLower("openai"), [gpt], 0, "gpt");
    assert Lookup(EMPTY.models, "gpt") == None && Listed(EMPTY, "a", "gpt") == 0;
  }

  /** So does a mark a known client got before it listed the model: reconciling keeps it or clears it. */
  lemma EarlyMarkSurvivesReregistration(
    t: Tables, client: string, id: string, provider: string, models: seq<Option<ModelInfo>>, marked: Time, now: Time)
    requires Consistent(t) && NewToClient(t, client, models, id)
    ensures var s := Apply(t, SetQuotaExceeded(client, id, marked));
            Settled(s, client, provider, models, now) != Settled(Unregistered(s, client, now), client, provider, models, now)
  {
    var e := SetQuotaExceeded(client, id, marked);
    var s := Apply(t, e);
    EventConsistent(t, e);
    assert client in s.models[id].quotaExceeded;
    assert !NoForeignMarksOn(s, client, models, id);
    ReconcileIsFreshRegistration(s, client, provider, models, now);
  }

  lemma OneModel(m: ModelInfo)
    requires m.id != ""
    ensures RawIds([Some(m)]) == [m.id]
  {
    assert [Some(m)][..0] == [];
    assert RawIds([]) == [];
  }

  /** Two registrations reach such a state: the client lists one model and takes up another's. */
  lemma NewToClientReachable()
    ensures var x, y := Some(ModelInfo("x", "")), Some(ModelInfo("y", ""));
            var events := [Event.Register("b", "openai", [x], 0), Event.Register("a", "openai", [y], 0)];
            NewToClient(Run(EMPTY, events), "a", [x], "x")
  {
    var x, y := Some(ModelInfo("x", "")), Some(ModelInfo("y", ""));
    var first, second := Event.Register("b", "openai", [x], 0), Event.Register("a", "openai", [y], 0);
    OneModel(x.value);
    OneModel(y.value);
    RunOne(EMPTY, [], first);
    RunOne(EMPTY, [first], second);
    assert [] + [first] == [first] && [first] + [second] == [first, second];
    var t := Run(EMPTY, [first, second]);
    assert t.clientModels == map["b" := ["x"], "a" := ["y"]];
    CountersExactInEveryRun([first, second]);
    assert Counted(t, "x");
    ListedBounds(t, "b", "x");
  }
}
