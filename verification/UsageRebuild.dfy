/** Rebuilding a statistics store from its own snapshot. */
module UsageRebuild {
  import opened Text
  import opened UsageFold
  import opened UsageMerge
  import opened UsageRuns
  import opened UsageClamped

  // ----- snapshots

  /** What a snapshot says of one level; the rates, which are floating-point numbers, are left out. */
  datatype Summary = Summary(
    requests: int, tokens: int, inputTokens: int, cachedTokens: int, averageLatencyMs: int, averageFirstByteMs: int)

  datatype ModelSnapshot = ModelSnapshot(summary: Summary, details: seq<Detail>)

  datatype ApiSnapshot = ApiSnapshot(summary: Summary, models: map<string, ModelSnapshot>)

  datatype Snapshot = Snapshot(
    summary: Summary, successes: int, failures: int, apis: map<string, ApiSnapshot>,
    requestsByDay: map<int, int>, requestsByHour: map<int, int>,
    tokensByDay: map<int, int>, tokensByHour: map<int, int>)

  function Average(total: int, samples: int): int {
    if total <= 0 || samples <= 0 then 0 else total / samples
  }

  function SummaryOf(c: Counters): Summary {
    Summary(c.requests, c.tokens, c.inputTokens, c.cachedTokens,
            Average(c.latencyMs, c.latencySamples), Average(c.firstByteMs, c.firstByteSamples))
  }

  function ModelSnapshotOf(ms: ModelStats): ModelSnapshot {
    ModelSnapshot(SummaryOf(ms.counters), ms.details)
  }

  function ApiSnapshotOf(stats: ApiStats): ApiSnapshot {
    ApiSnapshot(SummaryOf(stats.counters), map m | m in stats.models :: ModelSnapshotOf(stats.models[m]))
  }

  function SnapshotOf(s: Stats): Snapshot {
    Snapshot(SummaryOf(s.counters), s.successes, s.failures, map a | a in s.apis :: ApiSnapshotOf(s.apis[a]),
             s.requestsByDay, s.requestsByHour, s.tokensByDay, s.tokensByHour)
  }

  /** The part of a snapshot that an import goes through. */
  function Carried(snap: Snapshot): Export {
    map a | a in snap.apis :: map m | m in snap.apis[a].models :: snap.apis[a].models[m].details
  }

  /** The details of `apis`, by API and model. */
  function ExportOf(apis: map<string, ApiStats>): Export {
    map a | a in apis :: map m | m in apis[a].models :: apis[a].models[m].details
  }

  lemma SnapshotCarries(s: Stats)
    ensures Carried(SnapshotOf(s)) == ExportOf(s.apis)
  {
    var carried, expected := Carried(SnapshotOf(s)), ExportOf(s.apis);
    forall a | a in s.apis ensures carried[a] == expected[a] {
    }
  }

  ghost predicate CleanNames(apis: map<string, ApiStats>) {
    forall a :: a in apis ==>
      && TrimSpace(a) == a != ""
      && forall m :: m in apis[a].models ==> TrimSpace(m) == m != ""
  }

  ghost predicate DistinctKeys(job: Job) {
    forall p, q :: p in Places(job.snap) && q in Places(job.snap) && KeyAt(job, p) == KeyAt(job, q) ==> p == q
  }

  /** `built` holds, for each model, the part of its details that the tour has reached. */
  ghost predicate Replayed(apis: map<string, ApiStats>, built: map<string, ApiStats>, tour: seq<Place>) {
    && (forall a, m :: DetailsOf(built, a, m) <= DetailsOf(apis, a, m))
    && (forall a, m, j: nat :: At(a, m, j) in tour <==> j < |DetailsOf(built, a, m)|)
    && (forall a :: a in built ==> a in apis && built[a].models.Keys <= apis[a].models.Keys)
  }

  lemma PlaceOf(apis: map<string, ApiStats>, p: Place)
    requires p.At?
    ensures p in Places(ExportOf(apis)) <==> TrimSpace(p.api) != "" && p.index < |DetailsOf(apis, p.api, p.model)|
  {
  }

  lemma IncomingIsStored(s: Stats, job: Job, p: Place)
    requires job.snap == ExportOf(s.apis) && CleanNames(s.apis) && AllPrepared(s.apis)
    requires p.At? && Belongs(p, job.snap)
    ensures p.index < |DetailsOf(s.apis, p.api, p.model)| && Incoming(job, p) == DetailsOf(s.apis, p.api, p.model)[p.index]
    ensures TrimSpace(p.api) == p.api && ModelName(p.model) == p.model
  {
    assert Prepared(DetailsOf(s.apis, p.api, p.model)[p.index]);
  }

  lemma ReplayDetail(
    apis: map<string, ApiStats>, built: map<string, ApiStats>, front: seq<Place>, tour: seq<Place>, p: Place, d: Detail)
    requires Replayed(apis, built, front) && p.At? && OnTime(front, p) && tour == front + [p]
    requires p.index < |DetailsOf(apis, p.api, p.model)| && d == DetailsOf(apis, p.api, p.model)[p.index]
    ensures Replayed(apis, Stored(built, p.api, p.model, d), tour)
  {
    var more := Stored(built, p.api, p.model, d);
    assert |DetailsOf(built, p.api, p.model)| == p.index by {
      var n := |DetailsOf(built, p.api, p.model)|;
      assert At(p.api, p.model, n) in front <==> n < p.index;
      assert At(p.api, p.model, p.index) in front <==> p.index < n;
    }
    forall a, m
      ensures DetailsOf(more, a, m) <= DetailsOf(apis, a, m)
      ensures forall j: nat :: At(a, m, j) in tour <==> j < |DetailsOf(more, a, m)|
    {
      StoredDetails(built, p.api, p.model, d, a, m);
    }
  }

  lemma ReplayOpen(apis: map<string, ApiStats>, s: Stats, front: seq<Place>, tour: seq<Place>, api: string)
    requires Replayed(apis, s.apis, front) && api in apis && tour == front + [Open(api)]
    ensures Replayed(apis, OpenApi(s, api).apis, tour)
  {
    forall a, m ensures DetailsOf(OpenApi(s, api).apis, a, m) == DetailsOf(s.apis, a, m) {
      OpenDetails(s, api, a, m);
    }
    forall a, m, j: nat ensures At(a, m, j) in tour <==> At(a, m, j) in front {
    }
  }

  lemma NotSeen(job: Job, front: seq<Place>, p: Place)
    requires DistinctKeys(job) && Within(front, job.snap) && p.At? && Belongs(p, job.snap) && OnTime(front, p)
    ensures KeyAt(job, p) !in KeysOn(job, front)
  {
    assert p == At(p.api, p.model, p.index) && p !in front;
    if KeyAt(job, p) in KeysOn(job, front) {
      var q :| q in front && q.At? && KeyAt(job, q) == KeyAt(job, p);
      BelongsIffPlace(p, job.snap);
      BelongsIffPlace(q, job.snap);
    }
  }

  lemma {:induction false} Replay(s: Stats, job: Job, tour: seq<Place>)
    requires job.snap == ExportOf(s.apis) && CleanNames(s.apis) && AllPrepared(s.apis) && DistinctKeys(job)
    requires Within(tour, job.snap) && InOrder(tour)
    ensures Replayed(s.apis, Merged(job, EMPTY, tour).stats.apis, tour)
  {
    if tour != [] {
      var p, front := tour[|tour| - 1], tour[..|tour| - 1];
      var m := Start(job, EMPTY);
      var w := Walk(job, m, front);
      assert Belongs(p, job.snap);
      SplitLast(tour);
      Replay(s, job, front);
      SeenGrows(job, m, front);
      if p.Open? {
        ReplayOpen(s.apis, w.stats, front, tour, p.api);
      } else {
        IncomingIsStored(s, job, p);
        NotSeen(job, front, p);
        ReplayDetail(s.apis, w.stats.apis, front, tour, p, Incoming(job, p));
      }
    }
  }

  lemma ReplayedDetails(s: Stats, built: Stats, tour: seq<Place>, a: string, m: string)
    requires CleanNames(s.apis) && IsTour(tour, ExportOf(s.apis)) && Replayed(s.apis, built.apis, tour)
    ensures DetailsOf(built.apis, a, m) == DetailsOf(s.apis, a, m)
  {
    var n := |DetailsOf(built.apis, a, m)|;
    assert DetailsOf(built.apis, a, m) <= DetailsOf(s.apis, a, m);
    PlaceOf(s.apis, At(a, m, n));
    BelongsIffPlace(At(a, m, n), ExportOf(s.apis));
    assert At(a, m, n) !in tour;
  }

  /** No stored model is without details. */
  ghost predicate NoEmptyModel(apis: map<string, ApiStats>) {
    forall a, m :: a in apis && m in apis[a].models ==> DetailsOf(apis, a, m) != []
  }

  lemma StandingHasNoEmptyModel(s: Stats)
    requires ApisOk(s.apis)
    ensures NoEmptyModel(s.apis)
  {
    forall a, m | a in s.apis && m in s.apis[a].models ensures DetailsOf(s.apis, a, m) != [] {
      assert ApiOk(s.apis[a]);
      assert ModelOk(s.apis[a].models[m]);
    }
  }

  lemma ReplayedFully(s: Stats, built: Stats, tour: seq<Place>)
    requires NoEmptyModel(s.apis) && CleanNames(s.apis)
    requires IsTour(tour, ExportOf(s.apis)) && Replayed(s.apis, built.apis, tour)
    requires forall a :: a in s.apis ==> a in built.apis
    ensures SameDetails(built.apis, s.apis)
  {
    forall a, m ensures DetailsOf(built.apis, a, m) == DetailsOf(s.apis, a, m) {
      ReplayedDetails(s, built, tour, a, m);
    }
    SameDetailsIf(built.apis, s.apis);
  }

  lemma SameDetailsIf(built: map<string, ApiStats>, apis: map<string, ApiStats>)
    requires NoEmptyModel(apis) && built.Keys == apis.Keys
    requires forall a :: a in built ==> built[a].models.Keys <= apis[a].models.Keys
    requires forall a, m :: DetailsOf(built, a, m) == DetailsOf(apis, a, m)
    ensures SameDetails(built, apis)
  {
    forall a, m | a in apis && m in apis[a].models
      ensures m in built[a].models && built[a].models[m].details == apis[a].models[m].details
    {
      assert DetailsOf(built, a, m) == DetailsOf(apis, a, m) != [];
    }
  }

  /**
   * Importing a store's own snapshot into an empty store rebuilds it exactly, aggregates and details, in
   * whatever order the maps are iterated, if and only if its aggregates are what importing its details
   * makes them.
   */
  lemma RebuildIff(s: Stats, job: Job, tour: seq<Place>)
    requires Standing(s) && AllPrepared(s.apis) && CleanNames(s.apis)
    requires job.snap == Carried(SnapshotOf(s)) && IsTour(tour, job.snap) && DistinctKeys(job) && Ticking(job)
    ensures Merged(job, EMPTY, tour).stats == s <==> AsImported(s)
  {
    var built := Merged(job, EMPTY, tour).stats;
    SnapshotCarries(s);
    StandingHasNoEmptyModel(s);
    RebuildSame(s, job, tour);
    RebuildStanding(job, Start(job, EMPTY), built, tour);
    RebuiltAsImported(job, Start(job, EMPTY), built, tour);
    if AsImported(s) {
      ImportedDetailsDetermineAll(built, s);
    }
  }

  /** A store with exact aggregates is rebuilt if and only if no stored total is negative. */
  lemma RebuildExactIff(s: Stats, job: Job, tour: seq<Place>)
    requires Consistent(s) && AllPrepared(s.apis) && CleanNames(s.apis)
    requires job.snap == Carried(SnapshotOf(s)) && IsTour(tour, job.snap) && DistinctKeys(job) && Ticking(job)
    ensures Merged(job, EMPTY, tour).stats == s <==> TotalsNonNegative(s.apis)
  {
    RebuildIff(s, job, tour);
    ExactAsImportedIff(s);
  }

  /** The store of any run is rebuilt if and only if no detail it recorded has a negative total. */
  lemma RebuildInEveryRunIff(events: seq<Event>, job: Job, tour: seq<Place>)
    requires Legal(events) && CleanNames(Run(events).apis)
    requires job.snap == Carried(SnapshotOf(Run(events))) && IsTour(tour, job.snap) && DistinctKeys(job) && Ticking(job)
    ensures Merged(job, EMPTY, tour).stats == Run(events) <==> NonNegative(RecordedIn(events))
  {
    StandingInEveryRun(events);
    PreparedInEveryRun(events);
    RebuildIff(Run(events), job, tour);
    AsImportedInEveryRunIff(events);
  }

  lemma EmptyStanding(empty: Stats)
    requires empty == EMPTY
    ensures Standing(empty)
  {
    EmptyConsistent();
  }

  lemma RebuildStanding(job: Job, m: Merge, built: Stats, tour: seq<Place>)
    requires Within(tour, job.snap) && Ticking(job) && m.stats == EMPTY && built == Walk(job, m, tour).stats
    ensures Standing(built)
  {
    EmptyStanding(m.stats);
    WalkStanding(job, m, tour);
  }

  lemma RebuiltAsImported(job: Job, m: Merge, built: Stats, tour: seq<Place>)
    requires Within(tour, job.snap) && m.stats == EMPTY && built == Walk(job, m, tour).stats
    ensures AsImported(built)
  {
    forall f ensures Aggregate(built, f) == OverApis(Clamped(built.apis), f) {
      WalkShortfall(job, m, tour, f);
      EmptyShortfall(m.stats, f);
    }
  }

  lemma ImportedDetailsDetermineAll(a: Stats, b: Stats)
    requires Standing(a) && Standing(b) && AsImported(a) && AsImported(b) && SameDetails(a.apis, b.apis)
    ensures a == b
  {
    ApisUnique(a.apis, b.apis);
    forall f ensures Aggregate(a, f) == Aggregate(b, f) {
      assert Aggregate(a, f) == OverApis(Clamped(a.apis), f);
      assert Aggregate(b, f) == OverApis(Clamped(b.apis), f);
    }
    SameCounters(a, b);
    SameDays(a, b);
    SameHours(a, b);
  }

  lemma RebuildSame(s: Stats, job: Job, tour: seq<Place>)
    requires NoEmptyModel(s.apis) && AllPrepared(s.apis) && CleanNames(s.apis)
    requires job.snap == ExportOf(s.apis) && IsTour(tour, job.snap) && DistinctKeys(job)
    ensures SameDetails(Merged(job, EMPTY, tour).stats.apis, s.apis)
  {
    Replay(s, job, tour);
    RebuildOpens(s, job, tour);
    ReplayedFully(s, Merged(job, EMPTY, tour).stats, tour);
  }

  lemma RebuildOpens(s: Stats, job: Job, tour: seq<Place>)
    requires CleanNames(s.apis) && job.snap == ExportOf(s.apis) && IsTour(tour, job.snap)
    ensures forall a :: a in s.apis ==> a in Merged(job, EMPTY, tour).stats.apis
  {
    Opened(job, Start(job, EMPTY), tour);
    forall a | a in s.apis ensures a in Merged(job, EMPTY, tour).stats.apis {
      assert Belongs(Open(a), job.snap);
      assert Open(a) in tour;
    }
  }
}
