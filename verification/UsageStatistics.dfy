/** The request statistics store: recording and importing update the aggregates in place. */
module UsageStatistics {
  import opened MapSum
  import opened Text
  import opened UsageFold
  import opened UsageMeasures
  import opened UsageMerge
  import opened UsageRuns
  import opened UsageRebuild

  // ----- keys of a part of the store

  ghost function ModelKeys(key: (string, string, Detail) -> string, a: string, m: string, ds: seq<Detail>): set<string> {
    set i | 0 <= i < |ds| :: key(a, m, ds[i])
  }

  ghost function ApiKeys(
    key: (string, string, Detail) -> string, a: string, models: map<string, ModelStats>, names: set<string>): set<string>
  {
    set m, i | m in names && m in models && 0 <= i < |models[m].details| :: key(a, m, models[m].details[i])
  }

  ghost function KeysIn(
    key: (string, string, Detail) -> string, apis: map<string, ApiStats>, names: set<string>): set<string>
  {
    set a, m, i | a in names && a in apis && m in apis[a].models && 0 <= i < |apis[a].models[m].details|
      :: key(a, m, apis[a].models[m].details[i])
  }

  lemma ModelKeysAppend(key: (string, string, Detail) -> string, a: string, m: string, ds: seq<Detail>, i: nat)
    requires i < |ds|
    ensures ModelKeys(key, a, m, ds[..i + 1]) == ModelKeys(key, a, m, ds[..i]) + {key(a, m, ds[i])}
  {
    var more, fewer := ds[..i + 1], ds[..i];
    assert more == fewer + [ds[i]];
    forall k ensures k in ModelKeys(key, a, m, more) <==> k in ModelKeys(key, a, m, fewer) || k == key(a, m, ds[i]) {
      if k in ModelKeys(key, a, m, fewer) {
        var j :| 0 <= j < |fewer| && key(a, m, fewer[j]) == k;
        assert more[j] == fewer[j];
      }
      assert more[i] == ds[i];
    }
  }

  lemma ApiKeysAdd(
    key: (string, string, Detail) -> string, a: string, models: map<string, ModelStats>, names: set<string>, m: string)
    requires m in models
    ensures ApiKeys(key, a, models, names + {m}) == ApiKeys(key, a, models, names) + ModelKeys(key, a, m, models[m].details)
  {
  }

  lemma KeysInAdd(key: (string, string, Detail) -> string, apis: map<string, ApiStats>, names: set<string>, a: string)
    requires a in apis
    ensures KeysIn(key, apis, names + {a})
         == KeysIn(key, apis, names) + ApiKeys(key, a, apis[a].models, apis[a].models.Keys)
  {
  }

  method CollectModel(key: (string, string, Detail) -> string, a: string, m: string, ds: seq<Detail>, before: set<string>)
    returns (seen: set<string>)
    ensures seen == before + ModelKeys(key, a, m, ds)
  {
    seen := before;
    for i := 0 to |ds|
      invariant seen == before + ModelKeys(key, a, m, ds[..i])
    {
      ModelKeysAppend(key, a, m, ds, i);
      seen := seen + {key(a, m, ds[i])};
    }
    assert ds[..|ds|] == ds;
  }

  method CollectApi(
    key: (string, string, Detail) -> string, a: string, models: map<string, ModelStats>, before: set<string>)
    returns (seen: set<string>)
    ensures seen == before + ApiKeys(key, a, models, models.Keys)
  {
    seen := before;
    var todo := models.Keys;
    while todo != {}
      invariant todo <= models.Keys
      invariant seen == before + ApiKeys(key, a, models, models.Keys - todo)
      decreases todo
    {
      var m :| m in todo;
      ApiKeysAdd(key, a, models, models.Keys - todo, m);
      assert models.Keys - (todo - {m}) == models.Keys - todo + {m};
      seen := CollectModel(key, a, m, models[m].details, seen);
      todo := todo - {m};
    }
    assert models.Keys - {} == models.Keys;
  }

  method CollectKeys(key: (string, string, Detail) -> string, apis: map<string, ApiStats>) returns (seen: set<string>)
    ensures seen == StoredKeys(apis, key)
  {
    seen := {};
    var todo := apis.Keys;
    while todo != {}
      invariant todo <= apis.Keys
      invariant seen == KeysIn(key, apis, apis.Keys - todo)
      decreases todo
    {
      var a :| a in todo;
      KeysInAdd(key, apis, apis.Keys - todo, a);
      assert apis.Keys - (todo - {a}) == apis.Keys - todo + {a};
      seen := CollectApi(key, a, apis[a].models, seen);
      todo := todo - {a};
    }
    assert apis.Keys - {} == apis.Keys;
    assert KeysIn(key, apis, apis.Keys) == StoredKeys(apis, key);
  }

  // ----- one more place on a tour

  lemma InOrderAppend(tour: seq<Place>, p: Place)
    requires InOrder(tour) && (p.At? ==> OnTime(tour, p))
    ensures InOrder(tour + [p])
  {
    var more := tour + [p];
    forall n | 0 <= n < |more| && more[n].At? ensures OnTime(more[..n], more[n]) {
      if n < |tour| {
        assert more[..n] == tour[..n];
      } else {
        assert more[..n] == tour;
      }
    }
  }

  lemma WalkAppend(job: Job, m: Merge, tour: seq<Place>, p: Place)
    requires Within(tour, job.snap) && Belongs(p, job.snap)
    ensures Within(tour + [p], job.snap) && Walk(job, m, tour + [p]) == Step(job, Walk(job, m, tour), p)
  {
    assert (tour + [p])[..|tour|] == tour;
  }

  /** `tour` is `start` and the first `n` details of a model. */
  ghost predicate Extends(start: seq<Place>, tour: seq<Place>, api: string, model: string, n: nat) {
    forall p :: p in tour <==> p in start || (p.At? && p.api == api && p.model == model && p.index < n)
  }

  lemma NextStop(start: seq<Place>, tour: seq<Place>, api: string, model: string, n: nat)
    requires InOrder(tour) && Extends(start, tour, api, model, n) && forall j: nat :: At(api, model, j) !in start
    ensures InOrder(tour + [At(api, model, n)]) && Extends(start, tour + [At(api, model, n)], api, model, n + 1)
  {
    assert OnTime(tour, At(api, model, n));
    InOrderAppend(tour, At(api, model, n));
  }

  // ----- the store

  method UpdateTimeWindow(first: Time, last: Time, timestamp: Time) returns (first': Time, last': Time)
    ensures timestamp == 0 ==> first' == first && last' == last
    ensures timestamp != 0 ==> first' == (if first == 0 || timestamp < first then timestamp else first)
    ensures timestamp != 0 ==> last' == (if last == 0 || timestamp > last then timestamp else last)
  {
    first', last' := first, last;
    if timestamp == 0 {
      return;
    }
    if first == 0 || timestamp < first {
      first' := timestamp;
    }
    if last == 0 || timestamp > last {
      last' := timestamp;
    }
  }

  /** One more detail in a set of counters: the statements shared by the API and the model level. */
  method CountDetail(c: Counters, d: Detail) returns (out: Counters)
    ensures out == Bump(c, d, d.tokens.total)
  {
    out := c.(requests := c.requests + 1, tokens := c.tokens + d.tokens.total,
              inputTokens := c.inputTokens + d.tokens.input, cachedTokens := c.cachedTokens + d.tokens.cached);
    if d.latencyMs > 0 {
      out := out.(latencyMs := out.latencyMs + d.latencyMs, latencySamples := out.latencySamples + 1);
    }
    if d.firstByteMs > 0 {
      out := out.(firstByteMs := out.firstByteMs + d.firstByteMs, firstByteSamples := out.firstByteSamples + 1);
    }
    var first, last := UpdateTimeWindow(c.first, c.last, d.timestamp.instant);
    out := out.(first := first, last := last);
  }

  method UpdateApiStats(stats: ApiStats, model: string, d: Detail) returns (out: ApiStats)
    ensures out == AddToApi(stats, model, d)
  {
    var counters := CountDetail(stats.counters, d);
    var ms := ModelStats(ZERO, []);
    if model in stats.models {
      ms := stats.models[model];
    }
    var modelCounters := CountDetail(ms.counters, d);
    ms := ModelStats(modelCounters, ms.details + [d]);
    out := ApiStats(counters, stats.models[model := ms]);
  }

  class RequestStatistics {
    var totalRequests: int
    var successCount: int
    var failureCount: int
    var totalTokens: int
    var totalInputTokens: int
    var totalCachedTokens: int
    var totalLatencyMs: int
    var latencySamples: int
    var totalFirstByteMs: int
    var firstByteSamples: int
    var firstRequestAt: Time
    var lastRequestAt: Time
    var apis: map<string, ApiStats>
    var requestsByDay: map<int, int>
    var requestsByHour: map<int, int>
    var tokensByDay: map<int, int>
    var tokensByHour: map<int, int>

    ghost function Totals(): Counters
      reads this
    {
      Counters(totalRequests, totalTokens, totalInputTokens, totalCachedTokens, totalLatencyMs, latencySamples,
               totalFirstByteMs, firstByteSamples, firstRequestAt, lastRequestAt)
    }

    ghost function State(): Stats
      reads this
    {
      Stats(Totals(), successCount, failureCount, apis, requestsByDay, requestsByHour, tokensByDay, tokensByHour)
    }

    constructor ()
      ensures State() == EMPTY
    {
      totalRequests, successCount, failureCount := 0, 0, 0;
      totalTokens, totalInputTokens, totalCachedTokens := 0, 0, 0;
      totalLatencyMs, latencySamples, totalFirstByteMs, firstByteSamples := 0, 0, 0, 0;
      firstRequestAt, lastRequestAt := 0, 0;
      apis := map[];
      requestsByDay, requestsByHour, tokensByDay, tokensByHour := map[], map[], map[], map[];
    }

    method CountOutcome(d: Detail)
      modifies this`successCount, this`failureCount
      ensures successCount == old(successCount) + Value(Successes, d)
      ensures failureCount == old(failureCount) + Value(Failures, d)
    {
      if d.failed {
        failureCount := failureCount + 1;
      } else {
        successCount := successCount + 1;
      }
    }

    method CountTokens(d: Detail, tokens: int)
      modifies this`totalTokens, this`totalInputTokens, this`totalCachedTokens
      ensures totalTokens == old(totalTokens) + tokens
      ensures totalInputTokens == old(totalInputTokens) + d.tokens.input
      ensures totalCachedTokens == old(totalCachedTokens) + d.tokens.cached
    {
      totalTokens := totalTokens + tokens;
      totalInputTokens := totalInputTokens + d.tokens.input;
      totalCachedTokens := totalCachedTokens + d.tokens.cached;
    }

    method CountLatencies(d: Detail)
      modifies this`totalLatencyMs, this`latencySamples, this`totalFirstByteMs, this`firstByteSamples
      ensures totalLatencyMs == old(totalLatencyMs) + Value(Latency, d)
      ensures latencySamples == old(latencySamples) + Value(LatencySamples, d)
      ensures totalFirstByteMs == old(totalFirstByteMs) + Value(FirstByte, d)
      ensures firstByteSamples == old(firstByteSamples) + Value(FirstByteSamples, d)
    {
      if d.latencyMs > 0 {
        totalLatencyMs := totalLatencyMs + d.latencyMs;
        latencySamples := latencySamples + 1;
      }
      if d.firstByteMs > 0 {
        totalFirstByteMs := totalFirstByteMs + d.firstByteMs;
        firstByteSamples := firstByteSamples + 1;
      }
    }

    /** The global part of one more detail: counters, outcomes, latencies and the window. */
    method CountGlobally(d: Detail, tokens: int)
      modifies this`totalRequests, this`successCount, this`failureCount, this`totalTokens, this`totalInputTokens
      modifies this`totalCachedTokens, this`totalLatencyMs, this`latencySamples, this`totalFirstByteMs
      modifies this`firstByteSamples, this`firstRequestAt, this`lastRequestAt
      ensures Totals() == Bump(old(Totals()), d, tokens)
      ensures successCount == old(successCount) + Value(Successes, d)
      ensures failureCount == old(failureCount) + Value(Failures, d)
    {
      totalRequests := totalRequests + 1;
      CountOutcome(d);
      CountTokens(d, tokens);
      CountLatencies(d);
      firstRequestAt, lastRequestAt := UpdateTimeWindow(firstRequestAt, lastRequestAt, d.timestamp.instant);
    }

    method CountInBuckets(timestamp: Moment, tokens: int)
      modifies this`requestsByDay, this`requestsByHour, this`tokensByDay, this`tokensByHour
      ensures requestsByDay == AddTo(old(requestsByDay), DayOf(timestamp), 1)
      ensures requestsByHour == AddTo(old(requestsByHour), HourOf(timestamp), 1)
      ensures tokensByDay == AddTo(old(tokensByDay), DayOf(timestamp), tokens)
      ensures tokensByHour == AddTo(old(tokensByHour), HourOf(timestamp), tokens)
    {
      var day, hour := DayOf(timestamp), HourOf(timestamp);
      requestsByDay := requestsByDay[day := Get(requestsByDay, day) + 1];
      requestsByHour := requestsByHour[hour := Get(requestsByHour, hour) + 1];
      tokensByDay := tokensByDay[day := Get(tokensByDay, day) + tokens];
      tokensByHour := tokensByHour[hour := Get(tokensByHour, hour) + tokens];
    }

    /** Records a request, unless statistics are switched off. */
    method Record(r: Request, now: Moment, enabled: bool)
      modifies this
      ensures State() == if enabled then Recorded(old(State()), r, now) else old(State())
      ensures enabled ==> CountsOnce(old(Totals()), Totals(), r) && CountsLatencies(old(Totals()), Totals(), r)
      ensures enabled ==> CountsOutcome(old(State()), State(), r)
      ensures enabled ==> CountsInBuckets(old(State()), State(), r, MadeAt(r, now))
      ensures enabled ==> StoresDetail(old(State()), State(), r, MadeAt(r, now))
    {
      if !enabled {
        return;
      }
      var timestamp := r.requestedAt;
      if timestamp.instant == 0 {
        timestamp := now;
      }
      var tokens := Normalise(r.tokens);
      var failed := r.failed;
      if !failed {
        failed := !(r.status == 0 || r.status < 400);
      }
      var d := Detail(timestamp, Milliseconds(r.latency), Milliseconds(r.firstByte), r.source, r.authIndex, tokens, failed);
      assert d == DetailFor(r, now);
      ghost var before := State();
      RecordDetail(StatsKey(r), RecordModel(r), d);
      RecordedCounts(before, r, now, State());
      RecordedBuckets(before, r, now, State());
      RecordedDetails(before, r, now, State());
    }

    /** The part of recording that runs under the lock. */
    method RecordDetail(api: string, model: string, d: Detail)
      modifies this
      ensures State() == Add(old(State()), api, model, d, d.tokens.total)
    {
      CountGlobally(d, d.tokens.total);
      StoreDetail(api, model, d);
      CountInBuckets(d.timestamp, d.tokens.total);
    }

    method StoreDetail(api: string, model: string, d: Detail)
      modifies this`apis
      ensures apis == Stored(old(apis), api, model, d)
    {
      if api !in apis {
        apis := apis[api := ApiStats(ZERO, map[])];
      }
      var stats := UpdateApiStats(apis[api], model, d);
      apis := apis[api := stats];
    }

    method RecordImported(api: string, model: string, d: Detail)
      requires api in apis
      modifies this
      ensures State() == Import(old(State()), api, model, d)
    {
      var tokens := d.tokens.total;
      if tokens < 0 {
        tokens := 0;
      }
      CountGlobally(d, tokens);
      StoreDetail(api, model, d);
      CountInBuckets(d.timestamp, tokens);
    }

    /** The merge state made of the store and the counters of a running import. */
    ghost function Reached(seen: set<string>, added: nat, skipped: nat): Merge
      reads this
    {
      Merge(State(), seen, added, skipped)
    }

    /** The body of the innermost loop: a detail whose key was seen is skipped, any other is recorded. */
    method MergeDetail(job: Job, api: string, model: string, d: Detail, seen: set<string>, added: nat, skipped: nat)
      returns (seen': set<string>, added': nat, skipped': nat)
      requires api in apis
      modifies this
      ensures api in apis
      ensures job.key(api, model, d) in seen ==>
        Reached(seen', added', skipped') == old(Reached(seen, added, skipped)).(skipped := skipped + 1)
      ensures job.key(api, model, d) !in seen ==>
        Reached(seen', added', skipped')
        == Merge(Import(old(State()), api, model, d), seen + {job.key(api, model, d)}, added + 1, skipped)
    {
      seen', added', skipped' := seen, added, skipped;
      var key := job.key(api, model, d);
      if key in seen {
        skipped' := skipped + 1;
        return;
      }
      seen' := seen + {key};
      RecordImported(api, model, d);
      added' := added + 1;
    }

    /** The innermost loop: the details of one model of the snapshot. */
    method MergeModel(
      job: Job, api: string, model: string, ghost begun: Merge, ghost tour: seq<Place>,
      seen: set<string>, added: nat, skipped: nat)
      returns (seen': set<string>, added': nat, skipped': nat, ghost tour': seq<Place>)
      requires Belongs(Open(api), job.snap) && model in job.snap[api] && TrimSpace(api) in apis
      requires Within(tour, job.snap) && InOrder(tour) && forall j: nat :: At(api, model, j) !in tour
      requires Reached(seen, added, skipped) == Walk(job, begun, tour)
      modifies this
      ensures Within(tour', job.snap) && InOrder(tour')
      ensures Extends(tour, tour', api, model, |job.snap[api][model]|)
      ensures Reached(seen', added', skipped') == Walk(job, begun, tour') && TrimSpace(api) in apis
    {
      seen', added', skipped', tour' := seen, added, skipped, tour;
      var name, modelName := TrimSpace(api), ModelName(model);
      var ds := job.snap[api][model];
      for i := 0 to |ds|
        invariant Within(tour', job.snap) && InOrder(tour') && name in apis
        invariant Extends(tour, tour', api, model, i)
        invariant Reached(seen', added', skipped') == Walk(job, begun, tour')
      {
        ghost var p := At(api, model, i);
        NextStop(tour, tour', api, model, i);
        WalkAppend(job, begun, tour', p);
        tour' := tour' + [p];
        var d := Prepare(ds[i], job.clock(At(api, model, i)));
        seen', added', skipped' := MergeDetail(job, name, modelName, d, seen', added', skipped');
      }
    }

    /** The middle loop: one API of the snapshot, opened even if it has no details. */
    method MergeApi(
      job: Job, api: string, ghost begun: Merge, ghost tour: seq<Place>, seen: set<string>, added: nat, skipped: nat)
      returns (seen': set<string>, added': nat, skipped': nat, ghost tour': seq<Place>)
      requires Belongs(Open(api), job.snap)
      requires Within(tour, job.snap) && InOrder(tour) && forall p :: p in tour ==> p.api != api
      requires Reached(seen, added, skipped) == Walk(job, begun, tour)
      modifies this
      ensures Within(tour', job.snap) && InOrder(tour')
      ensures forall p :: p in tour' <==> p in tour || (p.api == api && Belongs(p, job.snap))
      ensures Reached(seen', added', skipped') == Walk(job, begun, tour')
    {
      seen', added', skipped' := seen, added, skipped;
      InOrderAppend(tour, Open(api));
      WalkAppend(job, begun, tour, Open(api));
      tour' := tour + [Open(api)];
      var name := TrimSpace(api);
      if name !in apis {
        apis := apis[name := ApiStats(ZERO, map[])];
      } else {
        assert apis[name := apis[name]] == apis;
      }
      var models := job.snap[api];
      var todo := models.Keys;
      while todo != {}
        invariant todo <= models.Keys && name in apis
        invariant Within(tour', job.snap) && InOrder(tour')
        invariant forall p :: p in tour' <==>
          p in tour || (p.api == api && Belongs(p, job.snap) && (p.At? ==> p.model !in todo))
        invariant Reached(seen', added', skipped') == Walk(job, begun, tour')
        decreases todo
      {
        var model :| model in todo;
        todo := todo - {model};
        seen', added', skipped', tour' := MergeModel(job, api, model, begun, tour', seen', added', skipped');
      }
    }

    /** The import goes through the whole snapshot along some tour. */
    method MergeSnapshot(job: Job) returns (added: nat, skipped: nat, ghost tour: seq<Place>)
      modifies this
      ensures IsTour(tour, job.snap)
      ensures var m := Merged(job, old(State()), tour);
        State() == m.stats && added == m.added && skipped == m.skipped
    {
      ghost var begun := Start(job, State());
      var seen := CollectKeys(job.key, apis);
      added, skipped, tour := 0, 0, [];
      var todo := job.snap.Keys;
      while todo != {}
        invariant todo <= job.snap.Keys
        invariant Within(tour, job.snap) && InOrder(tour)
        invariant forall p :: p in tour <==> Belongs(p, job.snap) && p.api !in todo
        invariant Reached(seen, added, skipped) == Walk(job, begun, tour)
        decreases todo
      {
        var api :| api in todo;
        todo := todo - {api};
        if TrimSpace(api) == "" {
          continue;
        }
        seen, added, skipped, tour := MergeApi(job, api, begun, tour, seen, added, skipped);
      }
    }

    /** A copy of the aggregates and the details. */
    method Snapshot() returns (snap: Snapshot)
      ensures snap == SnapshotOf(State()) && Shows(snap, State())
    {
      var copies: map<string, ApiSnapshot> := map[];
      var todo := apis.Keys;
      while todo != {}
        invariant todo <= apis.Keys
        invariant forall a :: a in copies <==> a in apis && a !in todo
        invariant forall a :: a in copies ==> copies[a] == ApiSnapshotOf(apis[a])
        decreases todo
      {
        var a :| a in todo;
        todo := todo - {a};
        var models := CopyModels(apis[a].models);
        copies := copies[a := ApiSnapshot(SummaryOf(apis[a].counters), models)];
      }
      snap := UsageRebuild.Snapshot.Snapshot(
        Summary(totalRequests, totalTokens, totalInputTokens, totalCachedTokens,
                Average(totalLatencyMs, latencySamples), Average(totalFirstByteMs, firstByteSamples)),
        successCount, failureCount, copies, requestsByDay, requestsByHour, tokensByDay, tokensByHour);
      assert copies == map a | a in apis :: ApiSnapshotOf(apis[a]);
      SnapshotShows(State(), snap);
    }
  }

  method CopyModels(models: map<string, ModelStats>) returns (copies: map<string, ModelSnapshot>)
    ensures copies == map m | m in models :: ModelSnapshotOf(models[m])
  {
    copies := map[];
    var todo := models.Keys;
    while todo != {}
      invariant todo <= models.Keys
      invariant forall m :: m in copies <==> m in models && m !in todo
      invariant forall m :: m in copies ==> copies[m] == ModelSnapshotOf(models[m])
      decreases todo
    {
      var m :| m in todo;
      todo := todo - {m};
      copies := copies[m := ModelSnapshot(SummaryOf(models[m].counters), models[m].details)];
    }
  }
}
