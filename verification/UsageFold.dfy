/** Usage statistics as a fold of the stored request details. */
module UsageFold {
  import opened MapSum

  /** Nanoseconds since the zero time. */
  type Time = int

  /** An instant as some clock shows it, `zone` ahead of universal time. */
  datatype Moment = Moment(instant: Time, zone: int)

  datatype Tokens = Tokens(input: int, output: int, reasoning: int, cached: int, total: int)

  datatype Detail = Detail(
    timestamp: Moment, latencyMs: int, firstByteMs: int,
    source: string, authIndex: string, tokens: Tokens, failed: bool)

  /** The counters kept at each level. */
  datatype Counters = Counters(
    requests: int, tokens: int, inputTokens: int, cachedTokens: int,
    latencyMs: int, latencySamples: int, firstByteMs: int, firstByteSamples: int,
    first: Time, last: Time)

  const ZERO := Counters(0, 0, 0, 0, 0, 0, 0, 0, 0, 0)

  datatype ModelStats = ModelStats(counters: Counters, details: seq<Detail>)

  datatype ApiStats = ApiStats(counters: Counters, models: map<string, ModelStats>)

  datatype Stats = Stats(
    counters: Counters, successes: int, failures: int, apis: map<string, ApiStats>,
    requestsByDay: map<int, int>, requestsByHour: map<int, int>,
    tokensByDay: map<int, int>, tokensByHour: map<int, int>)

  const EMPTY := Stats(ZERO, 0, 0, map[], map[], map[], map[], map[])

  function DayOf(m: Moment): int { (m.instant + m.zone) / 86_400_000_000_000 }

  function HourOf(m: Moment): int { (m.instant + m.zone) / 3_600_000_000_000 % 24 }

  // ----- what is measured of one detail

  datatype Metric =
    | Requests | TokenCount | InputCount | CachedCount
    | Latency | LatencySamples | FirstByte | FirstByteSamples
    | Successes | Failures
    | DayRequests(day: int) | DayTokens(day: int)
    | HourRequests(hour: int) | HourTokens(hour: int)

  function Value(f: Metric, d: Detail): int {
    match f
    case Requests => 1
    case TokenCount => d.tokens.total
    case InputCount => d.tokens.input
    case CachedCount => d.tokens.cached
    case Latency => if d.latencyMs > 0 then d.latencyMs else 0
    case LatencySamples => if d.latencyMs > 0 then 1 else 0
    case FirstByte => if d.firstByteMs > 0 then d.firstByteMs else 0
    case FirstByteSamples => if d.firstByteMs > 0 then 1 else 0
    case Successes => if d.failed then 0 else 1
    case Failures => if d.failed then 1 else 0
    case DayRequests(day) => if DayOf(d.timestamp) == day then 1 else 0
    case DayTokens(day) => if DayOf(d.timestamp) == day then d.tokens.total else 0
    case HourRequests(hour) => if HourOf(d.timestamp) == hour then 1 else 0
    case HourTokens(hour) => if HourOf(d.timestamp) == hour then d.tokens.total else 0
  }

  // ----- sums over what is stored

  function SumDetails(ds: seq<Detail>, f: Metric): int {
    if ds == [] then 0 else SumDetails(ds[..|ds| - 1], f) + Value(f, ds[|ds| - 1])
  }

  ghost function PerModel(models: map<string, ModelStats>, f: Metric): map<string, int> {
    map m | m in models :: SumDetails(models[m].details, f)
  }

  ghost function OverModels(models: map<string, ModelStats>, f: Metric): int {
    Sum(PerModel(models, f))
  }

  ghost function PerApi(apis: map<string, ApiStats>, f: Metric): map<string, int> {
    map a | a in apis :: OverModels(apis[a].models, f)
  }

  ghost function OverApis(apis: map<string, ApiStats>, f: Metric): int {
    Sum(PerApi(apis, f))
  }

  function DetailsOf(apis: map<string, ApiStats>, api: string, model: string): seq<Detail> {
    if api in apis && model in apis[api].models then apis[api].models[model].details else []
  }

  ghost predicate StampIn(ds: seq<Detail>, t: Time) {
    exists i :: 0 <= i < |ds| && ds[i].timestamp.instant == t
  }

  // ----- the invariant

  /** Each counter is the sum of its measure, as `total` sums it. */
  ghost predicate Tallies(c: Counters, total: Metric -> int) {
    && c.requests == total(Requests)
    && c.tokens == total(TokenCount)
    && c.inputTokens == total(InputCount)
    && c.cachedTokens == total(CachedCount)
    && c.latencyMs == total(Latency)
    && c.latencySamples == total(LatencySamples)
    && c.firstByteMs == total(FirstByte)
    && c.firstByteSamples == total(FirstByteSamples)
  }

  /** The window is zero when nothing is stored, and else spans exactly the stored timestamps. */
  ghost predicate Spans(c: Counters, stamped: Time -> bool) {
    && !stamped(0)
    && ((c.first == 0 && c.last == 0 && forall t :: !stamped(t))
        || (stamped(c.first) && stamped(c.last) && forall t :: stamped(t) ==> c.first <= t <= c.last))
  }

  ghost function ModelTotal(ds: seq<Detail>): Metric -> int {
    (f: Metric) => SumDetails(ds, f)
  }

  ghost function ModelStamps(ds: seq<Detail>): Time -> bool {
    t => StampIn(ds, t)
  }

  ghost function ApiTotal(models: map<string, ModelStats>): Metric -> int {
    (f: Metric) => OverModels(models, f)
  }

  ghost function ApiStamps(models: map<string, ModelStats>): Time -> bool {
    t => exists m :: m in models && StampIn(models[m].details, t)
  }

  ghost function GlobalStamps(apis: map<string, ApiStats>): Time -> bool {
    t => exists a, m :: a in apis && m in apis[a].models && StampIn(apis[a].models[m].details, t)
  }

  ghost predicate ModelOk(ms: ModelStats) {
    ms.details != [] && Tallies(ms.counters, ModelTotal(ms.details)) && Spans(ms.counters, ModelStamps(ms.details))
  }

  ghost predicate ApiOk(stats: ApiStats) {
    && (forall m :: m in stats.models ==> ModelOk(stats.models[m]))
    && Tallies(stats.counters, ApiTotal(stats.models))
    && Spans(stats.counters, ApiStamps(stats.models))
  }

  ghost predicate ApisOk(apis: map<string, ApiStats>) {
    forall a :: a in apis ==> ApiOk(apis[a])
  }

  /** What the global aggregates say of one measure. */
  function Aggregate(s: Stats, f: Metric): int {
    match f
    case Requests => s.counters.requests
    case TokenCount => s.counters.tokens
    case InputCount => s.counters.inputTokens
    case CachedCount => s.counters.cachedTokens
    case Latency => s.counters.latencyMs
    case LatencySamples => s.counters.latencySamples
    case FirstByte => s.counters.firstByteMs
    case FirstByteSamples => s.counters.firstByteSamples
    case Successes => s.successes
    case Failures => s.failures
    case DayRequests(day) => Get(s.requestsByDay, day)
    case DayTokens(day) => Get(s.tokensByDay, day)
    case HourRequests(hour) => Get(s.requestsByHour, hour)
    case HourTokens(hour) => Get(s.tokensByHour, hour)
  }

  /** Both maps have the same buckets, none is empty, and together they make the total. */
  ghost predicate Buckets(requests: map<int, int>, tokens: map<int, int>, total: int) {
    && requests.Keys == tokens.Keys
    && (forall k :: k in requests ==> requests[k] > 0)
    && Sum(requests) == total
  }

  /** The outcomes and both kinds of buckets divide the requests. */
  ghost predicate Divided(s: Stats) {
    && s.successes + s.failures == s.counters.requests
    && Buckets(s.requestsByDay, s.tokensByDay, s.counters.requests)
    && Buckets(s.requestsByHour, s.tokensByHour, s.counters.requests)
  }

  /** What does not depend on token totals: the APIs and models, the window, and the division into buckets. */
  ghost predicate Standing(s: Stats) {
    ApisOk(s.apis) && Spans(s.counters, GlobalStamps(s.apis)) && Divided(s)
  }

  /** Every aggregate is the sum of its measure over the stored details. */
  ghost predicate Exact(s: Stats) {
    forall f :: Aggregate(s, f) == OverApis(s.apis, f)
  }

  /** Every aggregate is the fold of the stored details. */
  ghost predicate Consistent(s: Stats) {
    Standing(s) && Exact(s)
  }

  // ----- one more detail

  function Bump(c: Counters, d: Detail, tokens: int): Counters {
    Counters(
      c.requests + 1, c.tokens + tokens, c.inputTokens + d.tokens.input, c.cachedTokens + d.tokens.cached,
      if d.latencyMs > 0 then c.latencyMs + d.latencyMs else c.latencyMs,
      if d.latencyMs > 0 then c.latencySamples + 1 else c.latencySamples,
      if d.firstByteMs > 0 then c.firstByteMs + d.firstByteMs else c.firstByteMs,
      if d.firstByteMs > 0 then c.firstByteSamples + 1 else c.firstByteSamples,
      if d.timestamp.instant != 0 && (c.first == 0 || d.timestamp.instant < c.first) then d.timestamp.instant else c.first,
      if d.timestamp.instant != 0 && (c.last == 0 || d.timestamp.instant > c.last) then d.timestamp.instant else c.last)
  }

  function AddToModel(ms: ModelStats, d: Detail): ModelStats {
    ModelStats(Bump(ms.counters, d, d.tokens.total), ms.details + [d])
  }

  function ModelIn(models: map<string, ModelStats>, model: string): ModelStats {
    if model in models then models[model] else ModelStats(ZERO, [])
  }

  function AddToApi(stats: ApiStats, model: string, d: Detail): ApiStats {
    ApiStats(Bump(stats.counters, d, d.tokens.total),
             stats.models[model := AddToModel(ModelIn(stats.models, model), d)])
  }

  function ApiIn(apis: map<string, ApiStats>, api: string): ApiStats {
    if api in apis then apis[api] else ApiStats(ZERO, map[])
  }

  function AddTo(m: map<int, int>, k: int, v: int): map<int, int> {
    m[k := Get(m, k) + v]
  }

  /** The statistics with one more detail, counted globally with `tokens` tokens. */
  function Add(s: Stats, api: string, model: string, d: Detail, tokens: int): Stats {
    Stats(
      Bump(s.counters, d, tokens),
      s.successes + Value(Successes, d), s.failures + Value(Failures, d),
      Stored(s.apis, api, model, d),
      AddTo(s.requestsByDay, DayOf(d.timestamp), 1), AddTo(s.requestsByHour, HourOf(d.timestamp), 1),
      AddTo(s.tokensByDay, DayOf(d.timestamp), tokens), AddTo(s.tokensByHour, HourOf(d.timestamp), tokens))
  }

  lemma SumAppend(ds: seq<Detail>, d: Detail, f: Metric)
    ensures SumDetails(ds + [d], f) == SumDetails(ds, f) + Value(f, d)
  {
    assert (ds + [d])[..|ds|] == ds;
  }

  lemma PerModelAdd(models: map<string, ModelStats>, model: string, ms: ModelStats, f: Metric)
    ensures PerModel(models[model := ms], f) == PerModel(models, f)[model := SumDetails(ms.details, f)]
  {
  }

  lemma OverModelsAdd(models: map<string, ModelStats>, model: string, d: Detail, f: Metric)
    ensures OverModels(models[model := AddToModel(ModelIn(models, model), d)], f) == OverModels(models, f) + Value(f, d)
  {
    var ms := AddToModel(ModelIn(models, model), d);
    SumAppend(ModelIn(models, model).details, d, f);
    PerModelAdd(models, model, ms, f);
    SumUpdate(PerModel(models, f), model, SumDetails(ms.details, f));
  }

  lemma EmptyModels(f: Metric)
    ensures OverModels(map[], f) == 0
  {
    assert PerModel(map[], f) == map[];
  }

  lemma PerApiAdd(apis: map<string, ApiStats>, api: string, stats: ApiStats, f: Metric)
    ensures PerApi(apis[api := stats], f) == PerApi(apis, f)[api := OverModels(stats.models, f)]
  {
  }

  lemma OverApisAdd(apis: map<string, ApiStats>, api: string, model: string, d: Detail, f: Metric)
    ensures OverApis(Stored(apis, api, model, d), f) == OverApis(apis, f) + Value(f, d)
  {
    var stats := ApiIn(apis, api);
    OverModelsAdd(stats.models, model, d, f);
    EmptyModels(f);
    PerApiAdd(apis, api, AddToApi(stats, model, d), f);
    SumUpdate(PerApi(apis, f), api, OverModels(AddToApi(stats, model, d).models, f));
  }

  /** Sums with one more detail. */
  ghost predicate OneMore(before: Metric -> int, after: Metric -> int, d: Detail) {
    forall f :: after(f) == before(f) + Value(f, d)
  }

  /** Timestamps with one more detail. */
  ghost predicate OneMoreStamp(before: Time -> bool, after: Time -> bool, d: Detail) {
    forall t :: after(t) <==> before(t) || t == d.timestamp.instant
  }

  lemma TalliesBump(c: Counters, before: Metric -> int, after: Metric -> int, d: Detail)
    requires Tallies(c, before) && OneMore(before, after, d)
    ensures Tallies(Bump(c, d, d.tokens.total), after)
  {
  }

  lemma SpansBump(c: Counters, before: Time -> bool, after: Time -> bool, d: Detail, tokens: int)
    requires Spans(c, before) && d.timestamp.instant != 0 && OneMoreStamp(before, after, d)
    ensures Spans(Bump(c, d, tokens), after)
  {
    assert after(d.timestamp.instant);
    if c.first != 0 {
      assert after(c.first) && after(c.last);
    }
  }

  lemma StampAppend(ds: seq<Detail>, d: Detail, t: Time)
    ensures StampIn(ds + [d], t) <==> StampIn(ds, t) || t == d.timestamp.instant
  {
    var more := ds + [d];
    if StampIn(ds, t) {
      var i :| 0 <= i < |ds| && ds[i].timestamp.instant == t;
      assert more[i].timestamp.instant == t;
    }
    assert more[|ds|] == d;
  }

  lemma AddToModelOk(ms: ModelStats, d: Detail)
    requires d.timestamp.instant != 0
    requires ms == ModelStats(ZERO, []) || ModelOk(ms)
    ensures ModelOk(AddToModel(ms, d))
  {
    forall f ensures ModelTotal(ms.details + [d])(f) == ModelTotal(ms.details)(f) + Value(f, d) {
      SumAppend(ms.details, d, f);
    }
    forall t ensures ModelStamps(ms.details + [d])(t) <==> ModelStamps(ms.details)(t) || t == d.timestamp.instant {
      StampAppend(ms.details, d, t);
    }
    TalliesBump(ms.counters, ModelTotal(ms.details), ModelTotal(ms.details + [d]), d);
    SpansBump(ms.counters, ModelStamps(ms.details), ModelStamps(ms.details + [d]), d, d.tokens.total);
  }

  lemma ApiStampsAdd(models: map<string, ModelStats>, model: string, d: Detail, t: Time)
    ensures ApiStamps(models[model := AddToModel(ModelIn(models, model), d)])(t)
       <==> ApiStamps(models)(t) || t == d.timestamp.instant
  {
    var more := models[model := AddToModel(ModelIn(models, model), d)];
    StampAppend(ModelIn(models, model).details, d, t);
    if ApiStamps(models)(t) {
      var m :| m in models && StampIn(models[m].details, t);
      assert m in more && StampIn(more[m].details, t);
    }
    if t == d.timestamp.instant {
      assert model in more && StampIn(more[model].details, t);
    }
  }

  lemma AddModelsOk(models: map<string, ModelStats>, more: map<string, ModelStats>, model: string, d: Detail)
    requires (forall m :: m in models ==> ModelOk(models[m])) && d.timestamp.instant != 0
    requires more == models[model := AddToModel(ModelIn(models, model), d)]
    ensures forall m :: m in more ==> ModelOk(more[m])
  {
    AddToModelOk(ModelIn(models, model), d);
    forall m | m in more ensures ModelOk(more[m]) {
      assert m != model ==> more[m] == models[m];
    }
  }

  lemma AddTallies(stats: ApiStats, more: ApiStats, model: string, d: Detail)
    requires Tallies(stats.counters, ApiTotal(stats.models)) && more == AddToApi(stats, model, d)
    ensures Tallies(more.counters, ApiTotal(more.models))
  {
    forall f ensures ApiTotal(more.models)(f) == ApiTotal(stats.models)(f) + Value(f, d) {
      OverModelsAdd(stats.models, model, d, f);
    }
    TalliesBump(stats.counters, ApiTotal(stats.models), ApiTotal(more.models), d);
  }

  lemma AddApiSpans(stats: ApiStats, more: ApiStats, model: string, d: Detail)
    requires Spans(stats.counters, ApiStamps(stats.models)) && d.timestamp.instant != 0
    requires more == AddToApi(stats, model, d)
    ensures Spans(more.counters, ApiStamps(more.models))
  {
    forall t ensures ApiStamps(more.models)(t) <==> ApiStamps(stats.models)(t) || t == d.timestamp.instant {
      ApiStampsAdd(stats.models, model, d, t);
    }
    SpansBump(stats.counters, ApiStamps(stats.models), ApiStamps(more.models), d, d.tokens.total);
  }

  lemma AddToApiOk(stats: ApiStats, more: ApiStats, model: string, d: Detail)
    requires ApiOk(stats) && d.timestamp.instant != 0 && more == AddToApi(stats, model, d)
    ensures ApiOk(more)
  {
    AddModelsOk(stats.models, more.models, model, d);
    AddTallies(stats, more, model, d);
    AddApiSpans(stats, more, model, d);
  }

  lemma ZeroTallies(c: Counters, total: Metric -> int)
    requires c == ZERO && forall f :: total(f) == 0
    ensures Tallies(c, total)
  {
  }

  lemma EmptyTotals(models: map<string, ModelStats>)
    requires models == map[]
    ensures forall f :: ApiTotal(models)(f) == 0
  {
    forall f ensures ApiTotal(models)(f) == 0 {
      EmptyModels(f);
    }
  }

  lemma ZeroSpans(c: Counters, stamped: Time -> bool)
    requires c == ZERO && forall t :: !stamped(t)
    ensures Spans(c, stamped)
  {
  }

  lemma NoModelsOk(stats: ApiStats)
    requires stats.models == map[]
    ensures Tallies(stats.counters, ApiTotal(stats.models)) && Spans(stats.counters, ApiStamps(stats.models)) ==> ApiOk(stats)
  {
  }

  lemma EmptyApiOk(stats: ApiStats)
    requires stats.counters == ZERO && stats.models == map[]
    ensures ApiOk(stats)
  {
    EmptyTotals(stats.models);
    ZeroTallies(stats.counters, ApiTotal(stats.models));
    ZeroSpans(stats.counters, ApiStamps(stats.models));
    NoModelsOk(stats);
  }

  lemma GlobalStampsAdd(apis: map<string, ApiStats>, api: string, model: string, d: Detail, t: Time)
    ensures GlobalStamps(apis[api := AddToApi(ApiIn(apis, api), model, d)])(t)
       <==> GlobalStamps(apis)(t) || t == d.timestamp.instant
  {
    var more := apis[api := AddToApi(ApiIn(apis, api), model, d)];
    ApiStampsAdd(ApiIn(apis, api).models, model, d, t);
    if GlobalStamps(apis)(t) {
      var a, m :| a in apis && m in apis[a].models && StampIn(apis[a].models[m].details, t);
      if a == api {
        assert ApiStamps(apis[api].models)(t);
        var m' :| m' in more[api].models && StampIn(more[api].models[m'].details, t);
      } else {
        assert a in more && m in more[a].models && StampIn(more[a].models[m].details, t);
      }
    }
    if t == d.timestamp.instant {
      var m' :| m' in more[api].models && StampIn(more[api].models[m'].details, t);
    }
    if GlobalStamps(more)(t) {
      var a, m :| a in more && m in more[a].models && StampIn(more[a].models[m].details, t);
      if a == api {
        assert ApiStamps(more[api].models)(t);
      }
    }
  }

  lemma BucketsAdd(requests: map<int, int>, tokens: map<int, int>, total: int, key: int, n: int)
    requires Buckets(requests, tokens, total)
    ensures Buckets(AddTo(requests, key, 1), AddTo(tokens, key, n), total + 1)
  {
    SumUpdate(requests, key, Get(requests, key) + 1);
  }

  /** The stored details with one more. */
  function Stored(apis: map<string, ApiStats>, api: string, model: string, d: Detail): map<string, ApiStats> {
    apis[api := AddToApi(ApiIn(apis, api), model, d)]
  }

  lemma StoredOk(apis: map<string, ApiStats>, more: map<string, ApiStats>, api: string, stats: ApiStats)
    requires ApisOk(apis) && ApiOk(stats) && more == apis[api := stats]
    ensures ApisOk(more)
  {
    forall a | a in more ensures ApiOk(more[a]) {
      assert a != api ==> a in apis && more[a] == apis[a];
    }
  }

  lemma ApiInOk(apis: map<string, ApiStats>, stats: ApiStats, api: string)
    requires ApisOk(apis) && stats == ApiIn(apis, api)
    ensures ApiOk(stats)
  {
    if api !in apis {
      EmptyApiOk(stats);
    }
  }

  /** The detail, counted with `tokens` tokens. */
  function Counting(d: Detail, tokens: int): Detail {
    d.(tokens := d.tokens.(total := tokens))
  }

  lemma GetAddTo(m: map<int, int>, k: int, v: int, j: int)
    ensures Get(AddTo(m, k, v), j) == Get(m, j) + if j == k then v else 0
  {
  }

  /** Adding a detail moves every aggregate by its measure of the detail, as it is counted globally. */
  lemma AddAggregate(s: Stats, api: string, model: string, d: Detail, tokens: int, f: Metric)
    ensures Aggregate(Add(s, api, model, d, tokens), f) == Aggregate(s, f) + Value(f, Counting(d, tokens))
  {
    match f
    case DayRequests(day) => GetAddTo(s.requestsByDay, DayOf(d.timestamp), 1, day);
    case DayTokens(day) => GetAddTo(s.tokensByDay, DayOf(d.timestamp), tokens, day);
    case HourRequests(hour) => GetAddTo(s.requestsByHour, HourOf(d.timestamp), 1, hour);
    case HourTokens(hour) => GetAddTo(s.tokensByHour, HourOf(d.timestamp), tokens, hour);
    case _ =>
  }

  lemma StampsOneMore(apis: map<string, ApiStats>, api: string, model: string, d: Detail)
    ensures OneMoreStamp(GlobalStamps(apis), GlobalStamps(Stored(apis, api, model, d)), d)
  {
    forall t ensures GlobalStamps(Stored(apis, api, model, d))(t) <==> GlobalStamps(apis)(t) || t == d.timestamp.instant {
      GlobalStampsAdd(apis, api, model, d, t);
    }
  }

  lemma AddApisOk(apis: map<string, ApiStats>, more: map<string, ApiStats>, api: string, model: string, d: Detail)
    requires ApisOk(apis) && d.timestamp.instant != 0 && more == Stored(apis, api, model, d)
    ensures ApisOk(more)
  {
    ApiInOk(apis, ApiIn(apis, api), api);
    AddToApiOk(ApiIn(apis, api), AddToApi(ApiIn(apis, api), model, d), model, d);
    StoredOk(apis, more, api, AddToApi(ApiIn(apis, api), model, d));
  }

  lemma AddSpans(s: Stats, more: Stats, api: string, model: string, d: Detail, tokens: int)
    requires Spans(s.counters, GlobalStamps(s.apis)) && d.timestamp.instant != 0
    requires more.counters == Bump(s.counters, d, tokens) && more.apis == Stored(s.apis, api, model, d)
    ensures Spans(more.counters, GlobalStamps(more.apis))
  {
    StampsOneMore(s.apis, api, model, d);
    SpansBump(s.counters, GlobalStamps(s.apis), GlobalStamps(more.apis), d, tokens);
  }

  lemma AddBuckets(s: Stats, more: Stats, api: string, model: string, d: Detail, tokens: int)
    requires Buckets(s.requestsByDay, s.tokensByDay, s.counters.requests)
    requires Buckets(s.requestsByHour, s.tokensByHour, s.counters.requests)
    requires more == Add(s, api, model, d, tokens)
    ensures Buckets(more.requestsByDay, more.tokensByDay, more.counters.requests)
    ensures Buckets(more.requestsByHour, more.tokensByHour, more.counters.requests)
  {
    BucketsAdd(s.requestsByDay, s.tokensByDay, s.counters.requests, DayOf(d.timestamp), tokens);
    BucketsAdd(s.requestsByHour, s.tokensByHour, s.counters.requests, HourOf(d.timestamp), tokens);
  }

  lemma AddOutcomes(s: Stats, more: Stats, api: string, model: string, d: Detail, tokens: int)
    requires s.successes + s.failures == s.counters.requests && more == Add(s, api, model, d, tokens)
    ensures more.successes + more.failures == more.counters.requests
  {
  }

  /** With whatever token count a detail is added, all that does not depend on it stands. */
  lemma AddStanding(s: Stats, more: Stats, api: string, model: string, d: Detail, tokens: int)
    requires Standing(s) && d.timestamp.instant != 0 && more == Add(s, api, model, d, tokens)
    ensures Standing(more)
  {
    AddApisOk(s.apis, more.apis, api, model, d);
    AddSpans(s, more, api, model, d, tokens);
    AddOutcomes(s, more, api, model, d, tokens);
    AddBuckets(s, more, api, model, d, tokens);
  }

  lemma AddExact(s: Stats, api: string, model: string, d: Detail)
    requires Exact(s)
    ensures Exact(Add(s, api, model, d, d.tokens.total))
  {
    var more := Add(s, api, model, d, d.tokens.total);
    forall f ensures Aggregate(more, f) == OverApis(more.apis, f) {
      AddAggregate(s, api, model, d, d.tokens.total, f);
      OverApisAdd(s.apis, api, model, d, f);
    }
  }

  /** Recording a detail keeps every aggregate equal to the fold of the stored details. */
  lemma AddConsistent(s: Stats, api: string, model: string, d: Detail)
    requires Consistent(s) && d.timestamp.instant != 0
    ensures Consistent(Add(s, api, model, d, d.tokens.total))
  {
    AddStanding(s, Add(s, api, model, d, d.tokens.total), api, model, d, d.tokens.total);
    AddExact(s, api, model, d);
  }

  // ----- imported details

  /** What an imported detail adds to the global token counts. */
  function ClampedTokens(d: Detail): int {
    if d.tokens.total < 0 then 0 else d.tokens.total
  }

  function Import(s: Stats, api: string, model: string, d: Detail): Stats {
    Add(s, api, model, d, ClampedTokens(d))
  }

  /**
   * An imported detail keeps the aggregates exact if and only if its token total is not negative:
   * a negative one is counted per API and per model, but as nothing globally.
   */
  lemma ImportConsistentIff(s: Stats, api: string, model: string, d: Detail)
    requires Consistent(s) && d.timestamp.instant != 0
    ensures Consistent(Import(s, api, model, d)) <==> d.tokens.total >= 0
  {
    if d.tokens.total >= 0 {
      AddConsistent(s, api, model, d);
    } else {
      ClampedTokensDiffer(s, api, model, d);
    }
  }

  lemma ClampedTokensDiffer(s: Stats, api: string, model: string, d: Detail)
    requires Exact(s) && d.tokens.total < 0
    ensures !Exact(Import(s, api, model, d))
  {
    var more := Import(s, api, model, d);
    AddAggregate(s, api, model, d, ClampedTokens(d), TokenCount);
    OverApisAdd(s.apis, api, model, d, TokenCount);
    assert Aggregate(more, TokenCount) != OverApis(more.apis, TokenCount);
  }

  // ----- the details determine everything

  ghost predicate SameDetails(a: map<string, ApiStats>, b: map<string, ApiStats>) {
    && a.Keys == b.Keys
    && forall api :: api in a ==>
         && a[api].models.Keys == b[api].models.Keys
         && forall m :: m in a[api].models ==> a[api].models[m].details == b[api].models[m].details
  }

  lemma SpansUnique(a: Counters, b: Counters, x: Time -> bool, y: Time -> bool)
    requires Spans(a, x) && Spans(b, y) && forall t :: x(t) <==> y(t)
    ensures a.first == b.first && a.last == b.last
  {
    if forall t :: !x(t) {
    } else {
      assert x(a.first) && x(b.first) && x(a.last) && x(b.last);
    }
  }

  lemma CountersUnique(
    a: Counters, b: Counters, ta: Metric -> int, tb: Metric -> int, xa: Time -> bool, xb: Time -> bool)
    requires Tallies(a, ta) && Tallies(b, tb) && forall f :: ta(f) == tb(f)
    requires Spans(a, xa) && Spans(b, xb) && forall t :: xa(t) <==> xb(t)
    ensures a == b
  {
    SpansUnique(a, b, xa, xb);
  }

  lemma ApiUnique(a: ApiStats, b: ApiStats)
    requires ApiOk(a) && ApiOk(b) && a.models.Keys == b.models.Keys
    requires forall m :: m in a.models ==> a.models[m].details == b.models[m].details
    ensures a == b
  {
    forall m | m in a.models ensures a.models[m] == b.models[m] {
      var x, y := a.models[m], b.models[m];
      CountersUnique(x.counters, y.counters, ModelTotal(x.details), ModelTotal(y.details),
                     ModelStamps(x.details), ModelStamps(y.details));
    }
    assert a.models == b.models;
    CountersUnique(a.counters, b.counters, ApiTotal(a.models), ApiTotal(b.models), ApiStamps(a.models), ApiStamps(b.models));
  }

  lemma BucketsUnique(
    r1: map<int, int>, t1: map<int, int>, n1: int, r2: map<int, int>, t2: map<int, int>, n2: int)
    requires Buckets(r1, t1, n1) && Buckets(r2, t2, n2)
    requires forall k :: Get(r1, k) == Get(r2, k) && Get(t1, k) == Get(t2, k)
    ensures r1 == r2 && t1 == t2
  {
    forall k
      ensures k in r1 <==> k in r2
      ensures k in r1 && k in r2 ==> r1[k] == r2[k] && t1[k] == t2[k]
    {
      assert Get(r1, k) == Get(r2, k) && Get(t1, k) == Get(t2, k);
      assert k in r1 ==> r1[k] > 0;
      assert k in r2 ==> r2[k] > 0;
    }
  }

  lemma SameAggregates(a: Stats, b: Stats, f: Metric)
    requires Exact(a) && Exact(b) && a.apis == b.apis
    ensures Aggregate(a, f) == Aggregate(b, f)
  {
  }

  lemma SameDays(a: Stats, b: Stats)
    requires Standing(a) && Standing(b) && forall f :: Aggregate(a, f) == Aggregate(b, f)
    ensures a.requestsByDay == b.requestsByDay && a.tokensByDay == b.tokensByDay
  {
    forall k
      ensures Get(a.requestsByDay, k) == Get(b.requestsByDay, k) && Get(a.tokensByDay, k) == Get(b.tokensByDay, k)
    {
      assert Aggregate(a, DayRequests(k)) == Aggregate(b, DayRequests(k));
      assert Aggregate(a, DayTokens(k)) == Aggregate(b, DayTokens(k));
    }
    BucketsUnique(a.requestsByDay, a.tokensByDay, a.counters.requests, b.requestsByDay, b.tokensByDay, b.counters.requests);
  }

  lemma SameHours(a: Stats, b: Stats)
    requires Standing(a) && Standing(b) && forall f :: Aggregate(a, f) == Aggregate(b, f)
    ensures a.requestsByHour == b.requestsByHour && a.tokensByHour == b.tokensByHour
  {
    forall k
      ensures Get(a.requestsByHour, k) == Get(b.requestsByHour, k) && Get(a.tokensByHour, k) == Get(b.tokensByHour, k)
    {
      assert Aggregate(a, HourRequests(k)) == Aggregate(b, HourRequests(k));
      assert Aggregate(a, HourTokens(k)) == Aggregate(b, HourTokens(k));
    }
    BucketsUnique(a.requestsByHour, a.tokensByHour, a.counters.requests, b.requestsByHour, b.tokensByHour, b.counters.requests);
  }

  lemma SameCounters(a: Stats, b: Stats)
    requires Standing(a) && Standing(b) && a.apis == b.apis && forall f :: Aggregate(a, f) == Aggregate(b, f)
    ensures a.counters == b.counters && a.successes == b.successes && a.failures == b.failures
  {
    SpansUnique(a.counters, b.counters, GlobalStamps(a.apis), GlobalStamps(b.apis));
    assert Aggregate(a, Requests) == Aggregate(b, Requests) && Aggregate(a, TokenCount) == Aggregate(b, TokenCount);
    assert Aggregate(a, InputCount) == Aggregate(b, InputCount) && Aggregate(a, CachedCount) == Aggregate(b, CachedCount);
    assert Aggregate(a, Latency) == Aggregate(b, Latency) && Aggregate(a, LatencySamples) == Aggregate(b, LatencySamples);
    assert Aggregate(a, FirstByte) == Aggregate(b, FirstByte);
    assert Aggregate(a, FirstByteSamples) == Aggregate(b, FirstByteSamples);
    assert Aggregate(a, Successes) == Aggregate(b, Successes) && Aggregate(a, Failures) == Aggregate(b, Failures);
  }

  lemma ApisUnique(a: map<string, ApiStats>, b: map<string, ApiStats>)
    requires ApisOk(a) && ApisOk(b) && SameDetails(a, b)
    ensures a == b
  {
    forall api | api in a ensures a[api] == b[api] {
      ApiUnique(a[api], b[api]);
    }
  }

  /** Two consistent statistics that store the same details agree on every aggregate. */
  lemma DetailsDetermineAll(a: Stats, b: Stats)
    requires Consistent(a) && Consistent(b) && SameDetails(a.apis, b.apis)
    ensures a == b
  {
    ApisUnique(a.apis, b.apis);
    forall f ensures Aggregate(a, f) == Aggregate(b, f) {
      SameAggregates(a, b, f);
    }
    SameCounters(a, b);
    SameDays(a, b);
    SameHours(a, b);
  }

  lemma EmptySums(apis: map<string, ApiStats>, f: Metric)
    requires apis == map[]
    ensures OverApis(apis, f) == 0
  {
    assert PerApi(apis, f) == map[];
  }

  lemma EmptyConsistent()
    ensures Consistent(EMPTY)
  {
    forall f ensures Aggregate(EMPTY, f) == OverApis(EMPTY.apis, f) {
      EmptySums(EMPTY.apis, f);
    }
  }
}
