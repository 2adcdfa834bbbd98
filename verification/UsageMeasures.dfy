/** What one request adds to the statistics, said of the request itself. */
module UsageMeasures {
  import opened MapSum
  import opened Text
  import opened UsageFold
  import opened UsageMerge
  import opened UsageRuns
  import opened UsageRebuild

  // ----- time

  const HOUR := 3_600_000_000_000

  /** A moment lies in the hour of the day it is counted in, as its own clock shows it. */
  lemma ClockShows(m: Moment)
    ensures 0 <= HourOf(m) < 24
    ensures 0 <= m.instant + m.zone - (24 * DayOf(m) + HourOf(m)) * HOUR < HOUR
  {
    HoursOfDay(m.instant + m.zone);
  }

  lemma HoursOfDay(t: int)
    ensures t / 86_400_000_000_000 == t / HOUR / 24
    ensures t / HOUR == 24 * (t / HOUR / 24) + t / HOUR % 24
  {
  }

  /** A latency in nanoseconds as whole milliseconds, nothing for a missing one. */
  lemma WholeMilliseconds(latency: int)
    ensures latency <= 0 ==> Milliseconds(latency) == 0
    ensures latency > 0 ==> 0 <= latency - 1_000_000 * Milliseconds(latency) < 1_000_000
  {
  }

  // ----- tokens and names

  /** Only a missing total changes: it is what was not cached or, if nothing else was counted, what was. */
  lemma MissingTotal(t: Tokens)
    ensures Normalise(t) == t.(total := Normalise(t).total)
    ensures t.total != 0 ==> Normalise(t).total == t.total
    ensures t.total == 0 && t.input + t.output + t.reasoning != 0 ==> Normalise(t).total == t.input + t.output + t.reasoning
    ensures t.total == 0 && t.input + t.output + t.reasoning == 0 ==> Normalise(t).total == t.cached
  {
  }

  /** What a request may be counted under, the best first. */
  function Candidates(r: Request): seq<string> {
    [r.apiKey, TrimSpace(r.endpoint), r.provider, "unknown"]
  }

  /** A request is counted under the first of them that is not empty. */
  lemma CountedUnder(r: Request, k: nat)
    requires k < 4 && Candidates(r)[k] != "" && forall j :: 0 <= j < k ==> Candidates(r)[j] == ""
    ensures StatsKey(r) == Candidates(r)[k]
  {
    assert k == 0 || k == 1 || k == 2 || k == 3;
    assert k > 0 ==> Candidates(r)[0] == "";
    assert k > 1 ==> Candidates(r)[1] == "";
    assert k > 2 ==> Candidates(r)[2] == "";
  }

  /** An imported detail is stored as it is, but for missing totals, negative latencies and a missing time. */
  lemma ImportedAs(d: Detail, now: Moment)
    ensures var e := Prepare(d, now);
      && e == d.(tokens := Normalise(d.tokens), latencyMs := e.latencyMs, firstByteMs := e.firstByteMs, timestamp := e.timestamp)
      && (d.latencyMs >= 0 ==> e.latencyMs == d.latencyMs) && (d.latencyMs < 0 ==> e.latencyMs == 0)
      && (d.firstByteMs >= 0 ==> e.firstByteMs == d.firstByteMs) && (d.firstByteMs < 0 ==> e.firstByteMs == 0)
      && (d.timestamp.instant != 0 ==> e.timestamp == d.timestamp) && (d.timestamp.instant == 0 ==> e.timestamp == now)
  {
  }

  /** An imported model without a name is unknown, and others lose only the white space around it. */
  lemma ImportedUnder(name: string)
    ensures TrimSpace(name) != "" ==> ModelName(name) == TrimSpace(name)
    ensures TrimSpace(name) == "" ==> ModelName(name) == "unknown"
  {
  }

  // ----- one request

  predicate Unsuccessful(r: Request) {
    r.failed || 400 <= r.status
  }

  function Known(name: string): string {
    if name == "" then "unknown" else name
  }

  /** The request counts once, as a success or a failure, with its own tokens. */
  ghost predicate CountsOnce(c: Counters, after: Counters, r: Request) {
    && after.requests == c.requests + 1
    && after.tokens == c.tokens + Normalise(r.tokens).total
    && after.inputTokens == c.inputTokens + r.tokens.input
    && after.cachedTokens == c.cachedTokens + r.tokens.cached
  }

  /** A latency of at least a millisecond is one more sample. */
  ghost predicate Samples(total: int, samples: int, total': int, samples': int, latency: int) {
    if latency >= 1_000_000 then total' == total + Milliseconds(latency) && samples' == samples + 1
    else total' == total && samples' == samples
  }

  ghost predicate CountsLatencies(c: Counters, after: Counters, r: Request) {
    && Samples(c.latencyMs, c.latencySamples, after.latencyMs, after.latencySamples, r.latency)
    && Samples(c.firstByteMs, c.firstByteSamples, after.firstByteMs, after.firstByteSamples, r.firstByte)
  }

  ghost predicate CountsOutcome(s: Stats, t: Stats, r: Request) {
    && t.successes == s.successes + (if Unsuccessful(r) then 0 else 1)
    && t.failures == s.failures + (if Unsuccessful(r) then 1 else 0)
  }

  /** When the request was made, or when it is recorded if it does not say. */
  function MadeAt(r: Request, now: Moment): Moment {
    if r.requestedAt.instant != 0 then r.requestedAt else now
  }

  /** The buckets of the request's own day and hour grow, and no others. */
  ghost predicate CountsInBuckets(s: Stats, t: Stats, r: Request, at: Moment) {
    && (forall d :: Get(t.requestsByDay, d) == Get(s.requestsByDay, d) + if d == DayOf(at) then 1 else 0)
    && (forall h :: Get(t.requestsByHour, h) == Get(s.requestsByHour, h) + if h == HourOf(at) then 1 else 0)
    && (forall d :: Get(t.tokensByDay, d) == Get(s.tokensByDay, d) + if d == DayOf(at) then Normalise(r.tokens).total else 0)
    && (forall h :: Get(t.tokensByHour, h) == Get(s.tokensByHour, h) + if h == HourOf(at) then Normalise(r.tokens).total else 0)
  }

  /** One detail is stored, under the request's key and model, and it says what the request said. */
  ghost predicate StoresDetail(s: Stats, t: Stats, r: Request, at: Moment) {
    var d := Detail(at, Milliseconds(r.latency), Milliseconds(r.firstByte), r.source, r.authIndex,
                    Normalise(r.tokens), Unsuccessful(r));
    forall a, m :: DetailsOf(t.apis, a, m)
                == DetailsOf(s.apis, a, m) + if a == StatsKey(r) && m == Known(r.model) then [d] else []
  }

  lemma RecordedCounts(s: Stats, r: Request, now: Moment, t: Stats)
    requires t == Recorded(s, r, now)
    ensures CountsOnce(s.counters, t.counters, r) && CountsLatencies(s.counters, t.counters, r) && CountsOutcome(s, t, r)
  {
    WholeMilliseconds(r.latency);
    WholeMilliseconds(r.firstByte);
  }

  lemma RecordedBuckets(s: Stats, r: Request, now: Moment, t: Stats)
    requires t == Recorded(s, r, now)
    ensures CountsInBuckets(s, t, r, MadeAt(r, now))
  {
  }

  lemma RecordedDetails(s: Stats, r: Request, now: Moment, t: Stats)
    requires t == Recorded(s, r, now)
    ensures StoresDetail(s, t, r, MadeAt(r, now))
  {
    forall a, m
      ensures DetailsOf(t.apis, a, m)
           == DetailsOf(s.apis, a, m) + if a == StatsKey(r) && m == Known(r.model) then [DetailFor(r, now)] else []
    {
      StoredDetails(s.apis, StatsKey(r), RecordModel(r), DetailFor(r, now), a, m);
    }
  }

  // ----- snapshots

  /** The mean rounded down, or nothing without samples. */
  ghost predicate Mean(average: int, total: int, samples: int) {
    if total > 0 && samples > 0 then average * samples <= total < (average + 1) * samples else average == 0
  }

  ghost predicate Summarises(sum: Summary, c: Counters) {
    && sum.requests == c.requests && sum.tokens == c.tokens
    && sum.inputTokens == c.inputTokens && sum.cachedTokens == c.cachedTokens
    && Mean(sum.averageLatencyMs, c.latencyMs, c.latencySamples)
    && Mean(sum.averageFirstByteMs, c.firstByteMs, c.firstByteSamples)
  }

  lemma AverageIsMean(total: int, samples: int)
    ensures Mean(Average(total, samples), total, samples)
  {
  }

  lemma SummaryIs(c: Counters)
    ensures Summarises(SummaryOf(c), c)
  {
    AverageIsMean(c.latencyMs, c.latencySamples);
    AverageIsMean(c.firstByteMs, c.firstByteSamples);
  }

  /** A snapshot shows every level's counters, means and details, and every bucket. */
  ghost predicate Shows(snap: Snapshot, s: Stats) {
    && Summarises(snap.summary, s.counters) && snap.successes == s.successes && snap.failures == s.failures
    && snap.requestsByDay == s.requestsByDay && snap.requestsByHour == s.requestsByHour
    && snap.tokensByDay == s.tokensByDay && snap.tokensByHour == s.tokensByHour
    && snap.apis.Keys == s.apis.Keys && forall a :: a in s.apis ==> ShowsApi(snap.apis[a], s.apis[a])
  }

  ghost predicate ShowsApi(snap: ApiSnapshot, stats: ApiStats) {
    && Summarises(snap.summary, stats.counters) && snap.models.Keys == stats.models.Keys
    && forall m :: m in stats.models ==>
         Summarises(snap.models[m].summary, stats.models[m].counters) && snap.models[m].details == stats.models[m].details
  }

  lemma ApiSnapshotShows(stats: ApiStats)
    ensures ShowsApi(ApiSnapshotOf(stats), stats)
  {
    SummaryIs(stats.counters);
    forall m | m in stats.models ensures Summarises(SummaryOf(stats.models[m].counters), stats.models[m].counters) {
      SummaryIs(stats.models[m].counters);
    }
  }

  lemma SnapshotShows(s: Stats, snap: Snapshot)
    requires snap == SnapshotOf(s)
    ensures Shows(snap, s)
  {
    SummaryIs(s.counters);
    forall a | a in s.apis ensures ShowsApi(ApiSnapshotOf(s.apis[a]), s.apis[a]) {
      ApiSnapshotShows(s.apis[a]);
    }
  }
}
