/** Runs of recordings and imports, and rebuilding a store from its own snapshot. */
module UsageRuns {
  import opened MapSum
  import opened Text
  import opened UsageFold
  import opened UsageMerge

  // ----- recording

  /** A usage record with what the request context says: the endpoint and the response status, zero if unset. */
  datatype Request = Request(
    requestedAt: Moment, apiKey: string, endpoint: string, provider: string, model: string,
    source: string, authIndex: string, tokens: Tokens, latency: int, firstByte: int, failed: bool, status: int)

  const MILLISECOND := 1000000

  function StatsKey(r: Request): string {
    if r.apiKey != "" then r.apiKey
    else if TrimSpace(r.endpoint) != "" then TrimSpace(r.endpoint)
    else if r.provider != "" then r.provider
    else "unknown"
  }

  function RecordModel(r: Request): string {
    if r.model == "" then "unknown" else r.model
  }

  function Milliseconds(latency: int): int {
    if latency <= 0 then 0 else latency / MILLISECOND
  }

  predicate Failed(r: Request) {
    r.failed || r.status >= 400
  }

  function DetailFor(r: Request, now: Moment): Detail {
    Detail(if r.requestedAt.instant == 0 then now else r.requestedAt, Milliseconds(r.latency), Milliseconds(r.firstByte),
           r.source, r.authIndex, Normalise(r.tokens), Failed(r))
  }

  function Recorded(s: Stats, r: Request, now: Moment): Stats {
    var d := DetailFor(r, now);
    Add(s, StatsKey(r), RecordModel(r), d, d.tokens.total)
  }

  // ----- opening an API counts nothing

  lemma OpenTotals(apis: map<string, ApiStats>, api: string, f: Metric)
    ensures OverApis(apis[api := ApiIn(apis, api)], f) == OverApis(apis, f)
  {
    if api in apis {
      assert apis[api := ApiIn(apis, api)] == apis;
    } else {
      PerApiAdd(apis, api, ApiStats(ZERO, map[]), f);
      EmptyModels(f);
      SumUpdate(PerApi(apis, f), api, 0);
    }
  }

  lemma OpenStamps(apis: map<string, ApiStats>, api: string, t: Time)
    ensures GlobalStamps(apis[api := ApiIn(apis, api)])(t) <==> GlobalStamps(apis)(t)
  {
    var more := apis[api := ApiIn(apis, api)];
    if GlobalStamps(apis)(t) {
      var a, m :| a in apis && m in apis[a].models && StampIn(apis[a].models[m].details, t);
      assert a in more && m in more[a].models && StampIn(more[a].models[m].details, t);
    }
  }

  lemma SpansSame(c: Counters, x1: Time -> bool, x2: Time -> bool)
    requires Spans(c, x1) && forall t :: x2(t) <==> x1(t)
    ensures Spans(c, x2)
  {
  }

  lemma OpenStanding(s: Stats, more: Stats, api: string)
    requires Standing(s) && more == OpenApi(s, api)
    ensures Standing(more)
  {
    ApiInOk(s.apis, ApiIn(s.apis, api), api);
    StoredOk(s.apis, more.apis, api, ApiIn(s.apis, api));
    forall t ensures GlobalStamps(more.apis)(t) <==> GlobalStamps(s.apis)(t) {
      OpenStamps(s.apis, api, t);
    }
    SpansSame(s.counters, GlobalStamps(s.apis), GlobalStamps(more.apis));
  }

  // ----- what clamping adds

  /** What an aggregate says beyond what the stored details add up to. */
  ghost function Excess(s: Stats, f: Metric): int {
    Aggregate(s, f) - OverApis(s.apis, f)
  }

  /** What an imported detail adds to a global aggregate beyond its own measure, because its total is clamped. */
  function Forgiven(f: Metric, d: Detail): int {
    Value(f, Counting(d, ClampedTokens(d))) - Value(f, d)
  }

  function SumForgiven(f: Metric, ds: seq<Detail>): int {
    if ds == [] then 0 else SumForgiven(f, ds[..|ds| - 1]) + Forgiven(f, ds[|ds| - 1])
  }

  /** The token counts: all tokens, and those of one day or hour. */
  predicate CountsTokens(f: Metric) {
    f.TokenCount? || f.DayTokens? || f.HourTokens?
  }

  ghost predicate NonNegative(ds: seq<Detail>) {
    forall d :: d in ds ==> d.tokens.total >= 0
  }

  /** Only the token counts gain, in all, on the detail's day and in its hour, by what its total is below zero. */
  lemma ForgivenIs(f: Metric, d: Detail)
    ensures !CountsTokens(f) || d.tokens.total >= 0 ==> Forgiven(f, d) == 0
    ensures f.TokenCount? ==> Forgiven(f, d) == ClampedTokens(d) - d.tokens.total >= 0
    ensures f.DayTokens? ==>
      Forgiven(f, d) == if DayOf(d.timestamp) == f.day then ClampedTokens(d) - d.tokens.total else 0
    ensures f.HourTokens? ==>
      Forgiven(f, d) == if HourOf(d.timestamp) == f.hour then ClampedTokens(d) - d.tokens.total else 0
    ensures ClampedTokens(d) == d.tokens.total <==> d.tokens.total >= 0
  {
  }

  lemma {:induction false} SumForgivenZero(f: Metric, ds: seq<Detail>)
    requires !CountsTokens(f) || NonNegative(ds)
    ensures SumForgiven(f, ds) == 0
  {
    if ds != [] {
      ForgivenIs(f, ds[|ds| - 1]);
      SumForgivenZero(f, ds[..|ds| - 1]);
    }
  }

  /** Clamping never takes tokens away, and adds none only if there was nothing to clamp. */
  lemma {:induction false} SumForgivenPositive(ds: seq<Detail>)
    ensures SumForgiven(TokenCount, ds) >= 0
    ensures SumForgiven(TokenCount, ds) == 0 ==> NonNegative(ds)
  {
    if ds != [] {
      ForgivenIs(TokenCount, ds[|ds| - 1]);
      SumForgivenPositive(ds[..|ds| - 1]);
    }
  }

  lemma {:induction false} SumForgivenConcat(f: Metric, a: seq<Detail>, b: seq<Detail>)
    ensures SumForgiven(f, a + b) == SumForgiven(f, a) + SumForgiven(f, b)
  {
    if b == [] {
      assert a + b == a;
    } else {
      assert (a + b)[..|a + b| - 1] == a + b[..|b| - 1];
      SumForgivenConcat(f, a, b[..|b| - 1]);
    }
  }

  lemma ImportExcess(s: Stats, api: string, model: string, d: Detail, f: Metric)
    ensures Excess(Import(s, api, model, d), f) == Excess(s, f) + Forgiven(f, d)
  {
    AddAggregate(s, api, model, d, ClampedTokens(d), f);
    OverApisAdd(s.apis, api, model, d, f);
  }

  lemma RecordExcess(s: Stats, api: string, model: string, d: Detail, f: Metric)
    ensures Excess(Add(s, api, model, d, d.tokens.total), f) == Excess(s, f)
  {
    AddAggregate(s, api, model, d, d.tokens.total, f);
    OverApisAdd(s.apis, api, model, d, f);
    assert Counting(d, d.tokens.total) == d;
  }

  lemma OpenExcess(s: Stats, api: string, f: Metric)
    ensures Excess(OpenApi(s, api), f) == Excess(s, f)
  {
    OpenTotals(s.apis, api, f);
  }

  // ----- along an import

  ghost predicate Ticking(job: Job) {
    forall p :: job.clock(p).instant != 0
  }

  predicate Fresh(job: Job, known: set<string>, p: Place) {
    p.At? && Belongs(p, job.snap) && KeyAt(job, p) !in known
  }

  /** The details an import adds, in the order of the tour. */
  ghost function AddedOn(job: Job, m: Merge, tour: seq<Place>): seq<Detail>
    requires Within(tour, job.snap)
  {
    if tour == [] then []
    else
      var p, front := tour[|tour| - 1], tour[..|tour| - 1];
      AddedOn(job, m, front) + if Fresh(job, Walk(job, m, front).seen, p) then [Incoming(job, p)] else []
  }

  lemma AddedLast(job: Job, m: Merge, tour: seq<Place>)
    requires Within(tour, job.snap) && tour != []
    ensures var p, front := tour[|tour| - 1], tour[..|tour| - 1];
      AddedOn(job, m, tour)
      == if Fresh(job, Walk(job, m, front).seen, p) then AddedOn(job, m, front) + [Incoming(job, p)] else AddedOn(job, m, front)
  {
  }

  lemma SumForgivenAppend(f: Metric, ds: seq<Detail>, d: Detail)
    ensures SumForgiven(f, ds + [d]) == SumForgiven(f, ds) + Forgiven(f, d)
  {
    assert (ds + [d])[..|ds|] == ds;
  }

  /** Those are the details counted as added, and exactly what the store holds more than before. */
  lemma {:induction false} AddedAreStored(job: Job, m: Merge, tour: seq<Place>, f: Metric)
    requires Within(tour, job.snap)
    ensures Walk(job, m, tour).added == m.added + |AddedOn(job, m, tour)|
    ensures OverApis(Walk(job, m, tour).stats.apis, f)
         == OverApis(m.stats.apis, f) + SumDetails(AddedOn(job, m, tour), f)
  {
    if tour != [] {
      var p, front := tour[|tour| - 1], tour[..|tour| - 1];
      var w := Walk(job, m, front);
      assert Belongs(p, job.snap);
      AddedAreStored(job, m, front, f);
      AddedLast(job, m, tour);
      if p.Open? {
        OpenTotals(w.stats.apis, TrimSpace(p.api), f);
      } else if KeyAt(job, p) !in w.seen {
        OverApisAdd(w.stats.apis, TrimSpace(p.api), ModelName(p.model), Incoming(job, p), f);
        SumAppend(AddedOn(job, m, front), Incoming(job, p), f);
      }
    }
  }

  lemma StepExcess(job: Job, m: Merge, p: Place, f: Metric)
    requires Belongs(p, job.snap)
    ensures Excess(Step(job, m, p).stats, f)
         == Excess(m.stats, f) + if Fresh(job, m.seen, p) then Forgiven(f, Incoming(job, p)) else 0
  {
    if p.Open? {
      OpenExcess(m.stats, TrimSpace(p.api), f);
    } else if KeyAt(job, p) !in m.seen {
      ImportExcess(m.stats, TrimSpace(p.api), ModelName(p.model), Incoming(job, p), f);
    }
  }

  /** Along an import every aggregate gains exactly what clamping adds to it beyond the details added. */
  lemma {:induction false} WalkExcess(job: Job, m: Merge, tour: seq<Place>, f: Metric)
    requires Within(tour, job.snap)
    ensures Excess(Walk(job, m, tour).stats, f) == Excess(m.stats, f) + SumForgiven(f, AddedOn(job, m, tour))
  {
    if tour != [] {
      var p, front := tour[|tour| - 1], tour[..|tour| - 1];
      var w := Walk(job, m, front);
      WalkExcess(job, m, front, f);
      StepExcess(job, w, p, f);
      AddedLast(job, m, tour);
      if Fresh(job, w.seen, p) {
        SumForgivenAppend(f, AddedOn(job, m, front), Incoming(job, p));
      }
    }
  }

  lemma StepStanding(job: Job, m: Merge, after: Merge, p: Place)
    requires Belongs(p, job.snap) && Ticking(job) && Standing(m.stats) && after == Step(job, m, p)
    ensures Standing(after.stats)
  {
    if p.Open? {
      OpenStanding(m.stats, after.stats, TrimSpace(p.api));
    } else if KeyAt(job, p) !in m.seen {
      var d := Incoming(job, p);
      AddStanding(m.stats, after.stats, TrimSpace(p.api), ModelName(p.model), d, ClampedTokens(d));
    }
  }

  lemma {:induction false} WalkStanding(job: Job, m: Merge, tour: seq<Place>)
    requires Within(tour, job.snap) && Ticking(job) && Standing(m.stats)
    ensures Standing(Walk(job, m, tour).stats)
  {
    if tour != [] {
      WalkStanding(job, m, tour[..|tour| - 1]);
      StepStanding(job, Walk(job, m, tour[..|tour| - 1]), Walk(job, m, tour), tour[|tour| - 1]);
    }
  }

  // ----- runs

  datatype Event = Recording(request: Request, now: Moment) | Importing(job: Job, tour: seq<Place>)

  /** The clock never shows the zero time, and an import goes through its snapshot in some order. */
  ghost predicate Possible(e: Event) {
    match e
    case Recording(_, now) => now.instant != 0
    case Importing(job, tour) => IsTour(tour, job.snap) && Ticking(job)
  }

  ghost predicate Legal(events: seq<Event>) {
    forall e :: e in events ==> Possible(e)
  }

  ghost function Apply(s: Stats, e: Event): Stats
    requires Possible(e)
  {
    match e
    case Recording(request, now) => Recorded(s, request, now)
    case Importing(job, tour) => Merged(job, s, tour).stats
  }

  ghost function Run(events: seq<Event>): Stats
    requires Legal(events)
  {
    if events == [] then EMPTY else Apply(Run(events[..|events| - 1]), events[|events| - 1])
  }

  ghost function AddedBy(s: Stats, e: Event): seq<Detail>
    requires Possible(e)
  {
    if e.Importing? then AddedOn(e.job, Start(e.job, s), e.tour) else []
  }

  /** All details the imports of a run added. */
  ghost function ImportedIn(events: seq<Event>): seq<Detail>
    requires Legal(events)
  {
    if events == [] then []
    else
      var front := events[..|events| - 1];
      ImportedIn(front) + AddedBy(Run(front), events[|events| - 1])
  }

  lemma ApplyStanding(s: Stats, after: Stats, e: Event)
    requires Possible(e) && Standing(s) && after == Apply(s, e)
    ensures Standing(after)
  {
    match e
    case Recording(r, now) =>
      var d := DetailFor(r, now);
      AddStanding(s, after, StatsKey(r), RecordModel(r), d, d.tokens.total);
    case Importing(job, tour) =>
      WalkStanding(job, Start(job, s), tour);
  }

  lemma ApplyExcess(s: Stats, e: Event, f: Metric)
    requires Possible(e)
    ensures Excess(Apply(s, e), f) == Excess(s, f) + SumForgiven(f, AddedBy(s, e))
  {
    match e
    case Recording(r, now) =>
      RecordExcess(s, StatsKey(r), RecordModel(r), DetailFor(r, now), f);
    case Importing(job, tour) =>
      WalkExcess(job, Start(job, s), tour, f);
  }

  /** In every run the APIs and models are exact, and so are the window and the division into buckets. */
  lemma {:induction false} StandingInEveryRun(events: seq<Event>)
    requires Legal(events)
    ensures Standing(Run(events))
  {
    if events == [] {
      EmptyConsistent();
    } else {
      StandingInEveryRun(events[..|events| - 1]);
      ApplyStanding(Run(events[..|events| - 1]), Run(events), events[|events| - 1]);
    }
  }

  /** In every run each aggregate exceeds the fold of the stored details by exactly what clamping added. */
  lemma {:induction false} ExcessInEveryRun(events: seq<Event>, f: Metric)
    requires Legal(events)
    ensures Aggregate(Run(events), f) == OverApis(Run(events).apis, f) + SumForgiven(f, ImportedIn(events))
  {
    if events == [] {
      EmptySums(EMPTY.apis, f);
    } else {
      var front := events[..|events| - 1];
      ExcessInEveryRun(front, f);
      ApplyExcess(Run(front), events[|events| - 1], f);
      SumForgivenConcat(f, ImportedIn(front), AddedBy(Run(front), events[|events| - 1]));
    }
  }

  /** Whatever was imported: every aggregate but the token counts is the fold of the stored details. */
  lemma OnlyTokensDrift(events: seq<Event>, f: Metric)
    requires Legal(events) && !CountsTokens(f)
    ensures Aggregate(Run(events), f) == OverApis(Run(events).apis, f)
  {
    ExcessInEveryRun(events, f);
    SumForgivenZero(f, ImportedIn(events));
  }

  /** The outcomes, and both kinds of buckets, account for every stored request. */
  ghost predicate RequestsBalance(s: Stats) {
    && s.successes + s.failures == s.counters.requests
    && Sum(s.requestsByDay) == s.counters.requests
    && Sum(s.requestsByHour) == s.counters.requests
    && s.counters.requests == OverApis(s.apis, Requests)
  }

  lemma DividedInEveryRun(events: seq<Event>)
    requires Legal(events)
    ensures Divided(Run(events))
  {
    StandingInEveryRun(events);
  }

  lemma DividedBalances(s: Stats)
    requires Divided(s) && Aggregate(s, Requests) == OverApis(s.apis, Requests)
    ensures RequestsBalance(s)
  {
  }

  /** Whatever was imported, the outcomes and both kinds of buckets account for every stored request. */
  lemma RequestsAddUp(events: seq<Event>)
    requires Legal(events)
    ensures RequestsBalance(Run(events))
  {
    DividedInEveryRun(events);
    OnlyTokensDrift(events, Requests);
    DividedBalances(Run(events));
  }

  /** The aggregates exceed the folds by exactly what clamping added for `imported`. */
  ghost predicate Drifts(s: Stats, imported: seq<Detail>) {
    forall f :: Aggregate(s, f) == OverApis(s.apis, f) + SumForgiven(f, imported)
  }

  lemma ExactWithout(s: Stats, imported: seq<Detail>)
    requires NonNegative(imported) && Drifts(s, imported)
    ensures Exact(s)
  {
    forall f ensures Aggregate(s, f) == OverApis(s.apis, f) {
      SumForgivenZero(f, imported);
    }
  }

  lemma DriftDecides(s: Stats, imported: seq<Detail>)
    requires Drifts(s, imported)
    ensures Exact(s) <==> NonNegative(imported)
  {
    if NonNegative(imported) {
      ExactWithout(s, imported);
    }
    if Exact(s) {
      assert Aggregate(s, TokenCount) == OverApis(s.apis, TokenCount);
      SumForgivenPositive(imported);
    }
  }

  lemma RunDrifts(events: seq<Event>, s: Stats)
    requires Legal(events) && s == Run(events)
    ensures Drifts(s, ImportedIn(events))
  {
    forall f ensures Aggregate(s, f) == OverApis(s.apis, f) + SumForgiven(f, ImportedIn(events)) {
      ExcessInEveryRun(events, f);
    }
  }

  /**
   * In every run of recordings and imports, each aggregate at each level equals the fold of the stored
   * details if and only if no import ever added a detail with a negative token total.
   */
  lemma ExactInEveryRunIff(events: seq<Event>)
    requires Legal(events)
    ensures Consistent(Run(events)) <==> NonNegative(ImportedIn(events))
  {
    StandingInEveryRun(events);
    RunDrifts(events, Run(events));
    DriftDecides(Run(events), ImportedIn(events));
  }

  // ----- the same, judged before an import

  /** The key spells out the normalised token total, so details with equal keys have equal totals. */
  ghost predicate KeysShowTotals(job: Job) {
    forall p, q :: p in Places(job.snap) && q in Places(job.snap) && KeyAt(job, p) == KeyAt(job, q) ==>
      Incoming(job, p).tokens.total == Incoming(job, q).tokens.total
  }

  /** Every detail on the tour that is not known already has a non-negative total. */
  ghost predicate NoneNegative(job: Job, known: set<string>, tour: seq<Place>) {
    forall p :: p in tour && Fresh(job, known, p) ==> Incoming(job, p).tokens.total >= 0
  }

  lemma NoneNegativeLast(job: Job, known: set<string>, seen: set<string>, tour: seq<Place>)
    requires tour != [] && Within(tour, job.snap) && KeysShowTotals(job)
    requires seen == known + KeysOn(job, tour[..|tour| - 1])
    ensures NoneNegative(job, known, tour) <==>
            NoneNegative(job, known, tour[..|tour| - 1])
            && !(Fresh(job, seen, tour[|tour| - 1]) && Incoming(job, tour[|tour| - 1]).tokens.total < 0)
  {
    var p, front := tour[|tour| - 1], tour[..|tour| - 1];
    SplitLast(tour);
    if NoneNegative(job, known, front) && Fresh(job, known, p) && !Fresh(job, seen, p) {
      var q :| q in front && q.At? && KeyAt(job, q) == KeyAt(job, p);
      BelongsIffPlace(p, job.snap);
      BelongsIffPlace(q, job.snap);
      assert Fresh(job, known, q);
    }
  }

  lemma NonNegativeAppend(ds: seq<Detail>, d: Detail)
    ensures NonNegative(ds + [d]) <==> NonNegative(ds) && d.tokens.total >= 0
  {
    assert d in ds + [d];
    assert forall x :: x in ds ==> x in ds + [d];
  }

  /** An import adds no negative total if and only if none of the details it does not know has one. */
  lemma {:induction false} AddedNonNegativeIff(job: Job, m: Merge, tour: seq<Place>)
    requires Within(tour, job.snap) && KeysShowTotals(job)
    ensures NonNegative(AddedOn(job, m, tour)) <==> NoneNegative(job, m.seen, tour)
  {
    if tour != [] {
      var p, front := tour[|tour| - 1], tour[..|tour| - 1];
      var seen := Walk(job, m, front).seen;
      AddedNonNegativeIff(job, m, front);
      SeenGrows(job, m, front);
      NoneNegativeLast(job, m.seen, seen, tour);
      AddedLast(job, m, tour);
      if Fresh(job, seen, p) {
        NonNegativeAppend(AddedOn(job, m, front), Incoming(job, p));
      }
    }
  }

  lemma WalkDrifts(job: Job, m: Merge, after: Stats, tour: seq<Place>)
    requires Within(tour, job.snap) && Exact(m.stats) && after == Walk(job, m, tour).stats
    ensures Drifts(after, AddedOn(job, m, tour))
  {
    forall f ensures Aggregate(after, f) == OverApis(after.apis, f) + SumForgiven(f, AddedOn(job, m, tour)) {
      WalkExcess(job, m, tour, f);
      assert Aggregate(m.stats, f) == OverApis(m.stats.apis, f);
    }
  }

  lemma WalkExactIff(job: Job, m: Merge, after: Stats, tour: seq<Place>)
    requires Within(tour, job.snap) && KeysShowTotals(job) && Exact(m.stats) && after == Walk(job, m, tour).stats
    ensures Exact(after) <==> NoneNegative(job, m.seen, tour)
  {
    WalkDrifts(job, m, after, tour);
    DriftDecides(after, AddedOn(job, m, tour));
    AddedNonNegativeIff(job, m, tour);
  }

  /** An import keeps exact aggregates exact if and only if none of the details it does not know is negative. */
  lemma MergeExactIff(job: Job, s: Stats, tour: seq<Place>)
    requires Consistent(s) && IsTour(tour, job.snap) && Ticking(job) && KeysShowTotals(job)
    ensures Consistent(Merged(job, s, tour).stats) <==> NoneNegative(job, StoredKeys(s.apis, job.key), tour)
  {
    WalkStanding(job, Start(job, s), tour);
    WalkExactIff(job, Start(job, s), Merged(job, s, tour).stats, tour);
  }

  // ----- stored details are prepared

  ghost predicate AllPrepared(apis: map<string, ApiStats>) {
    forall a, m, i :: 0 <= i < |DetailsOf(apis, a, m)| ==> Prepared(DetailsOf(apis, a, m)[i])
  }

  lemma StoredDetails(apis: map<string, ApiStats>, api: string, model: string, d: Detail, a: string, m: string)
    ensures DetailsOf(Stored(apis, api, model, d), a, m)
         == DetailsOf(apis, a, m) + if a == api && m == model then [d] else []
  {
  }

  lemma StoredPrepared(apis: map<string, ApiStats>, api: string, model: string, d: Detail)
    requires AllPrepared(apis) && Prepared(d)
    ensures AllPrepared(Stored(apis, api, model, d))
  {
    forall a, m, i | 0 <= i < |DetailsOf(Stored(apis, api, model, d), a, m)|
      ensures Prepared(DetailsOf(Stored(apis, api, model, d), a, m)[i])
    {
      StoredDetails(apis, api, model, d, a, m);
    }
  }

  lemma OpenDetails(s: Stats, api: string, a: string, m: string)
    ensures DetailsOf(OpenApi(s, api).apis, a, m) == DetailsOf(s.apis, a, m)
  {
  }

  lemma {:induction false} WalkPrepared(job: Job, m: Merge, tour: seq<Place>)
    requires Within(tour, job.snap) && Ticking(job) && AllPrepared(m.stats.apis)
    ensures AllPrepared(Walk(job, m, tour).stats.apis)
  {
    if tour != [] {
      var p := tour[|tour| - 1];
      assert Belongs(p, job.snap);
      WalkPrepared(job, m, tour[..|tour| - 1]);
      var w := Walk(job, m, tour[..|tour| - 1]);
      if p.Open? {
        forall a, n ensures DetailsOf(OpenApi(w.stats, TrimSpace(p.api)).apis, a, n) == DetailsOf(w.stats.apis, a, n) {
          OpenDetails(w.stats, TrimSpace(p.api), a, n);
        }
      } else {
        PrepareSettles(job.snap[p.api][p.model][p.index], job.clock(p), job.clock(p));
        StoredPrepared(w.stats.apis, TrimSpace(p.api), ModelName(p.model), Incoming(job, p));
      }
    }
  }

  lemma DetailPrepared(r: Request, now: Moment)
    requires now.instant != 0
    ensures Prepared(DetailFor(r, now))
  {
    PrepareSettles(DetailFor(r, now).(tokens := r.tokens), now, now);
  }

  /** In every run, each stored detail has its token total, latencies and timestamp settled. */
  lemma {:induction false} PreparedInEveryRun(events: seq<Event>)
    requires Legal(events)
    ensures AllPrepared(Run(events).apis)
  {
    if events != [] {
      var s := Run(events[..|events| - 1]);
      PreparedInEveryRun(events[..|events| - 1]);
      assert Possible(events[|events| - 1]);
      match events[|events| - 1]
      case Recording(r, now) =>
        DetailPrepared(r, now);
        StoredPrepared(s.apis, StatsKey(r), RecordModel(r), DetailFor(r, now));
      case Importing(job, tour) =>
        WalkPrepared(job, Start(job, s), tour);
    }
  }
}
