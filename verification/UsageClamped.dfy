/** What the aggregates would be had every stored detail been imported, with its total clamped. */
module UsageClamped {
  import opened MapSum
  import opened Text
  import opened UsageFold
  import opened UsageMerge
  import opened UsageRuns

  function Clamp(d: Detail): Detail {
    Counting(d, ClampedTokens(d))
  }

  function ClampAll(ds: seq<Detail>): seq<Detail> {
    seq(|ds|, i requires 0 <= i < |ds| => Clamp(ds[i]))
  }

  function ClampModels(models: map<string, ModelStats>): map<string, ModelStats> {
    map m | m in models :: ModelStats(models[m].counters, ClampAll(models[m].details))
  }

  /** The stored details with no total below zero. */
  function Clamped(apis: map<string, ApiStats>): map<string, ApiStats> {
    map a | a in apis :: ApiStats(apis[a].counters, ClampModels(apis[a].models))
  }

  /** The global aggregates are what importing all the stored details makes them. */
  ghost predicate AsImported(s: Stats) {
    forall f :: Aggregate(s, f) == OverApis(Clamped(s.apis), f)
  }

  // ----- sums depend on the details alone

  lemma SameModelSums(a: map<string, ModelStats>, b: map<string, ModelStats>, f: Metric)
    requires a.Keys == b.Keys && forall m :: m in a ==> a[m].details == b[m].details
    ensures OverModels(a, f) == OverModels(b, f)
  {
    assert PerModel(a, f) == PerModel(b, f);
  }

  lemma SameSums(a: map<string, ApiStats>, b: map<string, ApiStats>, f: Metric)
    requires SameDetails(a, b)
    ensures OverApis(a, f) == OverApis(b, f)
  {
    forall api | api in a ensures OverModels(a[api].models, f) == OverModels(b[api].models, f) {
      SameModelSums(a[api].models, b[api].models, f);
    }
    assert PerApi(a, f) == PerApi(b, f);
  }

  lemma ClampAppend(ds: seq<Detail>, d: Detail)
    ensures ClampAll(ds + [d]) == ClampAll(ds) + [Clamp(d)]
  {
  }

  lemma ClampStored(apis: map<string, ApiStats>, api: string, model: string, d: Detail)
    ensures SameDetails(Clamped(Stored(apis, api, model, d)), Stored(Clamped(apis), api, model, Clamp(d)))
  {
    ClampAppend(ModelIn(ApiIn(apis, api).models, model).details, d);
  }

  lemma ClampOpened(apis: map<string, ApiStats>, api: string)
    ensures SameDetails(Clamped(apis[api := ApiIn(apis, api)]), Clamped(apis)[api := ApiIn(Clamped(apis), api)])
  {
  }

  // ----- how far the aggregates fall short of that

  ghost function Shortfall(s: Stats, f: Metric): int {
    OverApis(Clamped(s.apis), f) - Aggregate(s, f)
  }

  lemma AddShortfall(s: Stats, api: string, model: string, d: Detail, tokens: int, f: Metric)
    ensures Shortfall(Add(s, api, model, d, tokens), f)
         == Shortfall(s, f) + Value(f, Clamp(d)) - Value(f, Counting(d, tokens))
  {
    ClampStored(s.apis, api, model, d);
    SameSums(Clamped(Stored(s.apis, api, model, d)), Stored(Clamped(s.apis), api, model, Clamp(d)), f);
    OverApisAdd(Clamped(s.apis), api, model, Clamp(d), f);
    AddAggregate(s, api, model, d, tokens, f);
  }

  lemma OpenShortfall(s: Stats, api: string, f: Metric)
    ensures Shortfall(OpenApi(s, api), f) == Shortfall(s, f)
  {
    ClampOpened(s.apis, api);
    SameSums(Clamped(OpenApi(s, api).apis), Clamped(s.apis)[api := ApiIn(Clamped(s.apis), api)], f);
    OpenTotals(Clamped(s.apis), api, f);
  }

  /** Imports make nothing fall short. */
  lemma {:induction false} WalkShortfall(job: Job, m: Merge, tour: seq<Place>, f: Metric)
    requires Within(tour, job.snap)
    ensures Shortfall(Walk(job, m, tour).stats, f) == Shortfall(m.stats, f)
  {
    if tour != [] {
      var p, w := tour[|tour| - 1], Walk(job, m, tour[..|tour| - 1]);
      assert Belongs(p, job.snap);
      WalkShortfall(job, m, tour[..|tour| - 1], f);
      if p.Open? {
        OpenShortfall(w.stats, TrimSpace(p.api), f);
      } else if KeyAt(job, p) !in w.seen {
        var d := Incoming(job, p);
        AddShortfall(w.stats, TrimSpace(p.api), ModelName(p.model), d, ClampedTokens(d), f);
      }
    }
  }

  function RecordedBy(e: Event): seq<Detail> {
    if e.Recording? then [DetailFor(e.request, e.now)] else []
  }

  /** All details recorded in a run. */
  function RecordedIn(events: seq<Event>): seq<Detail> {
    if events == [] then [] else RecordedIn(events[..|events| - 1]) + RecordedBy(events[|events| - 1])
  }

  lemma SumForgivenOne(f: Metric, d: Detail)
    ensures SumForgiven(f, [d]) == Forgiven(f, d)
  {
    assert [d][..0] == [];
  }

  lemma ApplyShortfall(s: Stats, e: Event, f: Metric)
    requires Possible(e)
    ensures Shortfall(Apply(s, e), f) == Shortfall(s, f) + SumForgiven(f, RecordedBy(e))
  {
    match e
    case Recording(r, now) =>
      var d := DetailFor(r, now);
      AddShortfall(s, StatsKey(r), RecordModel(r), d, d.tokens.total, f);
      SumForgivenOne(f, d);
      assert Counting(d, d.tokens.total) == d;
    case Importing(job, tour) =>
      WalkShortfall(job, Start(job, s), tour, f);
  }

  lemma EmptyShortfall(empty: Stats, f: Metric)
    requires empty == EMPTY
    ensures Shortfall(empty, f) == 0
  {
    EmptySums(empty.apis, f);
    EmptySums(Clamped(empty.apis), f);
  }

  /** In every run the aggregates fall short by exactly what clamping would have added for the recorded details. */
  lemma {:induction false} ShortfallInEveryRun(events: seq<Event>, f: Metric)
    requires Legal(events)
    ensures Shortfall(Run(events), f) == SumForgiven(f, RecordedIn(events))
  {
    if events == [] {
      EmptyShortfall(Run(events), f);
    } else {
      var front, e := events[..|events| - 1], events[|events| - 1];
      ShortfallInEveryRun(front, f);
      ApplyShortfall(Run(front), e, f);
      SumForgivenConcat(f, RecordedIn(front), RecordedBy(e));
    }
  }

  ghost predicate FallsShort(s: Stats, recorded: seq<Detail>) {
    forall f :: Shortfall(s, f) == SumForgiven(f, recorded)
  }

  lemma FallsShortDecides(s: Stats, recorded: seq<Detail>)
    requires FallsShort(s, recorded)
    ensures AsImported(s) <==> NonNegative(recorded)
  {
    if NonNegative(recorded) {
      forall f ensures Aggregate(s, f) == OverApis(Clamped(s.apis), f) {
        assert Shortfall(s, f) == SumForgiven(f, recorded);
        SumForgivenZero(f, recorded);
      }
    }
    if AsImported(s) {
      assert Aggregate(s, TokenCount) == OverApis(Clamped(s.apis), TokenCount);
      assert Shortfall(s, TokenCount) == SumForgiven(TokenCount, recorded);
      SumForgivenPositive(recorded);
    }
  }

  lemma RunFallsShort(events: seq<Event>, s: Stats)
    requires Legal(events) && s == Run(events)
    ensures FallsShort(s, RecordedIn(events))
  {
    forall f ensures Shortfall(s, f) == SumForgiven(f, RecordedIn(events)) {
      ShortfallInEveryRun(events, f);
    }
  }

  /** So they are as imported if and only if no recorded detail has a negative total. */
  lemma AsImportedInEveryRunIff(events: seq<Event>)
    requires Legal(events)
    ensures AsImported(Run(events)) <==> NonNegative(RecordedIn(events))
  {
    RunFallsShort(events, Run(events));
    FallsShortDecides(Run(events), RecordedIn(events));
  }

  // ----- exact aggregates

  ghost predicate TotalsNonNegative(apis: map<string, ApiStats>) {
    forall a, m, i :: 0 <= i < |DetailsOf(apis, a, m)| ==> DetailsOf(apis, a, m)[i].tokens.total >= 0
  }

  lemma {:induction false} ClampRaises(ds: seq<Detail>)
    ensures SumDetails(ClampAll(ds), TokenCount) >= SumDetails(ds, TokenCount)
    ensures SumDetails(ClampAll(ds), TokenCount) == SumDetails(ds, TokenCount) ==>
      forall i :: 0 <= i < |ds| ==> ds[i].tokens.total >= 0
  {
    if ds != [] {
      var front, d := ds[..|ds| - 1], ds[|ds| - 1];
      assert ds == front + [d];
      ClampRaises(front);
      ClampAppend(front, d);
      SumAppend(ClampAll(front), Clamp(d), TokenCount);
      SumAppend(front, d, TokenCount);
    }
  }

  lemma ModelsRaise(models: map<string, ModelStats>)
    ensures OverModels(ClampModels(models), TokenCount) >= OverModels(models, TokenCount)
    ensures OverModels(ClampModels(models), TokenCount) == OverModels(models, TokenCount) ==>
      forall m, i :: m in models && 0 <= i < |models[m].details| ==> models[m].details[i].tokens.total >= 0
  {
    var low, high := PerModel(models, TokenCount), PerModel(ClampModels(models), TokenCount);
    forall m | m in models ensures low[m] <= high[m] {
      ClampRaises(models[m].details);
    }
    SumMonotone(low, high);
    if OverModels(ClampModels(models), TokenCount) == OverModels(models, TokenCount) {
      forall m, i | m in models && 0 <= i < |models[m].details| ensures models[m].details[i].tokens.total >= 0 {
        assert low[m] == high[m];
        ClampRaises(models[m].details);
      }
    }
  }

  lemma ApisRaise(apis: map<string, ApiStats>)
    requires OverApis(Clamped(apis), TokenCount) == OverApis(apis, TokenCount)
    ensures TotalsNonNegative(apis)
  {
    var low, high := PerApi(apis, TokenCount), PerApi(Clamped(apis), TokenCount);
    forall a | a in apis ensures low[a] <= high[a] {
      ModelsRaise(apis[a].models);
    }
    SumMonotone(low, high);
    forall a, m, i | 0 <= i < |DetailsOf(apis, a, m)| ensures DetailsOf(apis, a, m)[i].tokens.total >= 0 {
      assert low[a] == high[a];
      ModelsRaise(apis[a].models);
    }
  }

  lemma NothingToClamp(apis: map<string, ApiStats>)
    requires TotalsNonNegative(apis)
    ensures SameDetails(Clamped(apis), apis)
  {
    forall a, m | a in apis && m in apis[a].models
      ensures ClampAll(apis[a].models[m].details) == apis[a].models[m].details
    {
      var ds := DetailsOf(apis, a, m);
      forall i | 0 <= i < |ds| ensures Clamp(ds[i]) == ds[i] {
        assert ds[i].tokens.total >= 0;
      }
    }
  }

  /** Exact aggregates are as imported if and only if no stored total is negative. */
  lemma ExactAsImportedIff(s: Stats)
    requires Exact(s)
    ensures AsImported(s) <==> TotalsNonNegative(s.apis)
  {
    if AsImported(s) {
      assert Aggregate(s, TokenCount) == OverApis(Clamped(s.apis), TokenCount) == OverApis(s.apis, TokenCount);
      ApisRaise(s.apis);
    }
    if TotalsNonNegative(s.apis) {
      NothingToClamp(s.apis);
      forall f ensures Aggregate(s, f) == OverApis(Clamped(s.apis), f) {
        SameSums(Clamped(s.apis), s.apis, f);
      }
    }
  }
}
