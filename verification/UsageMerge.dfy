/** Importing an exported snapshot: what is skipped, what is added, and what is rebuilt. */
module UsageMerge {
  import opened Text
  import opened UsageFold

  /** The details a snapshot carries, by API name and model name. */
  type Export = map<string, map<string, seq<Detail>>>

  /** A point of the import's loops: entering an API, or reaching one of its details. */
  datatype Place = Open(api: string) | At(api: string, model: string, index: nat)

  /** A snapshot, the clock read at each place, and the deduplication key, which need not be injective. */
  datatype Job = Job(snap: Export, clock: Place -> Moment, key: (string, string, Detail) -> string)

  datatype Merge = Merge(stats: Stats, seen: set<string>, added: nat, skipped: nat)

  function ModelName(raw: string): string {
    if TrimSpace(raw) == "" then "unknown" else TrimSpace(raw)
  }

  /** A missing total is the sum of the other counts, without the cached ones if that is positive. */
  function Normalise(t: Tokens): Tokens {
    var direct := if t.total == 0 then t.input + t.output + t.reasoning else t.total;
    t.(total := if direct == 0 then t.input + t.output + t.reasoning + t.cached else direct)
  }

  function Prepare(d: Detail, now: Moment): Detail {
    d.(tokens := Normalise(d.tokens),
       latencyMs := if d.latencyMs < 0 then 0 else d.latencyMs,
       firstByteMs := if d.firstByteMs < 0 then 0 else d.firstByteMs,
       timestamp := if d.timestamp.instant == 0 then now else d.timestamp)
  }

  predicate Prepared(d: Detail) {
    Normalise(d.tokens) == d.tokens && d.latencyMs >= 0 && d.firstByteMs >= 0 && d.timestamp.instant != 0
  }

  /** Preparing settles a detail: preparing it again, at any later time, changes nothing. */
  lemma PrepareSettles(d: Detail, now: Moment, later: Moment)
    requires now.instant != 0
    ensures Prepared(Prepare(d, now)) && Prepare(Prepare(d, now), later) == Prepare(d, now)
  {
    var t := d.tokens;
    var n := Normalise(t);
    if n.total == 0 {
      assert t.input + t.output + t.reasoning == 0 && t.cached == 0;
    }
  }

  predicate Belongs(p: Place, snap: Export) {
    && p.api in snap && TrimSpace(p.api) != ""
    && (p.At? ==> p.model in snap[p.api] && p.index < |snap[p.api][p.model]|)
  }

  function Places(snap: Export): set<Place> {
    set a, m, i | a in snap && TrimSpace(a) != "" && m in snap[a] && 0 <= i < |snap[a][m]| :: At(a, m, i)
  }

  lemma BelongsIffPlace(p: Place, snap: Export)
    requires p.At?
    ensures Belongs(p, snap) <==> p in Places(snap)
  {
  }

  /** When a detail is reached, exactly the earlier details of its model have been. */
  ghost predicate InOrder(tour: seq<Place>) {
    forall n :: 0 <= n < |tour| && tour[n].At? ==> OnTime(tour[..n], tour[n])
  }

  ghost predicate OnTime(before: seq<Place>, p: Place)
    requires p.At?
  {
    forall j: nat :: At(p.api, p.model, j) in before <==> j < p.index
  }

  ghost predicate Within(tour: seq<Place>, snap: Export) {
    forall p :: p in tour ==> Belongs(p, snap)
  }

  /** Some order in which the import may go through a snapshot: maps are iterated in no fixed order. */
  ghost predicate IsTour(tour: seq<Place>, snap: Export) {
    Within(tour, snap) && (forall p :: Belongs(p, snap) ==> p in tour) && InOrder(tour)
  }

  function Incoming(job: Job, p: Place): Detail
    requires p.At? && Belongs(p, job.snap)
  {
    Prepare(job.snap[p.api][p.model][p.index], job.clock(p))
  }

  function KeyAt(job: Job, p: Place): string
    requires p.At? && Belongs(p, job.snap)
  {
    job.key(TrimSpace(p.api), ModelName(p.model), Incoming(job, p))
  }

  function OpenApi(s: Stats, api: string): Stats {
    s.(apis := s.apis[api := ApiIn(s.apis, api)])
  }

  function Step(job: Job, m: Merge, p: Place): Merge
    requires Belongs(p, job.snap)
  {
    match p
    case Open(api) => m.(stats := OpenApi(m.stats, TrimSpace(api)))
    case At(api, model, _) =>
      if KeyAt(job, p) in m.seen then m.(skipped := m.skipped + 1)
      else
        Merge(Import(m.stats, TrimSpace(api), ModelName(model), Incoming(job, p)),
              m.seen + {KeyAt(job, p)}, m.added + 1, m.skipped)
  }

  ghost function Walk(job: Job, m: Merge, tour: seq<Place>): Merge
    requires Within(tour, job.snap)
  {
    if tour == [] then m
    else Step(job, Walk(job, m, tour[..|tour| - 1]), tour[|tour| - 1])
  }

  ghost function StoredKeys(apis: map<string, ApiStats>, key: (string, string, Detail) -> string): set<string> {
    set a, m, i | a in apis && m in apis[a].models && 0 <= i < |apis[a].models[m].details|
      :: key(a, m, apis[a].models[m].details[i])
  }

  ghost function Start(job: Job, s: Stats): Merge {
    Merge(s, StoredKeys(s.apis, job.key), 0, 0)
  }

  /** The import of a snapshot along one tour. */
  ghost function Merged(job: Job, s: Stats, tour: seq<Place>): Merge
    requires Within(tour, job.snap)
  {
    Walk(job, Start(job, s), tour)
  }

  ghost function SnapshotKeys(job: Job): set<string> {
    set p | p in Places(job.snap) :: KeyAt(job, p)
  }

  // ----- the stored keys

  ghost predicate HasKey(apis: map<string, ApiStats>, key: (string, string, Detail) -> string, k: string) {
    exists a, m, i :: a in apis && m in apis[a].models && 0 <= i < |apis[a].models[m].details|
      && key(a, m, apis[a].models[m].details[i]) == k
  }

  lemma StoredHasKey(
    apis: map<string, ApiStats>, key: (string, string, Detail) -> string, api: string, model: string, d: Detail, k: string)
    ensures HasKey(Stored(apis, api, model, d), key, k) <==> HasKey(apis, key, k) || k == key(api, model, d)
  {
    var more := Stored(apis, api, model, d);
    var ds := DetailsOf(apis, api, model);
    assert more[api].models[model].details == ds + [d];
    if HasKey(apis, key, k) {
      var a, m, i :| a in apis && m in apis[a].models && 0 <= i < |apis[a].models[m].details|
        && key(a, m, apis[a].models[m].details[i]) == k;
      assert m in more[a].models && i < |more[a].models[m].details|;
      assert more[a].models[m].details[i] == apis[a].models[m].details[i];
    }
    if k == key(api, model, d) {
      assert more[api].models[model].details[|ds|] == d;
    }
    if HasKey(more, key, k) {
      var a, m, i :| a in more && m in more[a].models && 0 <= i < |more[a].models[m].details|
        && key(a, m, more[a].models[m].details[i]) == k;
      if a != api || m != model {
        assert a in apis && m in apis[a].models && apis[a].models[m].details == more[a].models[m].details;
      } else if i < |ds| {
        assert apis[a].models[m].details[i] == more[a].models[m].details[i];
      }
    }
  }

  lemma StoredAddsKey(
    apis: map<string, ApiStats>, key: (string, string, Detail) -> string, api: string, model: string, d: Detail)
    ensures StoredKeys(Stored(apis, api, model, d), key) == StoredKeys(apis, key) + {key(api, model, d)}
  {
    forall k
      ensures k in StoredKeys(Stored(apis, api, model, d), key) <==> k in StoredKeys(apis, key) || k == key(api, model, d)
    {
      StoredHasKey(apis, key, api, model, d, k);
      assert k in StoredKeys(apis, key) <==> HasKey(apis, key, k);
      assert k in StoredKeys(Stored(apis, api, model, d), key) <==> HasKey(Stored(apis, api, model, d), key, k);
    }
  }

  lemma OpenAddsNoKey(s: Stats, api: string, key: (string, string, Detail) -> string)
    ensures StoredKeys(OpenApi(s, api).apis, key) == StoredKeys(s.apis, key)
  {
    var more := OpenApi(s, api).apis;
    forall k ensures HasKey(more, key, k) <==> HasKey(s.apis, key, k) {
      if HasKey(more, key, k) {
        var a, m, i :| a in more && m in more[a].models && 0 <= i < |more[a].models[m].details|
          && key(a, m, more[a].models[m].details[i]) == k;
        assert a in s.apis && s.apis[a] == more[a];
      }
      if HasKey(s.apis, key, k) {
        var a, m, i :| a in s.apis && m in s.apis[a].models && 0 <= i < |s.apis[a].models[m].details|
          && key(a, m, s.apis[a].models[m].details[i]) == k;
        assert a in more && s.apis[a] == more[a];
      }
    }
    forall k ensures k in StoredKeys(more, key) <==> k in StoredKeys(s.apis, key) {
      assert k in StoredKeys(s.apis, key) <==> HasKey(s.apis, key, k);
      assert k in StoredKeys(more, key) <==> HasKey(more, key, k);
    }
  }

  /** The set of seen keys always is the set of stored keys. */
  lemma {:induction false} SeenIsStored(job: Job, m: Merge, tour: seq<Place>)
    requires Within(tour, job.snap) && m.seen == StoredKeys(m.stats.apis, job.key)
    ensures Walk(job, m, tour).seen == StoredKeys(Walk(job, m, tour).stats.apis, job.key)
  {
    if tour != [] {
      var p := tour[|tour| - 1];
      SeenIsStored(job, m, tour[..|tour| - 1]);
      var w := Walk(job, m, tour[..|tour| - 1]);
      if p.Open? {
        OpenAddsNoKey(w.stats, TrimSpace(p.api), job.key);
      } else {
        StoredAddsKey(w.stats.apis, job.key, TrimSpace(p.api), ModelName(p.model), Incoming(job, p));
      }
    }
  }

  ghost function KeysOn(job: Job, tour: seq<Place>): set<string>
    requires Within(tour, job.snap)
  {
    set p | p in tour && p.At? :: KeyAt(job, p)
  }

  ghost function Stops(tour: seq<Place>): set<Place> {
    set p | p in tour && p.At?
  }

  lemma SplitLast(tour: seq<Place>)
    requires tour != []
    ensures tour == tour[..|tour| - 1] + [tour[|tour| - 1]]
    ensures forall p :: p in tour <==> p in tour[..|tour| - 1] || p == tour[|tour| - 1]
    ensures InOrder(tour) ==> InOrder(tour[..|tour| - 1])
  {
    var front := tour[..|tour| - 1];
    if InOrder(tour) {
      forall n | 0 <= n < |front| && front[n].At? ensures OnTime(front[..n], front[n]) {
        assert front[..n] == tour[..n];
      }
    }
  }

  lemma StepGrows(job: Job, m: Merge, p: Place)
    requires Belongs(p, job.snap)
    ensures Step(job, m, p).seen == if p.At? then m.seen + {KeyAt(job, p)} else m.seen
    ensures |Step(job, m, p).seen| - Step(job, m, p).added == |m.seen| - m.added
    ensures Step(job, m, p).added + Step(job, m, p).skipped == m.added + m.skipped + if p.At? then 1 else 0
  {
  }

  lemma {:induction false} SeenGrows(job: Job, m: Merge, tour: seq<Place>)
    requires Within(tour, job.snap)
    ensures Walk(job, m, tour).seen == m.seen + KeysOn(job, tour)
  {
    if tour != [] {
      SeenGrows(job, m, tour[..|tour| - 1]);
      StepGrows(job, Walk(job, m, tour[..|tour| - 1]), tour[|tour| - 1]);
      KeysOnLast(job, tour);
    }
  }

  lemma {:induction false} AddedGrows(job: Job, m: Merge, tour: seq<Place>)
    requires Within(tour, job.snap)
    ensures |Walk(job, m, tour).seen| - Walk(job, m, tour).added == |m.seen| - m.added
  {
    if tour != [] {
      AddedGrows(job, m, tour[..|tour| - 1]);
      StepGrows(job, Walk(job, m, tour[..|tour| - 1]), tour[|tour| - 1]);
    }
  }

  lemma KeysOnLast(job: Job, tour: seq<Place>)
    requires Within(tour, job.snap) && tour != []
    ensures tour[|tour| - 1].Open? ==> KeysOn(job, tour) == KeysOn(job, tour[..|tour| - 1])
    ensures tour[|tour| - 1].At? ==> KeysOn(job, tour) == KeysOn(job, tour[..|tour| - 1]) + {KeyAt(job, tour[|tour| - 1])}
  {
    SplitLast(tour);
  }

  lemma StopsLast(tour: seq<Place>)
    requires tour != [] && InOrder(tour)
    ensures |Stops(tour)| == |Stops(tour[..|tour| - 1])| + if tour[|tour| - 1].At? then 1 else 0
  {
    var p, front := tour[|tour| - 1], tour[..|tour| - 1];
    SplitLast(tour);
    if p.At? {
      assert OnTime(front, p);
      assert Stops(tour) == Stops(front) + {p} && p !in Stops(front);
    } else {
      assert Stops(tour) == Stops(front);
    }
  }

  lemma {:induction false} CountsStops(job: Job, m: Merge, tour: seq<Place>)
    requires Within(tour, job.snap) && InOrder(tour)
    ensures Walk(job, m, tour).added + Walk(job, m, tour).skipped == m.added + m.skipped + |Stops(tour)|
  {
    if tour != [] {
      SplitLast(tour);
      CountsStops(job, m, tour[..|tour| - 1]);
      StepGrows(job, Walk(job, m, tour[..|tour| - 1]), tour[|tour| - 1]);
      StopsLast(tour);
    }
  }

  lemma KeysOnTour(job: Job, tour: seq<Place>)
    requires IsTour(tour, job.snap)
    ensures KeysOn(job, tour) == SnapshotKeys(job)
  {
    TourStops(tour, job.snap);
    assert KeysOn(job, tour) == set p | p in Stops(tour) :: KeyAt(job, p);
  }

  lemma UnionSize<T>(a: set<T>, b: set<T>)
    ensures |a + b| == |a| + |b - a|
  {
    assert a + b == a + (b - a);
  }

  lemma TourStops(tour: seq<Place>, snap: Export)
    requires IsTour(tour, snap)
    ensures Stops(tour) == Places(snap)
  {
    forall p ensures p in Stops(tour) <==> p in Places(snap) {
      assert p.At? ==> (Belongs(p, snap) <==> p in Places(snap));
    }
  }

  /**
   * In whatever order the maps are iterated: the stored keys become the union of both sides, as many
   * details are added as there are new keys, and every detail is either added or skipped.
   */
  lemma MergeUnites(job: Job, s: Stats, tour: seq<Place>)
    requires IsTour(tour, job.snap)
    ensures var r := Merged(job, s, tour);
      && StoredKeys(r.stats.apis, job.key) == StoredKeys(s.apis, job.key) + SnapshotKeys(job)
      && r.added == |SnapshotKeys(job) - StoredKeys(s.apis, job.key)|
      && r.added + r.skipped == |Places(job.snap)|
  {
    var m := Start(job, s);
    SeenIsStored(job, m, tour);
    SeenGrows(job, m, tour);
    AddedGrows(job, m, tour);
    CountsStops(job, m, tour);
    TourStops(tour, job.snap);
    KeysOnTour(job, tour);
    UnionSize(m.seen, SnapshotKeys(job));
  }

  // ----- merging the same snapshot again

  lemma {:induction false} NothingNew(job: Job, m: Merge, tour: seq<Place>)
    requires Within(tour, job.snap)
    requires forall p :: p in tour && p.At? ==> KeyAt(job, p) in m.seen
    requires forall p :: p in tour && p.Open? ==> TrimSpace(p.api) in m.stats.apis
    ensures Walk(job, m, tour).stats == m.stats && Walk(job, m, tour).seen == m.seen && Walk(job, m, tour).added == m.added
  {
    if tour != [] {
      SplitLast(tour);
      NothingNew(job, m, tour[..|tour| - 1]);
      var p := tour[|tour| - 1];
      if p.Open? {
        var apis, api := m.stats.apis, TrimSpace(p.api);
        assert apis[api := apis[api]] == apis;
      }
    }
  }

  lemma StepKeepsApis(job: Job, m: Merge, p: Place, a: string)
    requires Belongs(p, job.snap)
    ensures a in m.stats.apis ==> a in Step(job, m, p).stats.apis
    ensures p.Open? && a == TrimSpace(p.api) ==> a in Step(job, m, p).stats.apis
  {
  }

  lemma {:induction false} OpenedAt(job: Job, m: Merge, tour: seq<Place>, p: Place)
    requires Within(tour, job.snap) && p in tour && p.Open?
    ensures TrimSpace(p.api) in Walk(job, m, tour).stats.apis
  {
    var front, last := tour[..|tour| - 1], tour[|tour| - 1];
    SplitLast(tour);
    if p != last {
      OpenedAt(job, m, front, p);
    }
    StepKeepsApis(job, Walk(job, m, front), last, TrimSpace(p.api));
  }

  /** Every API the tour enters is there afterwards. */
  lemma Opened(job: Job, m: Merge, tour: seq<Place>)
    requires Within(tour, job.snap)
    ensures forall p :: p in tour && p.Open? ==> TrimSpace(p.api) in Walk(job, m, tour).stats.apis
  {
    forall p | p in tour && p.Open? ensures TrimSpace(p.api) in Walk(job, m, tour).stats.apis {
      OpenedAt(job, m, tour, p);
    }
  }

  /**
   * Whatever the timestamps: a second merge adds exactly one detail for each key that neither the store
   * nor the first merge had, which only details stamped by the clock can have.
   */
  lemma MergeAgainAdds(job: Job, again: Job, s: Stats, tour: seq<Place>, tour': seq<Place>)
    requires again.snap == job.snap && again.key == job.key
    requires IsTour(tour, job.snap) && IsTour(tour', job.snap)
    ensures var once := Merged(job, s, tour).stats;
      Merged(again, once, tour').added
      == |SnapshotKeys(again) - (StoredKeys(s.apis, job.key) + SnapshotKeys(job))|
    ensures forall p :: p in Places(job.snap) && KeyAt(again, p) !in SnapshotKeys(job) ==>
      job.snap[p.api][p.model][p.index].timestamp.instant == 0
  {
    MergeUnites(job, s, tour);
    MergeUnites(again, Merged(job, s, tour).stats, tour');
    forall p | p in Places(job.snap) && job.snap[p.api][p.model][p.index].timestamp.instant != 0
      ensures KeyAt(again, p) in SnapshotKeys(job)
    {
      assert Incoming(again, p) == Incoming(job, p);
      assert KeyAt(job, p) in SnapshotKeys(job);
    }
  }

  /** A snapshot with one detail, which has no timestamp. */
  ghost predicate OneUnstamped(snap: Export, d: Detail) {
    d.timestamp.instant == 0 && snap == map["a" := map["m" := [d]]]
  }

  lemma OnlyKey(job: Job, d: Detail, k: string)
    requires OneUnstamped(job.snap, d)
    requires forall x :: x == Prepare(d, job.clock(At("a", "m", 0))) ==> job.key("a", "m", x) == k
    ensures SnapshotKeys(job) == {k}
  {
    OnlyPlace(job, d);
    assert TrimSpace("a") == "a" && TrimSpace("m") == "m";
    assert KeyAt(job, At("a", "m", 0)) == k;
  }

  lemma OneElement(k: string, others: set<string>)
    requires k !in others
    ensures |{k} - others| == 1
  {
    assert {k} - others == {k};
  }

  /** Imported at two times that the key tells apart, it is added both times. */
  lemma UnstampedAddedAgain(job: Job, again: Job, s: Stats, d: Detail, tour: seq<Place>, tour': seq<Place>)
    requires OneUnstamped(job.snap, d) && again.snap == job.snap && again.key == job.key
    requires IsTour(tour, job.snap) && IsTour(tour', job.snap)
    requires forall p :: job.clock(p).instant == 1 && again.clock(p).instant == 2
    requires forall a, m, x :: job.key(a, m, x) == if x.timestamp.instant == 1 then "first" else "later"
    requires StoredKeys(s.apis, job.key) == {}
    ensures var once := Merged(job, s, tour);
      once.added == 1 && Merged(again, once.stats, tour').added == 1
  {
    OnlyKey(job, d, "first");
    OnlyKey(again, d, "later");
    MergeUnites(job, s, tour);
    MergeAgainAdds(job, again, s, tour, tour');
    OneElement("first", {});
    OneElement("later", {} + {"first"});
  }

  lemma OnlyPlace(job: Job, d: Detail)
    requires OneUnstamped(job.snap, d)
    ensures Places(job.snap) == {At("a", "m", 0)}
  {
    assert TrimSpace("a") == "a";
    forall p ensures p in Places(job.snap) <==> p == At("a", "m", 0) {
    }
  }

  /** No detail of a named API lacks a timestamp. */
  ghost predicate Stamped(snap: Export) {
    forall p :: p in Places(snap) ==> snap[p.api][p.model][p.index].timestamp.instant != 0
  }

  /**
   * Merging the same snapshot again, whenever and in whatever order, adds nothing and changes nothing,
   * provided that no detail takes its timestamp from the clock.
   */
  lemma MergeTwice(job: Job, again: Job, s: Stats, tour: seq<Place>, tour': seq<Place>)
    requires again.snap == job.snap && again.key == job.key && Stamped(job.snap)
    requires IsTour(tour, job.snap) && IsTour(tour', job.snap)
    ensures var once := Merged(job, s, tour).stats; var twice := Merged(again, once, tour');
      twice.stats == once && twice.added == 0 && twice.skipped == |Places(job.snap)|
  {
    var once := Merged(job, s, tour).stats;
    MergeUnites(job, s, tour);
    forall p | p in tour' && p.At? ensures KeyAt(again, p) in StoredKeys(once.apis, job.key) {
      assert p in Places(job.snap);
      assert Incoming(again, p) == Incoming(job, p);
      assert KeyAt(job, p) in SnapshotKeys(job);
    }
    Opened(job, Start(job, s), tour);
    forall p | p in tour' && p.Open? ensures TrimSpace(p.api) in once.apis {
      assert p in tour;
    }
    NothingNew(again, Start(again, once), tour');
    MergeUnites(again, once, tour');
  }
}
