/** The registry with its cache of listings, as one system: what every answer is in every run. */
module RegistryCache {
  import opened Wrappers
  import opened RegistryTables
  import opened RegistryRuns
  import opened RegistryListing

  /** A cached listing, when it expires, and when it was built. */
  datatype Cached = Cached(list: seq<ModelInfo>, expiresAt: Option<Time>, builtAt: Time)

  datatype System = System(tables: Tables, cache: map<string, Cached>)

  const START := System(EMPTY, map[])

  /** A mutator, or a handler's question with the answer given to it. */
  datatype Act = Change(event: Event) | Ask(handler: string, now: Time, answer: seq<ModelInfo>)

  predicate Hit(s: System, handler: string, now: Time) {
    handler in s.cache && Unexpired(s.cache[handler].expiresAt, now)
  }

  /**
   * A mutator empties the cache or changes no entry it depends on. A question is answered from the
   * cache, or by a new listing that is cached until the earliest recovery.
   */
  ghost predicate Acts(s: System, a: Act, after: System) {
    match a
    case Change(e) =>
      && after.tables == Apply(s.tables, e)
      && (after.cache == map[] || (after.cache == s.cache && after.tables.models == s.tables.models))
    case Ask(handler, now, answer) =>
      && after.tables == s.tables
      && if Hit(s, handler, now) then after.cache == s.cache && answer == s.cache[handler].list
         else
           && handler in after.cache
           && after.cache == s.cache[handler := Cached(answer, after.cache[handler].expiresAt, now)]
           && IsListing(answer, s.tables.models, handler, now)
           && EarliestRecovery(s.tables.models, now, after.cache[handler].expiresAt)
  }

  ghost predicate CachedRight(models: map<string, Registration>, handler: string, c: Cached) {
    IsListing(c.list, models, handler, c.builtAt) && EarliestRecovery(models, c.builtAt, c.expiresAt)
  }

  /** Every cached listing was right when it was built, and expires at the next recovery. */
  ghost predicate Coherent(s: System) {
    forall h :: h in s.cache ==> CachedRight(s.tables.models, h, s.cache[h])
  }

  /** No cached listing was built after `clock`. */
  ghost predicate BuiltBy(s: System, clock: Time) {
    forall h :: h in s.cache ==> s.cache[h].builtAt <= clock
  }

  lemma ActsCoherent(s: System, a: Act, after: System)
    requires Coherent(s) && Acts(s, a, after)
    ensures Coherent(after)
  {
    match a
    case Change(_) =>
    case Ask(handler, now, answer) =>
      forall h | h in after.cache ensures CachedRight(after.tables.models, h, after.cache[h]) {
        assert h in s.cache ==> CachedRight(s.tables.models, h, s.cache[h]);
      }
  }

  lemma ActsBuiltBy(s: System, a: Act, after: System, clock: Time)
    requires BuiltBy(s, clock) && Acts(s, a, after) && (a.Ask? ==> a.now <= clock)
    ensures BuiltBy(after, clock)
  {
  }

  /** With a clock not behind the cache, every answer is a listing of the current entries at the current time. */
  lemma AnswerCurrent(s: System, a: Act, after: System)
    requires Coherent(s) && a.Ask? && BuiltBy(s, a.now) && Acts(s, a, after)
    ensures IsListing(a.answer, s.tables.models, a.handler, a.now)
  {
    if Hit(s, a.handler, a.now) {
      var c := s.cache[a.handler];
      assert CachedRight(s.tables.models, a.handler, c);
      ListingUntilRecovery(c.list, s.tables.models, a.handler, c.builtAt, c.expiresAt, a.now);
    }
  }

  // ----- runs

  ghost predicate IsRun(states: seq<System>, acts: seq<Act>) {
    && |states| == |acts| + 1 && states[0] == START
    && forall i :: 0 <= i < |acts| ==> Acts(states[i], acts[i], states[i + 1])
  }

  /** Questions are asked at non-decreasing times. */
  ghost predicate ClockForward(acts: seq<Act>) {
    forall i, j :: 0 <= i <= j < |acts| && acts[i].Ask? && acts[j].Ask? ==> acts[i].now <= acts[j].now
  }

  lemma {:induction false} RunCoherent(states: seq<System>, acts: seq<Act>, i: nat)
    requires IsRun(states, acts) && i <= |acts|
    ensures Coherent(states[i])
  {
    if i > 0 {
      RunCoherent(states, acts, i - 1);
      ActsCoherent(states[i - 1], acts[i - 1], states[i]);
    }
  }

  lemma {:induction false} RunBuiltBy(states: seq<System>, acts: seq<Act>, i: nat, clock: Time)
    requires IsRun(states, acts) && i <= |acts|
    requires forall k :: 0 <= k < i && acts[k].Ask? ==> acts[k].now <= clock
    ensures BuiltBy(states[i], clock)
  {
    if i > 0 {
      RunBuiltBy(states, acts, i - 1, clock);
      ActsBuiltBy(states[i - 1], acts[i - 1], states[i], clock);
    }
  }

  /**
   * In every run of mutators and questions, however they alternate and for whatever handlers, each
   * answer, cached or not, shows exactly what is visible in the tables at the time of the question.
   */
  lemma EveryAnswerCurrent(states: seq<System>, acts: seq<Act>, i: nat)
    requires IsRun(states, acts) && ClockForward(acts) && i < |acts| && acts[i].Ask?
    ensures IsListing(acts[i].answer, states[i].tables.models, acts[i].handler, acts[i].now)
  {
    RunCoherent(states, acts, i);
    RunBuiltBy(states, acts, i, acts[i].now);
    AnswerCurrent(states[i], acts[i], states[i + 1]);
  }

  lemma {:induction false} RunConsistent(states: seq<System>, acts: seq<Act>, i: nat)
    requires IsRun(states, acts) && i <= |acts|
    ensures Consistent(states[i].tables)
  {
    if i == 0 {
      EmptyConsistent();
    } else {
      RunConsistent(states, acts, i - 1);
      if acts[i - 1].Change? {
        EventConsistent(states[i - 1].tables, acts[i - 1].event);
      }
    }
  }

  /** So, except for "gemini", a cached answer is the very list a rebuild would give. */
  lemma CachedIsRebuilt(states: seq<System>, acts: seq<Act>, i: nat, rebuilt: seq<ModelInfo>)
    requires IsRun(states, acts) && ClockForward(acts) && i < |acts| && acts[i].Ask? && acts[i].handler != "gemini"
    requires IsListing(rebuilt, states[i].tables.models, acts[i].handler, acts[i].now)
    ensures acts[i].answer == rebuilt
  {
    EveryAnswerCurrent(states, acts, i);
    RunConsistent(states, acts, i);
    ConsistentKeys(states[i].tables);
    ListingUnique(acts[i].answer, rebuilt, states[i].tables.models, acts[i].handler, acts[i].now);
  }
}
