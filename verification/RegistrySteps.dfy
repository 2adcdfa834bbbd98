/**
 * The small steps the registry's loops take on one entry, and how they add up to the
 * settled entry.
 */
module RegistrySteps {
  import opened Wrappers
  import opened MapSum
  import opened RegistryTables
  import opened RegistryLaws

  /** `n` registrations of a model added under `provider`; marks stay as they are. */
  function Added(entry: Option<Registration>, provider: string, n: nat, info: ModelInfo, now: Time): Option<Registration> {
    Settle(entry, "", false, "", 0, provider, n, info, now)
  }

  /** `n` registrations leave `provider` but not the model. */
  function Rehomed(entry: Option<Registration>, provider: string, n: nat): Option<Registration> {
    if entry.None? || n == 0 then entry
    else
      var r := entry.value;
      var providers := Shift(r.providers, provider, 0 - n);
      Some(r.(providers := providers,
              infoByProvider := map p | p in r.infoByProvider && p in providers :: r.infoByProvider[p]))
  }

  /** Fresh metadata and marks for a model the client keeps; `overlap` registrations join `provider`. */
  function Refreshed(
    entry: Option<Registration>, client: string, provider: string, overlap: nat, info: ModelInfo, now: Time)
    : Option<Registration>
  {
    if entry.None? then entry
    else
      var r := entry.value;
      Some(r.(info := info,
              infoByProvider := if provider != "" then r.infoByProvider[provider := info] else r.infoByProvider,
              lastUpdated := now,
              quotaExceeded := r.quotaExceeded - {client},
              suspended := r.suspended - {client},
              providers := Shift(r.providers, provider, overlap)))
  }

  ghost predicate EntryTidy(entry: Option<Registration>) {
    entry.Some? ==> Tidy(entry.value)
  }

  ghost predicate AllTidy(models: map<string, Registration>) {
    forall id :: id in models ==> Tidy(models[id])
  }

  lemma AddedTidy(entry: Option<Registration>, provider: string, n: nat, info: ModelInfo, now: Time)
    requires EntryTidy(entry)
    ensures EntryTidy(Added(entry, provider, n, info, now))
  {
  }

  lemma AddedTwice(r: Registration, provider: string, n: nat, info: ModelInfo, now: Time)
    requires Tidy(r) && n > 0
    ensures Added(Added(Some(r), provider, n, info, now), provider, 1, info, now) == Added(Some(r), provider, n + 1, info, now)
  {
    var two := Added(Added(Some(r), provider, n, info, now), provider, 1, info, now).value;
    var one := Added(Some(r), provider, n + 1, info, now).value;
    assert two.providers == one.providers;
    assert two.infoByProvider == one.infoByProvider;
    assert r.quotaExceeded - {} == r.quotaExceeded && r.suspended - {} == r.suspended;
  }

  lemma AddOneMore(entry: Option<Registration>, provider: string, n: nat, info: ModelInfo, now: Time)
    requires EntryTidy(entry)
    ensures EntryTidy(Added(entry, provider, n, info, now))
    ensures Added(Added(entry, provider, n, info, now), provider, 1, info, now) == Added(entry, provider, n + 1, info, now)
  {
    AddedTidy(entry, provider, n, info, now);
    if n > 0 {
      if entry.Some? {
        AddedTwice(entry.value, provider, n, info, now);
      } else {
        var two := Added(Added(entry, provider, n, info, now), provider, 1, info, now).value;
        var one := Added(entry, provider, n + 1, info, now).value;
        assert two.infoByProvider == one.infoByProvider;
        assert two.providers == one.providers;
        assert two.quotaExceeded == one.quotaExceeded && two.suspended == one.suspended;
      }
    }
  }

  lemma DroppedTidy(entry: Option<Registration>, client: string, provider: string, n: nat, now: Time)
    requires EntryTidy(entry)
    ensures EntryTidy(Dropped(entry, client, provider, n, now))
  {
  }

  /** Dropping one registration more from an entry that survives it. */
  lemma DroppedTwice(r: Registration, client: string, provider: string, n: nat, now: Time)
    requires Tidy(r) && 0 < n && n + 1 < r.count
    ensures Dropped(Dropped(Some(r), client, provider, n, now), client, provider, 1, now)
         == Dropped(Some(r), client, provider, n + 1, now)
  {
    var two := Dropped(Dropped(Some(r), client, provider, n, now), client, provider, 1, now).value;
    var one := Dropped(Some(r), client, provider, n + 1, now).value;
    assert two.providers == one.providers;
    assert two.infoByProvider == one.infoByProvider;
    assert two.quotaExceeded == one.quotaExceeded && two.suspended == one.suspended;
  }

  lemma DropOneMore(entry: Option<Registration>, client: string, provider: string, n: nat, now: Time)
    requires EntryTidy(entry)
    ensures EntryTidy(Dropped(entry, client, provider, n, now))
    ensures Dropped(Dropped(entry, client, provider, n, now), client, provider, 1, now)
         == Dropped(entry, client, provider, n + 1, now)
  {
    DroppedTidy(entry, client, provider, n, now);
    if n > 0 && entry.Some? && n + 1 < entry.value.count {
      DroppedTwice(entry.value, client, provider, n, now);
    }
  }

  lemma RehomedTidy(entry: Option<Registration>, provider: string, n: nat)
    requires EntryTidy(entry)
    ensures EntryTidy(Rehomed(entry, provider, n))
  {
  }

  function Times(counts: map<string, nat>, id: string): nat {
    if id in counts then counts[id] else 0
  }

  function InfoIn(infos: map<string, ModelInfo>, id: string): ModelInfo {
    if id in infos then infos[id] else NO_INFO
  }

  function Min(a: nat, b: nat): nat {
    if a <= b then a else b
  }

  /** The five phases of reconciling, as they reach one entry. */
  function AfterRehoming(
    entry: Option<Registration>, oldProvider: string, oldCount: nat, provider: string, newCount: nat)
    : Option<Registration>
  {
    if oldProvider != provider && oldProvider != "" then Rehomed(entry, oldProvider, Min(oldCount, newCount)) else entry
  }

  function AfterRemovals(
    entry: Option<Registration>, client: string, oldProvider: string, oldCount: nat, newCount: nat, now: Time)
    : Option<Registration>
  {
    if newCount == 0 then Dropped(entry, client, oldProvider, oldCount, now) else entry
  }

  function AfterOverage(
    entry: Option<Registration>, client: string, oldProvider: string, oldCount: nat, newCount: nat, now: Time)
    : Option<Registration>
  {
    if newCount > 0 && oldCount > newCount then Dropped(entry, client, oldProvider, oldCount - newCount, now) else entry
  }

  function AfterAdditions(
    entry: Option<Registration>, oldCount: nat, provider: string, newCount: nat, info: ModelInfo, now: Time)
    : Option<Registration>
  {
    if newCount > oldCount then Added(entry, provider, newCount - oldCount, info, now) else entry
  }

  function AfterRefresh(
    entry: Option<Registration>, client: string, oldProvider: string, oldCount: nat,
    provider: string, newCount: nat, info: ModelInfo, now: Time): Option<Registration>
  {
    if newCount > 0 then
      Refreshed(entry, client, provider, if oldProvider != provider then Min(oldCount, newCount) else 0, info, now)
    else entry
  }

  function Phases(
    entry: Option<Registration>, client: string, oldProvider: string, oldCount: nat,
    provider: string, newCount: nat, info: ModelInfo, now: Time): Option<Registration>
  {
    var e1 := AfterRehoming(entry, oldProvider, oldCount, provider, newCount);
    var e2 := AfterRemovals(e1, client, oldProvider, oldCount, newCount, now);
    var e3 := AfterOverage(e2, client, oldProvider, oldCount, newCount, now);
    var e4 := AfterAdditions(e3, oldCount, provider, newCount, info, now);
    AfterRefresh(e4, client, oldProvider, oldCount, provider, newCount, info, now)
  }

  /** Two tidy entries that agree on providers and take their metadata from the same places. */
  ghost predicate Derived(entry: Option<Registration>, r: Registration, provider: string, info: ModelInfo) {
    && entry.Some?
    && Tidy(entry.value)
    && forall p :: p in entry.value.infoByProvider ==>
         if p == provider then entry.value.infoByProvider[p] == info
         else p in r.infoByProvider && entry.value.infoByProvider[p] == r.infoByProvider[p]
  }

  lemma DerivedEqual(a: Option<Registration>, b: Option<Registration>, r: Registration, provider: string, info: ModelInfo)
    requires Derived(a, r, provider, info) && Derived(b, r, provider, info)
    requires a.value.providers == b.value.providers
    ensures a.value.infoByProvider == b.value.infoByProvider
  {
    assert a.value.infoByProvider.Keys == b.value.infoByProvider.Keys;
  }

  lemma SettleDerived(
    r: Registration, client: string, oldProvider: string, oldCount: nat,
    provider: string, newCount: nat, info: ModelInfo, now: Time)
    requires Covers(Some(r), oldProvider, oldCount) && newCount > 0
    ensures Derived(Settle(Some(r), client, true, oldProvider, oldCount, provider, newCount, info, now), r, provider, info)
  {
  }

  /** `e` keeps what `r` says about every provider other than `provider`. */
  ghost predicate InfosFrom(e: Registration, r: Registration, provider: string) {
    forall p :: p in e.infoByProvider && p != provider ==>
      p in r.infoByProvider && e.infoByProvider[p] == r.infoByProvider[p]
  }

  lemma RefreshDerived(
    e: Registration, r: Registration, client: string, provider: string, overlap: nat, info: ModelInfo, now: Time)
    requires Tidy(e)
    requires InfosFrom(e, r, provider)
    requires provider != "" && overlap == 0 ==> provider in e.providers
    ensures Derived(Refreshed(Some(e), client, provider, overlap, info, now), r, provider, info)
  {
  }

  lemma RehomeFacts(r: Registration, oldProvider: string, oldCount: nat, provider: string, newCount: nat)
    requires Covers(Some(r), oldProvider, oldCount)
    ensures var e := AfterRehoming(Some(r), oldProvider, oldCount, provider, newCount);
            && e.Some? && Tidy(e.value)
            && e.value.count == r.count
            && e.value.providers == (if oldProvider != provider
                                     then Shift(r.providers, oldProvider, 0 - Min(oldCount, newCount)) else r.providers)
            && e.value.quotaExceeded == r.quotaExceeded
            && e.value.suspended == r.suspended
            && InfosFrom(e.value, r, "")
  {
  }

  lemma DropFacts(r: Registration, client: string, provider: string, n: nat, now: Time)
    requires Tidy(r) && r.count > n > 0
    ensures var e := Dropped(Some(r), client, provider, n, now);
            && e.Some? && Tidy(e.value)
            && e.value.count == r.count - n
            && e.value.providers == Shift(r.providers, provider, 0 - n)
            && e.value.quotaExceeded == r.quotaExceeded - {client}
            && e.value.suspended == r.suspended - {client}
            && InfosFrom(e.value, r, "")
  {
  }

  ghost predicate AddsTo(e: Registration, r: Registration, provider: string, n: nat) {
    && Tidy(e)
    && e.count == r.count + n
    && e.providers == Shift(r.providers, provider, n)
    && e.quotaExceeded == r.quotaExceeded
    && e.suspended == r.suspended
    && InfosFrom(e, r, provider)
  }

  lemma AddFacts(r: Registration, provider: string, n: nat, info: ModelInfo, now: Time)
    requires Tidy(r) && n > 0
    ensures var e := Added(Some(r), provider, n, info, now);
            e.Some? && AddsTo(e.value, r, provider, n)
  {
    assert r.quotaExceeded - {} == r.quotaExceeded;
    assert r.suspended - {} == r.suspended;
  }

  lemma InfosFromTrans(e: Registration, e1: Registration, r: Registration, provider: string)
    requires Tidy(e) && InfosFrom(e, e1, provider) && InfosFrom(e1, r, "")
    ensures InfosFrom(e, r, provider)
  {
    assert "" !in e.infoByProvider.Keys;
  }

  /** What is left of the entry before metadata is refreshed. */
  function BeforeRefresh(
    entry: Option<Registration>, client: string, oldProvider: string, oldCount: nat,
    provider: string, newCount: nat, info: ModelInfo, now: Time): Option<Registration>
  {
    var e1 := AfterRehoming(entry, oldProvider, oldCount, provider, newCount);
    var e3 := AfterOverage(e1, client, oldProvider, oldCount, newCount, now);
    AfterAdditions(e3, oldCount, provider, newCount, info, now)
  }

  ghost predicate ReadyToRefresh(
    e: Registration, r: Registration, client: string, oldProvider: string, oldCount: nat, provider: string, newCount: nat)
  {
    && Tidy(e)
    && e.count == r.count - oldCount + newCount
    && e.quotaExceeded - {client} == r.quotaExceeded - {client}
    && e.suspended - {client} == r.suspended - {client}
    && InfosFrom(e, r, provider)
    && e.providers == ProvidersBefore(r.providers, oldProvider, oldCount, provider, newCount)
  }

  lemma ReadyAfterDrop(
    e1: Registration, r: Registration, client: string, oldProvider: string, oldCount: nat,
    provider: string, newCount: nat, now: Time)
    requires Covers(Some(r), oldProvider, oldCount) && oldCount > newCount > 0
    requires Some(e1) == AfterRehoming(Some(r), oldProvider, oldCount, provider, newCount)
    ensures var e := Dropped(Some(e1), client, oldProvider, oldCount - newCount, now);
            e.Some? && ReadyToRefresh(e.value, r, client, oldProvider, oldCount, provider, newCount)
  {
    RehomeFacts(r, oldProvider, oldCount, provider, newCount);
    DropFacts(e1, client, oldProvider, oldCount - newCount, now);
    var e := Dropped(Some(e1), client, oldProvider, oldCount - newCount, now).value;
    assert (r.quotaExceeded - {client}) - {client} == r.quotaExceeded - {client};
    assert (r.suspended - {client}) - {client} == r.suspended - {client};
    InfosFromTrans(e, e1, r, "");
  }

  lemma ReadyAfterAdd(
    e: Registration, e1: Registration, r: Registration, client: string, oldProvider: string, oldCount: nat,
    provider: string, newCount: nat)
    requires Covers(Some(r), oldProvider, oldCount) && newCount > oldCount
    requires Some(e1) == AfterRehoming(Some(r), oldProvider, oldCount, provider, newCount)
    requires AddsTo(e, e1, provider, newCount - oldCount)
    ensures ReadyToRefresh(e, r, client, oldProvider, oldCount, provider, newCount)
  {
    RehomeFacts(r, oldProvider, oldCount, provider, newCount);
    InfosFromTrans(e, e1, r, provider);
  }

  lemma BeforeRefreshOfMore(
    r: Registration, client: string, oldProvider: string, oldCount: nat,
    provider: string, newCount: nat, info: ModelInfo, now: Time)
    requires Covers(Some(r), oldProvider, oldCount) && newCount > oldCount
    ensures var e := BeforeRefresh(Some(r), client, oldProvider, oldCount, provider, newCount, info, now);
            e.Some? && ReadyToRefresh(e.value, r, client, oldProvider, oldCount, provider, newCount)
  {
    RehomeFacts(r, oldProvider, oldCount, provider, newCount);
    var e1 := AfterRehoming(Some(r), oldProvider, oldCount, provider, newCount).value;
    AddFacts(e1, provider, newCount - oldCount, info, now);
    var e := Added(Some(e1), provider, newCount - oldCount, info, now);
    ReadyAfterAdd(e.value, e1, r, client, oldProvider, oldCount, provider, newCount);
    assert e == BeforeRefresh(Some(r), client, oldProvider, oldCount, provider, newCount, info, now);
  }

  lemma BeforeRefreshFacts(
    r: Registration, client: string, oldProvider: string, oldCount: nat,
    provider: string, newCount: nat, info: ModelInfo, now: Time)
    requires Covers(Some(r), oldProvider, oldCount) && newCount > 0
    ensures var e := BeforeRefresh(Some(r), client, oldProvider, oldCount, provider, newCount, info, now);
            e.Some? && ReadyToRefresh(e.value, r, client, oldProvider, oldCount, provider, newCount)
  {
    RehomeFacts(r, oldProvider, oldCount, provider, newCount);
    var e1 := AfterRehoming(Some(r), oldProvider, oldCount, provider, newCount).value;
    if oldCount > newCount {
      ReadyAfterDrop(e1, r, client, oldProvider, oldCount, provider, newCount, now);
    } else if newCount > oldCount {
      BeforeRefreshOfMore(r, client, oldProvider, oldCount, provider, newCount, info, now);
    }
  }

  function ProvidersBefore(
    providers: map<string, int>, oldProvider: string, oldCount: nat, provider: string, newCount: nat): map<string, int>
  {
    var p1 := if oldProvider != provider then Shift(providers, oldProvider, 0 - Min(oldCount, newCount)) else providers;
    if oldCount > newCount then Shift(p1, oldProvider, newCount - oldCount)
    else Shift(p1, provider, newCount - oldCount)
  }

  lemma ProvidersSettle(
    providers: map<string, int>, oldProvider: string, oldCount: nat, provider: string, newCount: nat)
    requires "" !in providers && forall p :: p in providers ==> providers[p] > 0
    requires oldProvider != "" ==> Get(providers, oldProvider) >= oldCount
    requires newCount > 0
    ensures Shift(ProvidersBefore(providers, oldProvider, oldCount, provider, newCount), provider,
                  if oldProvider != provider then Min(oldCount, newCount) else 0)
         == Shift(Shift(providers, oldProvider, 0 - oldCount), provider, newCount)
    ensures provider != "" && (oldProvider == provider || oldCount == 0) ==>
              provider in ProvidersBefore(providers, oldProvider, oldCount, provider, newCount)
  {
  }

  lemma KeptModelSettles(
    r: Registration, client: string, oldProvider: string, oldCount: nat,
    provider: string, newCount: nat, info: ModelInfo, now: Time)
    requires Covers(Some(r), oldProvider, oldCount) && newCount > 0
    ensures Phases(Some(r), client, oldProvider, oldCount, provider, newCount, info, now)
         == Settle(Some(r), client, true, oldProvider, oldCount, provider, newCount, info, now)
  {
    var overlap := if oldProvider != provider then Min(oldCount, newCount) else 0;
    BeforeRefreshFacts(r, client, oldProvider, oldCount, provider, newCount, info, now);
    var e := BeforeRefresh(Some(r), client, oldProvider, oldCount, provider, newCount, info, now).value;
    ProvidersSettle(r.providers, oldProvider, oldCount, provider, newCount);
    RefreshDerived(e, r, client, provider, overlap, info, now);
    SettleDerived(r, client, oldProvider, oldCount, provider, newCount, info, now);
    DerivedEqual(Refreshed(Some(e), client, provider, overlap, info, now),
                 Settle(Some(r), client, true, oldProvider, oldCount, provider, newCount, info, now), r, provider, info);
  }

  /** The phases together replace the client's registrations of the model. */
  lemma PhasesSettle(
    entry: Option<Registration>, client: string, oldProvider: string, oldCount: nat,
    provider: string, newCount: nat, info: ModelInfo, now: Time)
    requires Covers(entry, oldProvider, oldCount)
    ensures Phases(entry, client, oldProvider, oldCount, provider, newCount, info, now)
         == Settle(entry, client, true, oldProvider, oldCount, provider, newCount, info, now)
  {
    if entry.Some? && newCount > 0 {
      KeptModelSettles(entry.value, client, oldProvider, oldCount, provider, newCount, info, now);
    } else if newCount > 0 {
      var done := Phases(entry, client, oldProvider, oldCount, provider, newCount, info, now);
      var goal := Settle(entry, client, true, oldProvider, oldCount, provider, newCount, info, now);
      assert done.value.infoByProvider == goal.value.infoByProvider;
      assert done.value.providers == goal.value.providers;
      assert done.value.quotaExceeded == goal.value.quotaExceeded == map[];
      assert done.value.suspended == goal.value.suspended == map[];
    }
  }

  /** The refreshed entry, field by field. */
  lemma RefreshIs(
    entry: Option<Registration>, client: string, oldProvider: string, oldCount: nat,
    provider: string, newCount: nat, info: ModelInfo, now: Time, done: Registration)
    requires entry.Some? && Tidy(entry.value) && newCount > 0
    requires done.info == info && done.lastUpdated == now && done.count == entry.value.count
    requires done.quotaExceeded == entry.value.quotaExceeded - {client}
    requires done.suspended == entry.value.suspended - {client}
    requires done.infoByProvider == if provider != "" then entry.value.infoByProvider[provider := info]
                                    else entry.value.infoByProvider
    requires done.providers ==
      if oldProvider != provider && provider != "" && oldCount > 0
      then entry.value.providers[provider := Get(entry.value.providers, provider) + Min(oldCount, newCount)]
      else entry.value.providers
    ensures AfterRefresh(entry, client, oldProvider, oldCount, provider, newCount, info, now) == Some(done)
  {
  }

  // ----- whole tables of entries

  type Models = map<string, Registration>

  type Counts = map<string, nat>

  /** `b` is `a` with the listed registrations of the client dropped. */
  ghost predicate DroppedAll(a: Models, b: Models, client: string, provider: string, ids: multiset<string>, now: Time) {
    forall id :: Lookup(b, id) == Dropped(Lookup(a, id), client, provider, ids[id], now)
  }

  /** `b` is `a` with the listed registrations added. */
  ghost predicate AddedAll(a: Models, b: Models, provider: string, ids: multiset<string>, infos: map<string, ModelInfo>, now: Time) {
    forall id :: Lookup(b, id) == Added(Lookup(a, id), provider, ids[id], InfoIn(infos, id), now)
  }

  lemma DroppedAllTidy(a: Models, b: Models, client: string, provider: string, ids: multiset<string>, now: Time, id: string)
    requires AllTidy(a) && DroppedAll(a, b, client, provider, ids, now)
    ensures EntryTidy(Lookup(b, id))
  {
    assert Lookup(b, id) == Dropped(Lookup(a, id), client, provider, ids[id], now);
    DropOneMore(Lookup(a, id), client, provider, ids[id], now);
  }

  lemma DroppedAllStep(
    a: Models, b: Models, client: string, provider: string, ids: multiset<string>, now: Time, id: string)
    requires AllTidy(a) && DroppedAll(a, b, client, provider, ids, now)
    ensures DroppedAll(a, With(b, id, Dropped(Lookup(b, id), client, provider, 1, now)), client, provider, ids + multiset{id}, now)
  {
    assert Lookup(b, id) == Dropped(Lookup(a, id), client, provider, ids[id], now);
    DropOneMore(Lookup(a, id), client, provider, ids[id], now);
  }

  lemma AddedAllTidy(
    a: Models, b: Models, provider: string, ids: multiset<string>, infos: map<string, ModelInfo>, now: Time, id: string)
    requires AllTidy(a) && AddedAll(a, b, provider, ids, infos, now)
    ensures EntryTidy(Lookup(b, id))
  {
    assert Lookup(b, id) == Added(Lookup(a, id), provider, ids[id], InfoIn(infos, id), now);
    AddOneMore(Lookup(a, id), provider, ids[id], InfoIn(infos, id), now);
  }

  lemma AddedAllStep(
    a: Models, b: Models, provider: string, ids: multiset<string>, infos: map<string, ModelInfo>, now: Time, id: string)
    requires AllTidy(a) && AddedAll(a, b, provider, ids, infos, now)
    ensures AddedAll(a, With(b, id, Added(Lookup(b, id), provider, 1, InfoIn(infos, id), now)),
                     provider, ids + multiset{id}, infos, now)
  {
    var c := With(b, id, Added(Lookup(b, id), provider, 1, InfoIn(infos, id), now));
    forall j
      ensures Lookup(c, j) == Added(Lookup(a, j), provider, (ids + multiset{id})[j], InfoIn(infos, j), now)
    {
      assert Lookup(b, j) == Added(Lookup(a, j), provider, ids[j], InfoIn(infos, j), now);
      if j == id {
        AddOneMore(Lookup(a, id), provider, ids[id], InfoIn(infos, id), now);
      } else {
        LookupWith(b, id, Added(Lookup(b, id), provider, 1, InfoIn(infos, id), now), j);
        assert (ids + multiset{id})[j] == ids[j];
      }
    }
  }

  lemma LookupWith<V>(m: map<string, V>, k: string, entry: Option<V>, j: string)
    ensures Lookup(With(m, k, entry), j) == if j == k then entry else Lookup(m, j)
  {
  }

  ghost predicate RehomingDone(a: Models, b: Models, oldProvider: string, oldCounts: Counts, provider: string, newCounts: Counts) {
    forall id ::
      Lookup(b, id) == AfterRehoming(Lookup(a, id), oldProvider, Times(oldCounts, id), provider, Times(newCounts, id))
  }

  ghost predicate RemovalsDone(
    a: Models, b: Models, client: string, oldProvider: string, oldCounts: Counts, newCounts: Counts, now: Time)
  {
    forall id ::
      Lookup(b, id) == AfterRemovals(Lookup(a, id), client, oldProvider, Times(oldCounts, id), Times(newCounts, id), now)
  }

  ghost predicate OverageDone(
    a: Models, b: Models, client: string, oldProvider: string, oldCounts: Counts, newCounts: Counts, now: Time)
  {
    forall id ::
      Lookup(b, id) == AfterOverage(Lookup(a, id), client, oldProvider, Times(oldCounts, id), Times(newCounts, id), now)
  }

  ghost predicate AdditionsDone(
    a: Models, b: Models, oldCounts: Counts, provider: string, newCounts: Counts, infos: map<string, ModelInfo>, now: Time)
  {
    forall id ::
      Lookup(b, id)
      == AfterAdditions(Lookup(a, id), Times(oldCounts, id), provider, Times(newCounts, id), InfoIn(infos, id), now)
  }

  ghost predicate RefreshDone(
    a: Models, b: Models, client: string, oldProvider: string, oldCounts: Counts,
    provider: string, newCounts: Counts, infos: map<string, ModelInfo>, now: Time)
  {
    forall id ::
      Lookup(b, id)
      == AfterRefresh(Lookup(a, id), client, oldProvider, Times(oldCounts, id),
                      provider, Times(newCounts, id), InfoIn(infos, id), now)
  }

  ghost predicate PhasesDone(
    a: Models, b: Models, client: string, oldProvider: string, oldCounts: Counts,
    provider: string, newCounts: Counts, infos: map<string, ModelInfo>, now: Time)
  {
    forall id ::
      Lookup(b, id)
      == Phases(Lookup(a, id), client, oldProvider, Times(oldCounts, id),
                provider, Times(newCounts, id), InfoIn(infos, id), now)
  }

  lemma RehomingTidy(a: Models, b: Models, oldProvider: string, oldCounts: Counts, provider: string, newCounts: Counts)
    requires AllTidy(a) && RehomingDone(a, b, oldProvider, oldCounts, provider, newCounts)
    ensures AllTidy(b)
  {
    forall id | id in b ensures Tidy(b[id]) {
      RehomedTidy(Lookup(a, id), oldProvider, Min(Times(oldCounts, id), Times(newCounts, id)));
      assert Lookup(b, id) == AfterRehoming(Lookup(a, id), oldProvider, Times(oldCounts, id), provider, Times(newCounts, id));
    }
  }

  lemma RemovalsTidy(
    a: Models, b: Models, client: string, oldProvider: string, oldCounts: Counts, newCounts: Counts, now: Time)
    requires AllTidy(a) && RemovalsDone(a, b, client, oldProvider, oldCounts, newCounts, now)
    ensures AllTidy(b)
  {
    forall id | id in b ensures Tidy(b[id]) {
      DropOneMore(Lookup(a, id), client, oldProvider, Times(oldCounts, id), now);
      assert Lookup(b, id)
          == AfterRemovals(Lookup(a, id), client, oldProvider, Times(oldCounts, id), Times(newCounts, id), now);
    }
  }

  lemma OverageTidy(
    a: Models, b: Models, client: string, oldProvider: string, oldCounts: Counts, newCounts: Counts, now: Time)
    requires AllTidy(a) && OverageDone(a, b, client, oldProvider, oldCounts, newCounts, now)
    ensures AllTidy(b)
  {
    forall id | id in b ensures Tidy(b[id]) {
      if Times(oldCounts, id) > Times(newCounts, id) {
        DropOneMore(Lookup(a, id), client, oldProvider, Times(oldCounts, id) - Times(newCounts, id), now);
      }
      assert Lookup(b, id)
          == AfterOverage(Lookup(a, id), client, oldProvider, Times(oldCounts, id), Times(newCounts, id), now);
    }
  }

  lemma AdditionsTidy(
    a: Models, b: Models, oldCounts: Counts, provider: string, newCounts: Counts, infos: map<string, ModelInfo>, now: Time)
    requires AllTidy(a) && AdditionsDone(a, b, oldCounts, provider, newCounts, infos, now)
    ensures AllTidy(b)
  {
    forall id | id in b ensures Tidy(b[id]) {
      if Times(newCounts, id) > Times(oldCounts, id) {
        AddOneMore(Lookup(a, id), provider, Times(newCounts, id) - Times(oldCounts, id), InfoIn(infos, id), now);
      }
      assert Lookup(b, id)
          == AfterAdditions(Lookup(a, id), Times(oldCounts, id), provider, Times(newCounts, id), InfoIn(infos, id), now);
    }
  }

  lemma ComposePhases(
    m0: Models, m1: Models, m2: Models, m3: Models, m4: Models, m5: Models,
    client: string, oldProvider: string, oldCounts: Counts,
    provider: string, newCounts: Counts, infos: map<string, ModelInfo>, now: Time)
    requires RehomingDone(m0, m1, oldProvider, oldCounts, provider, newCounts)
    requires RemovalsDone(m1, m2, client, oldProvider, oldCounts, newCounts, now)
    requires OverageDone(m2, m3, client, oldProvider, oldCounts, newCounts, now)
    requires AdditionsDone(m3, m4, oldCounts, provider, newCounts, infos, now)
    requires RefreshDone(m4, m5, client, oldProvider, oldCounts, provider, newCounts, infos, now)
    ensures PhasesDone(m0, m5, client, oldProvider, oldCounts, provider, newCounts, infos, now)
  {
    forall id
      ensures Lookup(m5, id)
           == Phases(Lookup(m0, id), client, oldProvider, Times(oldCounts, id),
                     provider, Times(newCounts, id), InfoIn(infos, id), now)
    {
      assert Lookup(m1, id) == AfterRehoming(Lookup(m0, id), oldProvider, Times(oldCounts, id), provider, Times(newCounts, id));
      assert Lookup(m2, id)
          == AfterRemovals(Lookup(m1, id), client, oldProvider, Times(oldCounts, id), Times(newCounts, id), now);
      assert Lookup(m3, id)
          == AfterOverage(Lookup(m2, id), client, oldProvider, Times(oldCounts, id), Times(newCounts, id), now);
    }
  }

  // ----- from entries to the settled tables

  lemma PhasesReachSettled(
    t: Tables, models: Models, client: string, provider: string, oldCounts: Counts, newCounts: Counts,
    supplied: seq<Option<ModelInfo>>, now: Time)
    requires Consistent(t) && client in t.clientModels
    requires forall id :: Times(oldCounts, id) == Listed(t, client, id)
    requires forall id :: Times(newCounts, id) == multiset(RawIds(supplied))[id]
    requires PhasesDone(t.models, models, client, ProviderOf(t, client), oldCounts, provider, newCounts, FirstInfos(supplied), now)
    ensures models == Settled(t, client, provider, supplied, now).models
  {
    forall id ensures Lookup(models, id) == Lookup(Settled(t, client, provider, supplied, now).models, id) {
      ConsistentCovers(t, client, id);
      SettledLookup(t, client, provider, supplied, now, id);
      PhasesSettle(Lookup(t.models, id), client, ProviderOf(t, client), Listed(t, client, id),
                   provider, multiset(RawIds(supplied))[id], InfoFor(supplied, id), now);
      assert Lookup(models, id)
          == Phases(Lookup(t.models, id), client, ProviderOf(t, client), Times(oldCounts, id),
                    provider, Times(newCounts, id), InfoIn(FirstInfos(supplied), id), now);
    }
    LookupExtensional(models, Settled(t, client, provider, supplied, now).models);
  }

  lemma FreshEntry(
    t: Tables, client: string, provider: string, supplied: seq<Option<ModelInfo>>, now: Time, id: string)
    requires Consistent(t) && client !in t.clientModels
    ensures Lookup(Settled(t, client, provider, supplied, now).models, id)
         == Added(Lookup(t.models, id), provider, multiset(RawIds(supplied))[id], InfoFor(supplied, id), now)
  {
    SettledLookup(t, client, provider, supplied, now, id);
    assert client !in t.clientProviders;
    FreshSettle(Lookup(t.models, id), client, provider, multiset(RawIds(supplied))[id], InfoFor(supplied, id), now);
  }

  lemma FreshSettle(entry: Option<Registration>, client: string, provider: string, n: nat, info: ModelInfo, now: Time)
    ensures Settle(entry, client, false, "", 0, provider, n, info, now) == Added(entry, provider, n, info, now)
  {
  }

  lemma AddsReachSettled(
    t: Tables, models: Models, client: string, provider: string, supplied: seq<Option<ModelInfo>>, now: Time)
    requires Consistent(t) && client !in t.clientModels
    requires AddedAll(t.models, models, provider, multiset(RawIds(supplied)), FirstInfos(supplied), now)
    ensures models == Settled(t, client, provider, supplied, now).models
  {
    var goal := Settled(t, client, provider, supplied, now).models;
    forall id ensures Lookup(models, id) == Lookup(goal, id) {
      FreshEntry(t, client, provider, supplied, now, id);
    }
    LookupExtensional(models, goal);
  }

  lemma DropsReachUnregistered(t: Tables, models: Models, client: string, now: Time)
    requires Consistent(t) && client in t.clientModels
    requires DroppedAll(t.models, models, client, ProviderOf(t, client), multiset(t.clientModels[client]), now)
    ensures models == Unregistered(t, client, now).models
  {
    assert RawIds([]) == [];
    forall id ensures Lookup(models, id) == Lookup(Unregistered(t, client, now).models, id) {
      SettledLookup(t, client, "", [], now, id);
      DropIgnoresInfo(Lookup(t.models, id), client, true, ProviderOf(t, client), Listed(t, client, id), now);
      assert Lookup(models, id) == Dropped(Lookup(t.models, id), client, ProviderOf(t, client), Listed(t, client, id), now);
    }
    LookupExtensional(models, Unregistered(t, client, now).models);
  }

  lemma NothingToUnregister(t: Tables, client: string, now: Time)
    requires Consistent(t) && client !in t.clientModels
    ensures Unregistered(t, client, now) == t
  {
    var u := Unregistered(t, client, now);
    assert RawIds([]) == [];
    forall id ensures Lookup(u.models, id) == Lookup(t.models, id) {
      SettledLookup(t, client, "", [], now, id);
    }
    LookupExtensional(u.models, t.models);
    assert client !in t.clientProviders && client !in t.clientInfos;
    assert t.clientModels - {client} == t.clientModels;
  }

  lemma NothingSupplied(t: Tables, client: string, provider: string, supplied: seq<Option<ModelInfo>>, now: Time)
    requires Consistent(t) && RawIds(supplied) == []
    ensures Settled(t, client, provider, supplied, now) == Unregistered(t, client, now)
  {
    assert RawIds([]) == [];
    var a := Settled(t, client, provider, supplied, now);
    var u := Unregistered(t, client, now);
    forall id ensures Lookup(a.models, id) == Lookup(u.models, id) {
      SettledLookup(t, client, provider, supplied, now, id);
      SettledLookup(t, client, "", [], now, id);
    }
    LookupExtensional(a.models, u.models);
  }

  lemma RecordedIsSettled(
    t: Tables, s: Tables, client: string, provider: string, supplied: seq<Option<ModelInfo>>, now: Time)
    requires RawIds(supplied) != []
    requires s.models == Settled(t, client, provider, supplied, now).models
    requires s.clientModels == t.clientModels[client := RawIds(supplied)]
    requires s.clientInfos == t.clientInfos[client := FirstInfos(supplied)]
    requires s.clientProviders == if provider == "" then t.clientProviders - {client} else t.clientProviders[client := provider]
    ensures s == Settled(t, client, provider, supplied, now)
  {
  }

  lemma UnregisteredTwice(t: Tables, client: string, now: Time)
    ensures var u := Unregistered(t, client, now);
            && u.clientModels - {client} == u.clientModels
            && u.clientInfos - {client} == u.clientInfos
            && u.clientProviders - {client} == u.clientProviders
  {
    assert RawIds([]) == [];
  }

  lemma ConsistentTidy(t: Tables)
    requires Consistent(t)
    ensures AllTidy(t.models)
  {
    forall id | id in t.models ensures Tidy(t.models[id]) {
      assert Counted(t, id);
    }
  }
}
