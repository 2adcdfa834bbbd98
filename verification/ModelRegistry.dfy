/** The mutable registry: reference counts, quota and suspension marks, and the listing cache. */
module ModelRegistries {
  import opened Wrappers
  import opened MapSum
  import opened RegistryTables
  import opened RegistryLaws
  import opened RegistryRuns
  import opened RegistryListing
  import opened RegistryMarks
  import opened RegistrySteps
  import opened RegistryVisible
  import RegistryCache
  import Text

  datatype CacheEntry = CacheEntry(list: seq<ModelInfo>, expiresAt: Option<Time>)

  class ModelRegistry {
    var models: map<string, Registration>
    var clientModels: map<string, seq<string>>
    var clientInfos: map<string, map<string, ModelInfo>>
    var clientProviders: map<string, string>
    var cache: map<string, CacheEntry>
    /** When each cached listing was built. */
    ghost var builtAt: map<string, Time>

    ghost function State(): Tables
      reads this
    {
      Tables(models, clientModels, clientInfos, clientProviders)
    }

    /** The tables and the cache, with the times of the cached listings. */
    ghost function System(): RegistryCache.System
      reads this
    {
      RegistryCache.System(State(), Entries(cache, builtAt))
    }

    static ghost function Entries(
      cache: map<string, CacheEntry>, builtAt: map<string, Time>): map<string, RegistryCache.Cached>
    {
      map h | h in cache && h in builtAt :: RegistryCache.Cached(cache[h].list, cache[h].expiresAt, builtAt[h])
    }

    /** Every cached listing was the right one when it was built and expires at the next recovery. */
    ghost predicate CacheFresh()
      reads this
    {
      && cache.Keys == builtAt.Keys
      && forall h :: h in cache ==>
           && IsListing(cache[h].list, models, h, builtAt[h])
           && EarliestRecovery(models, builtAt[h], cache[h].expiresAt)
    }

    ghost predicate Valid()
      reads this
    {
      Consistent(State()) && CacheFresh()
    }

    /** The cache and its times are emptied, or left as they are. */
    static ghost predicate CacheKept(
      was: map<string, CacheEntry>, cache: map<string, CacheEntry>, wasBuilt: map<string, Time>, builtAt: map<string, Time>)
    {
      (cache == map[] && builtAt == map[]) || (cache == was && builtAt == wasBuilt)
    }

    /** No cached listing was built after `clock`. */
    ghost predicate BuiltBy(clock: Time)
      reads this
    {
      forall h :: h in builtAt ==> builtAt[h] <= clock
    }

    constructor ()
      ensures Valid() && State() == EMPTY && cache == map[] && builtAt == map[]
      ensures System() == RegistryCache.START
    {
      models, clientModels, clientInfos, clientProviders := map[], map[], map[], map[];
      cache, builtAt := map[], map[];
      new;
      EmptyConsistent();
    }

    method InvalidateCache()
      modifies this`cache, this`builtAt
      ensures cache == map[] && builtAt == map[]
    {
      cache, builtAt := map[], map[];
    }

    // ----- registration

    method AddModelRegistration(modelID: string, provider: string, info: ModelInfo, now: Time)
      requires EntryTidy(Lookup(models, modelID))
      modifies this`models
      ensures modelID == "" ==> models == old(models)
      ensures modelID != "" ==>
        models == With(old(models), modelID, Added(Lookup(old(models), modelID), provider, 1, info, now))
    {
      if modelID == "" {
        return;
      }
      ghost var goal := Added(Lookup(models, modelID), provider, 1, info, now);
      if modelID in models {
        var existing := models[modelID];
        existing := existing.(count := existing.count + 1, lastUpdated := now, info := info);
        if provider != "" {
          existing := existing.(
            providers := existing.providers[provider := Get(existing.providers, provider) + 1],
            infoByProvider := existing.infoByProvider[provider := info]);
        }
        assert existing.infoByProvider == goal.value.infoByProvider;
        assert existing.quotaExceeded == goal.value.quotaExceeded;
        assert existing.suspended == goal.value.suspended;
        models := models[modelID := existing];
        return;
      }
      var registration := Registration(info, map[], 1, now, map[], map[], map[]);
      if provider != "" {
        registration := registration.(providers := map[provider := 1], infoByProvider := map[provider := info]);
      }
      assert registration.infoByProvider == goal.value.infoByProvider;
      assert registration.quotaExceeded == goal.value.quotaExceeded;
      assert registration.suspended == goal.value.suspended;
      models := models[modelID := registration];
    }

    method RemoveModelRegistration(clientID: string, modelID: string, provider: string, now: Time)
      requires EntryTidy(Lookup(models, modelID))
      modifies this`models
      ensures models == With(old(models), modelID, Dropped(Lookup(old(models), modelID), clientID, provider, 1, now))
    {
      if modelID !in models {
        return;
      }
      var r := models[modelID];
      ghost var goal := Dropped(Some(r), clientID, provider, 1, now);
      r := r.(count := r.count - 1, lastUpdated := now,
              quotaExceeded := r.quotaExceeded - {clientID}, suspended := r.suspended - {clientID});
      if r.count < 0 {
        r := r.(count := 0);
      }
      if provider != "" && provider in r.providers {
        var count := r.providers[provider];
        if count <= 1 {
          r := r.(providers := r.providers - {provider}, infoByProvider := r.infoByProvider - {provider});
        } else {
          r := r.(providers := r.providers[provider := count - 1]);
        }
      }
      if r.count <= 0 {
        models := models - {modelID};
      } else {
        assert r.providers == goal.value.providers;
        assert r.infoByProvider == goal.value.infoByProvider;
        models := models[modelID := r];
      }
    }

    method RemoveMany(clientID: string, modelID: string, provider: string, n: nat, now: Time)
      requires EntryTidy(Lookup(models, modelID))
      modifies this`models
      ensures models == With(old(models), modelID, Dropped(Lookup(old(models), modelID), clientID, provider, n, now))
    {
      ghost var before := models;
      for i := 0 to n
        invariant models == With(before, modelID, Dropped(Lookup(before, modelID), clientID, provider, i, now))
      {
        DropOneMore(Lookup(before, modelID), clientID, provider, i, now);
        RemoveModelRegistration(clientID, modelID, provider, now);
      }
    }

    method AddMany(modelID: string, provider: string, info: ModelInfo, n: nat, now: Time)
      requires modelID != "" && EntryTidy(Lookup(models, modelID))
      modifies this`models
      ensures models == With(old(models), modelID, Added(Lookup(old(models), modelID), provider, n, info, now))
    {
      ghost var before := models;
      for i := 0 to n
        invariant models == With(before, modelID, Added(Lookup(before, modelID), provider, i, info, now))
      {
        AddOneMore(Lookup(before, modelID), provider, i, info, now);
        AddModelRegistration(modelID, provider, info, now);
      }
    }

    static ghost predicate CountsOf(counts: map<string, nat>, ids: seq<string>) {
      && (forall id :: id in counts <==> id in ids)
      && (forall id :: id in counts ==> counts[id] == multiset(ids)[id])
    }

    static ghost predicate Distinct(ids: seq<string>) {
      forall i, j :: 0 <= i < j < |ids| ==> ids[i] != ids[j]
    }

    static ghost predicate Collected(
      supplied: seq<Option<ModelInfo>>,
      raw: seq<string>, unique: seq<string>, infos: map<string, ModelInfo>, counts: map<string, nat>)
    {
      && raw == RawIds(supplied) && infos == FirstInfos(supplied)
      && CountsOf(counts, raw)
      && (forall id :: id in unique <==> id in infos)
      && Distinct(unique)
    }

    static lemma CollectUnusable(
      supplied: seq<Option<ModelInfo>>, m: Option<ModelInfo>,
      raw: seq<string>, unique: seq<string>, infos: map<string, ModelInfo>, counts: map<string, nat>)
      requires Collected(supplied, raw, unique, infos, counts) && (m.None? || m.value.id == "")
      ensures Collected(supplied + [m], raw, unique, infos, counts)
    {
      assert (supplied + [m])[..|supplied|] == supplied;
    }

    static lemma CollectRepeated(
      supplied: seq<Option<ModelInfo>>, m: ModelInfo,
      raw: seq<string>, unique: seq<string>, infos: map<string, ModelInfo>, counts: map<string, nat>)
      requires Collected(supplied, raw, unique, infos, counts) && m.id != "" && m.id in infos
      ensures Collected(supplied + [Some(m)], raw + [m.id], unique, infos, counts[m.id := Times(counts, m.id) + 1])
    {
      assert (supplied + [Some(m)])[..|supplied|] == supplied;
      CountOne(counts, raw, m.id);
    }

    static lemma CollectFirst(
      supplied: seq<Option<ModelInfo>>, m: ModelInfo,
      raw: seq<string>, unique: seq<string>, infos: map<string, ModelInfo>, counts: map<string, nat>)
      requires Collected(supplied, raw, unique, infos, counts) && m.id != "" && m.id !in infos
      ensures Collected(supplied + [Some(m)], raw + [m.id], unique + [m.id], infos[m.id := m],
                        counts[m.id := Times(counts, m.id) + 1])
    {
      assert (supplied + [Some(m)])[..|supplied|] == supplied;
      CountOne(counts, raw, m.id);
      AppendDistinct(unique, infos, m.id, m);
    }

    static lemma CountOne(counts: map<string, nat>, raw: seq<string>, id: string)
      requires CountsOf(counts, raw)
      ensures CountsOf(counts[id := Times(counts, id) + 1], raw + [id])
    {
    }

    static lemma AppendDistinct(unique: seq<string>, infos: map<string, ModelInfo>, id: string, info: ModelInfo)
      requires Distinct(unique) && (forall j :: j in unique <==> j in infos) && id !in infos
      ensures Distinct(unique + [id])
      ensures forall j :: j in unique + [id] <==> j in infos[id := info]
    {
    }

    /** Splits the supplied models into identifiers with repetitions, counts, and first infos. */
    static method CollectModels(supplied: seq<Option<ModelInfo>>)
      returns (raw: seq<string>, unique: seq<string>, infos: map<string, ModelInfo>, counts: map<string, nat>)
      ensures Collected(supplied, raw, unique, infos, counts)
    {
      raw, unique, infos, counts := [], [], map[], map[];
      for i := 0 to |supplied|
        invariant Collected(supplied[..i], raw, unique, infos, counts)
      {
        assert supplied[..i + 1] == supplied[..i] + [supplied[i]];
        if supplied[i].None? || supplied[i].value.id == "" {
          CollectUnusable(supplied[..i], supplied[i], raw, unique, infos, counts);
          continue;
        }
        var model := supplied[i].value;
        if model.id in infos {
          CollectRepeated(supplied[..i], model, raw, unique, infos, counts);
        } else {
          CollectFirst(supplied[..i], model, raw, unique, infos, counts);
          infos := infos[model.id := model];
          unique := unique + [model.id];
        }
        raw := raw + [model.id];
        counts := counts[model.id := Times(counts, model.id) + 1];
      }
      assert supplied[..|supplied|] == supplied;
    }

    static lemma EmptyTogether(
      supplied: seq<Option<ModelInfo>>,
      raw: seq<string>, unique: seq<string>, infos: map<string, ModelInfo>, counts: map<string, nat>)
      requires Collected(supplied, raw, unique, infos, counts)
      ensures raw == [] <==> unique == []
      ensures forall id :: id in unique <==> id in raw
      ensures "" !in raw
    {
      FirstInfosOfRaw(supplied);
      assert raw != [] ==> raw[0] in raw;
      assert unique != [] ==> unique[0] in unique;
    }

    static method CountIds(ids: seq<string>) returns (counts: map<string, nat>)
      ensures CountsOf(counts, ids)
    {
      counts := map[];
      for i := 0 to |ids|
        invariant CountsOf(counts, ids[..i])
      {
        assert ids[..i + 1] == ids[..i] + [ids[i]];
        counts := counts[ids[i] := Times(counts, ids[i]) + 1];
      }
      assert ids[..|ids|] == ids;
    }

    method RehomeOne(modelID: string, oldProvider: string, toRemove: nat)
      requires EntryTidy(Lookup(models, modelID)) && oldProvider != ""
      modifies this`models
      ensures models == With(old(models), modelID, Rehomed(Lookup(old(models), modelID), oldProvider, toRemove))
    {
      if toRemove == 0 || modelID !in models {
        return;
      }
      var r := models[modelID];
      ghost var goal := Rehomed(Some(r), oldProvider, toRemove);
      if oldProvider in r.providers {
        var count := r.providers[oldProvider];
        if count <= toRemove {
          r := r.(providers := r.providers - {oldProvider}, infoByProvider := r.infoByProvider - {oldProvider});
        } else {
          r := r.(providers := r.providers[oldProvider := count - toRemove]);
        }
      }
      assert r.providers == goal.value.providers;
      assert r.infoByProvider == goal.value.infoByProvider;
      models := models[modelID := r];
    }

    /** Models kept across a provider change leave the old provider first. */
    method RehomeOverlap(oldProvider: string, provider: string, oldCounts: map<string, nat>, newCounts: map<string, nat>)
      requires AllTidy(models)
      requires oldProvider != provider && oldProvider != ""
      modifies this`models
      ensures RehomingDone(old(models), models, oldProvider, oldCounts, provider, newCounts)
    {
      ghost var before := models;
      var todo := newCounts.Keys;
      while todo != {}
        invariant todo <= newCounts.Keys
        invariant forall id ::
          Lookup(models, id) ==
          if id in todo then Lookup(before, id)
          else AfterRehoming(Lookup(before, id), oldProvider, Times(oldCounts, id), provider, Times(newCounts, id))
        decreases todo
      {
        var id :| id in todo;
        todo := todo - {id};
        var toRemove := newCounts[id];
        if Times(oldCounts, id) < toRemove {
          toRemove := Times(oldCounts, id);
        }
        assert Lookup(models, id) == Lookup(before, id);
        RehomeOne(id, oldProvider, toRemove);
      }
    }

    method ApplyRemovals(
      clientID: string, oldProvider: string, oldCounts: map<string, nat>, newCounts: map<string, nat>, now: Time)
      requires AllTidy(models)
      modifies this`models
      ensures RemovalsDone(old(models), models, clientID, oldProvider, oldCounts, newCounts, now)
    {
      ghost var before := models;
      var todo := set id | id in oldCounts && Times(newCounts, id) == 0;
      while todo != {}
        invariant todo <= oldCounts.Keys
        invariant forall id :: id in todo ==> Times(newCounts, id) == 0
        invariant forall id ::
          Lookup(models, id) ==
          if id in todo then Lookup(before, id)
          else AfterRemovals(Lookup(before, id), clientID, oldProvider, Times(oldCounts, id), Times(newCounts, id), now)
        decreases todo
      {
        var id :| id in todo;
        todo := todo - {id};
        assert Lookup(models, id) == Lookup(before, id);
        RemoveMany(clientID, id, oldProvider, oldCounts[id], now);
      }
    }

    method ApplyOverage(
      clientID: string, oldProvider: string, oldCounts: map<string, nat>, newCounts: map<string, nat>, now: Time)
      requires AllTidy(models)
      modifies this`models
      ensures OverageDone(old(models), models, clientID, oldProvider, oldCounts, newCounts, now)
    {
      ghost var before := models;
      var todo := oldCounts.Keys;
      while todo != {}
        invariant todo <= oldCounts.Keys
        invariant forall id ::
          Lookup(models, id) ==
          if id in todo then Lookup(before, id)
          else AfterOverage(Lookup(before, id), clientID, oldProvider, Times(oldCounts, id), Times(newCounts, id), now)
        decreases todo
      {
        var id :| id in todo;
        todo := todo - {id};
        assert Lookup(models, id) == Lookup(before, id);
        var newCount := Times(newCounts, id);
        if newCount != 0 && oldCounts[id] > newCount {
          RemoveMany(clientID, id, oldProvider, oldCounts[id] - newCount, now);
        }
      }
    }

    method ApplyAdditions(
      provider: string, oldCounts: map<string, nat>, newCounts: map<string, nat>,
      infos: map<string, ModelInfo>, now: Time)
      requires AllTidy(models)
      requires infos.Keys == newCounts.Keys && "" !in infos
      modifies this`models
      ensures AdditionsDone(old(models), models, oldCounts, provider, newCounts, infos, now)
    {
      ghost var before := models;
      var todo := newCounts.Keys;
      while todo != {}
        invariant todo <= newCounts.Keys
        invariant forall id ::
          Lookup(models, id) ==
          if id in todo then Lookup(before, id)
          else AfterAdditions(Lookup(before, id), Times(oldCounts, id), provider, Times(newCounts, id), InfoIn(infos, id), now)
        decreases todo
      {
        var id :| id in todo;
        todo := todo - {id};
        assert Lookup(models, id) == Lookup(before, id);
        assert id != "";
        var oldCount := Times(oldCounts, id);
        if newCounts[id] > oldCount {
          AddMany(id, provider, infos[id], newCounts[id] - oldCount, now);
        }
      }
    }

    /** Metadata and marks of every model the client now lists. */
    method RefreshMetadata(
      clientID: string, oldProvider: string, provider: string, unique: seq<string>,
      oldCounts: map<string, nat>, newCounts: map<string, nat>, infos: map<string, ModelInfo>, now: Time)
      requires AllTidy(models)
      requires Distinct(unique)
      requires forall id :: id in unique <==> id in newCounts
      requires forall id :: id in newCounts ==> newCounts[id] > 0
      requires infos.Keys == newCounts.Keys
      modifies this`models
      ensures RefreshDone(old(models), models, clientID, oldProvider, oldCounts, provider, newCounts, infos, now)
    {
      ghost var before := models;
      for i := 0 to |unique|
        invariant forall id ::
          Lookup(models, id) ==
          if id in unique[..i] then
            AfterRefresh(Lookup(before, id), clientID, oldProvider, Times(oldCounts, id),
                         provider, Times(newCounts, id), InfoIn(infos, id), now)
          else Lookup(before, id)
      {
        var id := unique[i];
        assert unique[..i + 1] == unique[..i] + [id];
        assert Lookup(models, id) == Lookup(before, id);
        if id in models {
          var r := models[id];
          r := r.(info := infos[id], lastUpdated := now);
          if provider != "" {
            r := r.(infoByProvider := r.infoByProvider[provider := infos[id]]);
          }
          r := r.(quotaExceeded := r.quotaExceeded - {clientID}, suspended := r.suspended - {clientID});
          if oldProvider != provider && provider != "" && Times(oldCounts, id) != 0 {
            var overlapCount := newCounts[id];
            if Times(oldCounts, id) < overlapCount {
              overlapCount := Times(oldCounts, id);
            }
            if overlapCount > 0 {
              r := r.(providers := r.providers[provider := Get(r.providers, provider) + overlapCount]);
            }
          }
          models := models[id := r];
          RefreshIs(Lookup(before, id), clientID, oldProvider, Times(oldCounts, id), provider, newCounts[id], infos[id], now, r);
        }
      }
    }

    method Reconcile(
      clientID: string, oldProvider: string, provider: string, unique: seq<string>,
      oldCounts: map<string, nat>, newCounts: map<string, nat>, infos: map<string, ModelInfo>, now: Time)
      requires AllTidy(models)
      requires Distinct(unique)
      requires forall id :: id in unique <==> id in newCounts
      requires forall id :: id in newCounts ==> newCounts[id] > 0
      requires infos.Keys == newCounts.Keys && "" !in infos
      modifies this`models
      ensures PhasesDone(old(models), models, clientID, oldProvider, oldCounts, provider, newCounts, infos, now)
    {
      ghost var m0 := models;
      if oldProvider != provider && oldProvider != "" {
        RehomeOverlap(oldProvider, provider, oldCounts, newCounts);
      }
      ghost var m1 := models;
      assert RehomingDone(m0, m1, oldProvider, oldCounts, provider, newCounts);
      RehomingTidy(m0, m1, oldProvider, oldCounts, provider, newCounts);
      ApplyRemovals(clientID, oldProvider, oldCounts, newCounts, now);
      ghost var m2 := models;
      RemovalsTidy(m1, m2, clientID, oldProvider, oldCounts, newCounts, now);
      ApplyOverage(clientID, oldProvider, oldCounts, newCounts, now);
      ghost var m3 := models;
      OverageTidy(m2, m3, clientID, oldProvider, oldCounts, newCounts, now);
      ApplyAdditions(provider, oldCounts, newCounts, infos, now);
      ghost var m4 := models;
      AdditionsTidy(m3, m4, oldCounts, provider, newCounts, infos, now);
      RefreshMetadata(clientID, oldProvider, provider, unique, oldCounts, newCounts, infos, now);
      ComposePhases(m0, m1, m2, m3, m4, models, clientID, oldProvider, oldCounts, provider, newCounts, infos, now);
    }

    /** First registration: one step per supplied model. */
    method AddAll(raw: seq<string>, provider: string, infos: map<string, ModelInfo>, now: Time)
      requires AllTidy(models)
      requires "" !in raw && forall id :: id in raw ==> id in infos
      modifies this`models
      ensures AddedAll(old(models), models, provider, multiset(raw), infos, now)
    {
      ghost var before := models;
      for i := 0 to |raw|
        invariant AddedAll(before, models, provider, multiset(raw[..i]), infos, now)
      {
        var id := raw[i];
        assert raw[..i + 1] == raw[..i] + [id];
        AddedAllTidy(before, models, provider, multiset(raw[..i]), infos, now, id);
        AddedAllStep(before, models, provider, multiset(raw[..i]), infos, now, id);
        AddModelRegistration(id, provider, infos[id], now);
      }
      assert raw[..|raw|] == raw;
    }

    method RegisterClient(clientID: string, clientProvider: string, supplied: seq<Option<ModelInfo>>, now: Time)
      requires Valid()
      modifies this
      ensures Valid() && cache == map[]
      ensures State() == Apply(old(State()), Register(clientID, clientProvider, supplied, now))
      ensures builtAt == map[]
      ensures RegistryCache.Acts(old(System()), RegistryCache.Change(Register(clientID, clientProvider, supplied, now)), System())
    {
      SettledConsistent(State(), clientID, Text.ToLower(clientProvider), supplied, now);
      ReplaceClient(clientID, Text.ToLower(clientProvider), supplied, now);
      InvalidateCache();
    }

    /** Everything registering does to the tables. */
    method ReplaceClient(clientID: string, provider: string, supplied: seq<Option<ModelInfo>>, now: Time)
      requires Consistent(State())
      modifies this`models, this`clientModels, this`clientInfos, this`clientProviders
      ensures State() == Settled(old(State()), clientID, provider, supplied, now)
    {
      ghost var before := State();
      var raw, unique, infos, newCounts := CollectModels(supplied);
      EmptyTogether(supplied, raw, unique, infos, newCounts);
      if |unique| == 0 {
        NothingSupplied(before, clientID, provider, supplied, now);
        UnregisteredTwice(before, clientID, now);
        UnregisterClientInternal(clientID, now);
        clientModels := clientModels - {clientID};
        clientInfos := clientInfos - {clientID};
        clientProviders := clientProviders - {clientID};
        return;
      }
      RegisterModels(clientID, provider, raw, unique, infos, newCounts, supplied, now);
      RecordClient(clientID, provider, raw, infos);
      RecordedIsSettled(before, State(), clientID, provider, supplied, now);
    }

    method RecordClient(clientID: string, provider: string, raw: seq<string>, infos: map<string, ModelInfo>)
      modifies this`clientModels, this`clientInfos, this`clientProviders
      ensures clientModels == old(clientModels)[clientID := raw]
      ensures clientInfos == old(clientInfos)[clientID := infos]
      ensures clientProviders == if provider == "" then old(clientProviders) - {clientID}
                                 else old(clientProviders)[clientID := provider]
    {
      clientModels := clientModels[clientID := raw];
      clientInfos := clientInfos[clientID := infos];
      if provider != "" {
        clientProviders := clientProviders[clientID := provider];
      } else {
        clientProviders := clientProviders - {clientID};
      }
    }

    /** The counters: pure additions for a new client, reconciliation for a known one. */
    method RegisterModels(
      clientID: string, provider: string, raw: seq<string>, unique: seq<string>, infos: map<string, ModelInfo>,
      newCounts: map<string, nat>, ghost supplied: seq<Option<ModelInfo>>, now: Time)
      requires Consistent(State())
      requires raw == RawIds(supplied) && infos == FirstInfos(supplied) && CountsOf(newCounts, raw)
      requires forall id :: id in unique <==> id in raw
      requires Distinct(unique)
      modifies this`models
      ensures models == Settled(old(State()), clientID, provider, supplied, now).models
    {
      ghost var before := State();
      FirstInfosOfRaw(supplied);
      ConsistentTidy(before);
      if clientID !in clientModels {
        AddAll(raw, provider, infos, now);
        AddsReachSettled(before, models, clientID, provider, supplied, now);
      } else {
        var oldCounts := CountIds(clientModels[clientID]);
        var oldProvider := if clientID in clientProviders then clientProviders[clientID] else "";
        Reconcile(clientID, oldProvider, provider, unique, oldCounts, newCounts, infos, now);
        PhasesReachSettled(before, models, clientID, provider, oldCounts, newCounts, supplied, now);
      }
    }

    method UnregisterClientInternal(clientID: string, now: Time)
      requires Consistent(State())
      modifies this`models, this`clientModels, this`clientInfos, this`clientProviders
      ensures State() == Unregistered(old(State()), clientID, now)
    {
      ghost var before := State();
      if clientID !in clientModels {
        NothingToUnregister(before, clientID, now);
        return;
      }
      var hasProvider := clientID in clientProviders;
      var provider := if hasProvider then clientProviders[clientID] else "";
      ConsistentTidy(before);
      UnregisterListed(clientID, clientModels[clientID], hasProvider, provider, now);
      DropsReachUnregistered(before, models, clientID, now);
      clientModels := clientModels - {clientID};
      clientInfos := clientInfos - {clientID};
      if hasProvider {
        clientProviders := clientProviders - {clientID};
      }
    }

    method UnregisterListed(clientID: string, listed: seq<string>, hasProvider: bool, provider: string, now: Time)
      requires AllTidy(models) && (hasProvider <==> provider != "")
      modifies this`models
      ensures DroppedAll(old(models), models, clientID, provider, multiset(listed), now)
    {
      ghost var before := models;
      for i := 0 to |listed|
        invariant DroppedAll(before, models, clientID, provider, multiset(listed[..i]), now)
      {
        assert listed[..i + 1] == listed[..i] + [listed[i]];
        DroppedAllTidy(before, models, clientID, provider, multiset(listed[..i]), now, listed[i]);
        DroppedAllStep(before, models, clientID, provider, multiset(listed[..i]), now, listed[i]);
        UnregisterOne(clientID, listed[i], hasProvider, provider, now);
      }
      assert listed[..|listed|] == listed;
    }

    /** The body of the unregistration loop. */
    method UnregisterOne(clientID: string, modelID: string, hasProvider: bool, provider: string, now: Time)
      requires EntryTidy(Lookup(models, modelID)) && (hasProvider <==> provider != "")
      modifies this`models
      ensures models == With(old(models), modelID, Dropped(Lookup(old(models), modelID), clientID, provider, 1, now))
    {
      if modelID in models {
        var r := models[modelID];
        ghost var goal := Dropped(Some(r), clientID, provider, 1, now);
        r := r.(count := r.count - 1, lastUpdated := now,
                quotaExceeded := r.quotaExceeded - {clientID}, suspended := r.suspended - {clientID});
        if hasProvider && provider in r.providers {
          var count := r.providers[provider];
          if count <= 1 {
            r := r.(providers := r.providers - {provider}, infoByProvider := r.infoByProvider - {provider});
          } else {
            r := r.(providers := r.providers[provider := count - 1]);
          }
        }
        if r.count <= 0 {
          models := models - {modelID};
        } else {
          assert r.providers == goal.value.providers;
          assert r.infoByProvider == goal.value.infoByProvider;
          models := models[modelID := r];
        }
      }
    }

    method UnregisterClient(clientID: string, now: Time)
      requires Valid()
      modifies this
      ensures Valid() && cache == map[]
      ensures State() == Apply(old(State()), Unregister(clientID, now))
      ensures builtAt == map[]
      ensures RegistryCache.Acts(old(System()), RegistryCache.Change(Unregister(clientID, now)), System())
    {
      SettledConsistent(State(), clientID, "", [], now);
      UnregisterClientInternal(clientID, now);
      InvalidateCache();
    }

    // ----- marks

    method SetModelQuotaExceeded(clientID: string, modelID: string, now: Time)
      requires Valid()
      modifies this`models, this`cache, this`builtAt
      ensures Valid()
      ensures State() == Apply(old(State()), SetQuotaExceeded(clientID, modelID, now))
      ensures SameCounters(old(State()), State()) && OnlyQuotaOf(old(State()), State(), modelID, clientID)
      ensures QuotaMark(State(), modelID, clientID) == if modelID in models then Some(now) else None
      ensures CacheKept(old(cache), cache, old(builtAt), builtAt)
      ensures RegistryCache.Acts(old(System()), RegistryCache.Change(SetQuotaExceeded(clientID, modelID, now)), System())
    {
      ghost var before := State();
      MarkEventKeepsCounters(before, SetQuotaExceeded(clientID, modelID, now));
      SetQuotaMarks(before, clientID, modelID, now);
      EventConsistent(before, SetQuotaExceeded(clientID, modelID, now));
      if modelID in models {
        var r := models[modelID];
        models := models[modelID := r.(quotaExceeded := r.quotaExceeded[clientID := now])];
        InvalidateCache();
      }
    }

    method ClearModelQuotaExceeded(clientID: string, modelID: string)
      requires Valid()
      modifies this`models, this`cache, this`builtAt
      ensures Valid()
      ensures State() == Apply(old(State()), ClearQuotaExceeded(clientID, modelID))
      ensures SameCounters(old(State()), State()) && OnlyQuotaOf(old(State()), State(), modelID, clientID)
      ensures QuotaMark(State(), modelID, clientID) == None
      ensures CacheKept(old(cache), cache, old(builtAt), builtAt)
      ensures RegistryCache.Acts(old(System()), RegistryCache.Change(ClearQuotaExceeded(clientID, modelID)), System())
    {
      ghost var before := State();
      MarkEventKeepsCounters(before, ClearQuotaExceeded(clientID, modelID));
      ClearQuotaMarks(before, clientID, modelID);
      EventConsistent(before, ClearQuotaExceeded(clientID, modelID));
      if modelID in models {
        var r := models[modelID];
        models := models[modelID := r.(quotaExceeded := r.quotaExceeded - {clientID})];
        InvalidateCache();
      }
    }

    method SuspendClientModel(clientID: string, modelID: string, reason: string, now: Time)
      requires Valid()
      modifies this`models, this`cache, this`builtAt
      ensures Valid()
      ensures State() == Apply(old(State()), Suspend(clientID, modelID, reason, now))
      ensures SameCounters(old(State()), State()) && OnlySuspensionOf(old(State()), State(), modelID, clientID)
      ensures SuspendedFor(State(), modelID, clientID) ==
        var before := SuspendedFor(old(State()), modelID, clientID);
        if before.None? && modelID in models && clientID != "" && modelID != "" then Some(reason) else before
      ensures CacheKept(old(cache), cache, old(builtAt), builtAt)
      ensures RegistryCache.Acts(old(System()), RegistryCache.Change(Suspend(clientID, modelID, reason, now)), System())
    {
      ghost var before := State();
      MarkEventKeepsCounters(before, Suspend(clientID, modelID, reason, now));
      SuspendMarks(before, clientID, modelID, reason, now);
      EventConsistent(before, Suspend(clientID, modelID, reason, now));
      if clientID == "" || modelID == "" || modelID !in models {
        return;
      }
      var r := models[modelID];
      if clientID in r.suspended {
        assert models == models[modelID := r];
        return;
      }
      models := models[modelID := r.(suspended := r.suspended[clientID := reason], lastUpdated := now)];
      InvalidateCache();
    }

    method ResumeClientModel(clientID: string, modelID: string, now: Time)
      requires Valid()
      modifies this`models, this`cache, this`builtAt
      ensures Valid()
      ensures State() == Apply(old(State()), Resume(clientID, modelID, now))
      ensures SameCounters(old(State()), State()) && OnlySuspensionOf(old(State()), State(), modelID, clientID)
      ensures clientID != "" && modelID != "" ==> SuspendedFor(State(), modelID, clientID) == None
      ensures CacheKept(old(cache), cache, old(builtAt), builtAt)
      ensures RegistryCache.Acts(old(System()), RegistryCache.Change(Resume(clientID, modelID, now)), System())
    {
      ghost var before := State();
      MarkEventKeepsCounters(before, Resume(clientID, modelID, now));
      ResumeMarks(before, clientID, modelID, now);
      EventConsistent(before, Resume(clientID, modelID, now));
      if clientID == "" || modelID == "" || modelID !in models {
        return;
      }
      var r := models[modelID];
      if clientID !in r.suspended {
        assert models == models[modelID := r];
        return;
      }
      models := models[modelID := r.(suspended := r.suspended - {clientID}, lastUpdated := now)];
      InvalidateCache();
    }

    method CleanupExpiredQuotas(now: Time)
      requires Valid()
      modifies this`models, this`cache, this`builtAt
      ensures Valid()
      ensures State() == Apply(old(State()), CleanupExpired(now))
      ensures SameCounters(old(State()), State()) && CleanedUp(old(State()), State(), now)
      ensures CacheKept(old(cache), cache, old(builtAt), builtAt)
      ensures RegistryCache.Acts(old(System()), RegistryCache.Change(CleanupExpired(now)), System())
    {
      MarkEventKeepsCounters(State(), CleanupExpired(now));
      CleanupMarks(State(), now);
      ghost var before := State();
      EventConsistent(before, CleanupExpired(now));
      MarkEventKeepsCounters(before, CleanupExpired(now));
      CleanupMarks(before, now);
      var invalidated := CleanupAll(now);
      if invalidated {
        InvalidateCache();
      }
    }

    method CleanupAll(now: Time) returns (invalidated: bool)
      modifies this`models
      ensures State() == Apply(old(State()), CleanupExpired(now))
      ensures !invalidated ==> models == old(models)
    {
      ghost var before := models;
      invalidated := false;
      var todo := models.Keys;
      while todo != {}
        invariant todo <= models.Keys == before.Keys
        invariant CleanedExcept(before, models, todo, now)
        invariant !invalidated ==> models == before
        decreases todo
      {
        var id :| id in todo;
        assert todo == (todo - {id}) + {id};
        todo := todo - {id};
        CleanedStep(before, models, todo, id, now);
        var changed := CleanupOne(id, now);
        invalidated := invalidated || changed;
      }
      CleanedAll(before, models, now);
    }

    static ghost predicate CleanedExcept(
      before: map<string, Registration>, after: map<string, Registration>, todo: set<string>, now: Time)
    {
      && after.Keys == before.Keys
      && forall id :: id in before ==> after[id] == if id in todo then before[id] else WithoutExpired(before[id], now)
    }

    static lemma CleanedStep(
      before: map<string, Registration>, after: map<string, Registration>, todo: set<string>, id: string, now: Time)
      requires CleanedExcept(before, after, todo + {id}, now) && id in before && id !in todo
      ensures CleanedExcept(before, after[id := WithoutExpired(after[id], now)], todo, now)
    {
    }

    static lemma CleanedAll(before: map<string, Registration>, after: map<string, Registration>, now: Time)
      requires CleanedExcept(before, after, {}, now)
      ensures after == map id | id in before :: WithoutExpired(before[id], now)
    {
    }

    method CleanupOne(modelID: string, now: Time) returns (changed: bool)
      requires modelID in models
      modifies this`models
      ensures models == old(models)[modelID := WithoutExpired(old(models[modelID]), now)]
      ensures !changed ==> models == old(models)
    {
      var r := models[modelID];
      var expired := set c | c in r.quotaExceeded && now - r.quotaExceeded[c] >= QUOTA_WINDOW;
      assert r.quotaExceeded - expired == WithoutExpired(r, now).quotaExceeded;
      changed := expired != {};
      if changed {
        models := models[modelID := r.(quotaExceeded := r.quotaExceeded - expired)];
      } else {
        assert r.quotaExceeded - expired == r.quotaExceeded;
      }
    }

    // ----- queries

    /** Clients with a live quota mark, and the earliest recovery seen so far. */
    static method CountLive(r: Registration, now: Time, expiry0: Option<Time>) returns (live: int, expiry: Option<Time>)
      ensures live == |LiveMarks(r, now)|
      ensures Earlier(r, now, expiry0, expiry)
    {
      live, expiry := 0, expiry0;
      var todo := r.quotaExceeded.Keys;
      ghost var counted: set<string> := {};
      while todo != {}
        invariant todo <= r.quotaExceeded.Keys
        invariant forall c :: c in counted <==> c in r.quotaExceeded && c !in todo && now < r.quotaExceeded[c] + WINDOW
        invariant live == |counted|
        invariant EarlierOf(r, now, counted, expiry0, expiry)
        decreases todo
      {
        var c :| c in todo;
        todo := todo - {c};
        var recoveryAt := r.quotaExceeded[c] + WINDOW;
        if now < recoveryAt {
          EarlierStep(r, now, counted, expiry0, expiry, c);
          live := live + 1;
          counted := counted + {c};
          if expiry.None? || recoveryAt < expiry.value {
            expiry := Some(recoveryAt);
          }
        }
      }
      assert counted == LiveMarks(r, now);
    }

    /** How many values satisfy `p` and how many do not. */
    static method CountBy(m: map<string, string>, p: string -> bool) returns (yes: int, no: int)
      ensures yes == |set c | c in m && p(m[c])|
      ensures no == |set c | c in m && !p(m[c])|
    {
      yes, no := 0, 0;
      var todo := m.Keys;
      ghost var ys: set<string>, ns: set<string> := {}, {};
      while todo != {}
        invariant todo <= m.Keys
        invariant forall c :: c in ys <==> c in m && c !in todo && p(m[c])
        invariant forall c :: c in ns <==> c in m && c !in todo && !p(m[c])
        invariant yes == |ys| && no == |ns|
        decreases todo
      {
        var c :| c in todo;
        todo := todo - {c};
        if p(m[c]) {
          yes := yes + 1;
          ys := ys + {c};
        } else {
          no := no + 1;
          ns := ns + {c};
        }
      }
      assert ys == set c | c in m && p(m[c]);
      assert ns == set c | c in m && !p(m[c]);
    }

    /** Suspended clients, split by whether the reason is a quota cooldown. */
    static method CountSuspended(r: Registration) returns (cooldown: int, other: int)
      ensures other == |OtherSuspended(r)| && cooldown == |r.suspended.Keys - OtherSuspended(r)|
    {
      var isQuota := (reason: string) => Text.EqualFold(reason, "quota");
      cooldown, other := CountBy(r.suspended, isQuota);
      assert (set c | c in r.suspended && !isQuota(r.suspended[c])) == OtherSuspended(r);
      assert (set c | c in r.suspended && isQuota(r.suspended[c])) == r.suspended.Keys - OtherSuspended(r);
    }

    /** Builds the listing of a handler from the current entries. */
    method BuildAvailableModels(handler: string, now: Time) returns (list: seq<ModelInfo>, expiry: Option<Time>)
      requires Consistent(State())
      ensures IsListing(list, models, handler, now) && ShowsAvailable(list, models, now)
      ensures EarliestRecovery(models, now, expiry)
    {
      ConsistentKeys(State());
      list, expiry := [], None;
      var todo := models.Keys;
      ghost var done: map<string, Registration> := map[];
      while todo != {}
        invariant todo <= models.Keys
        invariant done == models - todo
        invariant multiset(list) == multiset(VisibleInfos(done, now))
        invariant EarliestRecovery(done, now, expiry)
        decreases todo
      {
        var id :| id in todo;
        assert todo == (todo - {id}) + {id};
        todo := todo - {id};
        var r := models[id];
        var live, next := CountLive(r, now, expiry);
        var cooldown, other := CountSuspended(r);
        EarliestExtends(done, id, r, now, expiry, next);
        OneMoreVisible(done, id, r, now);
        expiry := next;
        KeepOneMore(models, todo, id);
        done := done[id := r];
        var effective := r.count - live - other;
        if effective < 0 {
          effective := 0;
        }
        if effective > 0 || (r.count > 0 && (live > 0 || cooldown > 0) && other == 0) {
          list := list + [r.info];
        }
      }
      assert done == models;
      list := SortByKey(handler, list);
      CurrentShows(State(), list, handler, now);
    }

    static lemma KeepOneMore(models: map<string, Registration>, todo: set<string>, id: string)
      requires id in models && id !in todo
      ensures models - todo == (models - (todo + {id}))[id := models[id]]
    {
    }

    /** The answer from the cache, if there is one that has not expired. */
    method CachedModels(handler: string, now: Time) returns (answer: Option<seq<ModelInfo>>)
      requires Valid()
      ensures answer.Some? <==> Hit(handler, now)
      ensures answer.Some? ==> answer.value == cache[handler].list
      ensures answer.Some? && builtAt[handler] <= now ==> IsListing(answer.value, models, handler, now)
      ensures answer.Some? && BuiltBy(now) ==> IsListing(answer.value, models, handler, now)
    {
      if handler in cache && (cache[handler].expiresAt.None? || now < cache[handler].expiresAt.value) {
        if builtAt[handler] <= now {
          ListingUntilRecovery(cache[handler].list, models, handler, builtAt[handler], cache[handler].expiresAt, now);
        }
        return Some(cache[handler].list);
      }
      return None;
    }

    /** The exclusive section: looks again, since another caller may have refreshed, and else rebuilds. */
    method RefreshModels(handler: string, now: Time) returns (list: seq<ModelInfo>)
      requires Valid()
      modifies this`cache, this`builtAt
      ensures Valid() && handler in cache
      ensures builtAt[handler] <= now ==> IsListing(list, models, handler, now)
      ensures old(Hit(handler, now)) ==> cache == old(cache) && builtAt == old(builtAt) && list == cache[handler].list
      ensures !old(Hit(handler, now)) ==>
        && cache == old(cache)[handler := CacheEntry(list, cache[handler].expiresAt)]
        && builtAt == old(builtAt)[handler := now]
      ensures RegistryCache.Acts(old(System()), RegistryCache.Ask(handler, now, list), System())
      ensures old(BuiltBy(now)) ==> BuiltBy(now) && IsListing(list, models, handler, now)
    {
      var answer := CachedModels(handler, now);
      if answer.Some? {
        return answer.value;
      }
      var expiry;
      list, expiry := BuildAvailableModels(handler, now);
      EntriesUpdate(cache, builtAt, handler, CacheEntry(list, expiry), now);
      cache := cache[handler := CacheEntry(list, expiry)];
      builtAt := builtAt[handler := now];
    }

    ghost predicate Hit(handler: string, now: Time)
      reads this
    {
      handler in cache && Unexpired(cache[handler].expiresAt, now)
    }

    static lemma EntriesUpdate(
      cache: map<string, CacheEntry>, builtAt: map<string, Time>, handler: string, c: CacheEntry, at: Time)
      ensures Entries(cache[handler := c], builtAt[handler := at])
           == Entries(cache, builtAt)[handler := RegistryCache.Cached(c.list, c.expiresAt, at)]
    {
    }

    /**
     * What a handler is shown at `now`: from the cache if that has not expired, and else rebuilt. With a
     * clock that does not run backwards it always is what the current entries say.
     */
    method GetAvailableModels(handler: string, now: Time) returns (list: seq<ModelInfo>)
      requires Valid()
      modifies this`cache, this`builtAt
      ensures Valid() && handler in cache
      ensures builtAt[handler] <= now ==> IsListing(list, models, handler, now)
      ensures old(Hit(handler, now)) ==> cache == old(cache) && builtAt == old(builtAt) && list == cache[handler].list
      ensures !old(Hit(handler, now)) ==>
        && cache == old(cache)[handler := CacheEntry(list, cache[handler].expiresAt)]
        && builtAt == old(builtAt)[handler := now]
      ensures RegistryCache.Acts(old(System()), RegistryCache.Ask(handler, now, list), System())
      ensures old(BuiltBy(now)) ==> BuiltBy(now) && IsListing(list, models, handler, now)
      ensures old(BuiltBy(now)) ==> ShowsAvailable(list, models, now)
    {
      var answer := CachedModels(handler, now);
      if answer.Some? {
        list := answer.value;
      } else {
        list := RefreshModels(handler, now);
      }
      if old(BuiltBy(now)) {
        CurrentShows(State(), list, handler, now);
      }
    }

    /** Registrations of a model left after live quota marks and suspensions. */
    method GetModelCount(modelID: string, now: Time) returns (count: int)
      requires Valid()
      ensures modelID !in models ==> count == 0 && Total(State(), modelID) <= 0
      ensures modelID in models ==>
        var left := Total(State(), modelID) - |LiveMarks(models[modelID], now)| - |models[modelID].suspended|;
        count == if left < 0 then 0 else left
    {
      assert Counted(State(), modelID);
      if modelID !in models {
        return 0;
      }
      var r := models[modelID];
      var live, _ := CountLive(r, now, None);
      count := r.count - live - |r.suspended|;
      if count < 0 {
        count := 0;
      }
    }
  }
}
