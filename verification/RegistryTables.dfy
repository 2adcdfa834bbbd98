/**
 * The model registry as a value: its four tables, the counter invariant that ties
 * the redundant counters to the clients' own lists, and the meaning of one
 * registration step.
 */
module RegistryTables {
  import opened Wrappers
  import opened MapSum

  type Time = int

  /** Metadata of one model; everything beyond the identifier is opaque. */
  datatype ModelInfo = ModelInfo(id: string, metadata: string)

  /** What the registry keeps for one model identifier. */
  datatype Registration = Registration(
    info: ModelInfo,
    infoByProvider: map<string, ModelInfo>,
    count: int,
    lastUpdated: Time,
    quotaExceeded: map<string, Time>,
    providers: map<string, int>,
    suspended: map<string, string>)

  datatype Tables = Tables(
    models: map<string, Registration>,
    clientModels: map<string, seq<string>>,
    clientInfos: map<string, map<string, ModelInfo>>,
    clientProviders: map<string, string>)

  const EMPTY := Tables(map[], map[], map[], map[])

  const NO_INFO := ModelInfo("", "")

  // ----- what the clients say

  function Lookup<V>(m: map<string, V>, k: string): Option<V> {
    if k in m then Some(m[k]) else None
  }

  function With<V>(m: map<string, V>, k: string, entry: Option<V>): map<string, V> {
    if entry.Some? then m[k := entry.value] else m - {k}
  }

  function ProviderOf(t: Tables, client: string): string {
    if client in t.clientProviders then t.clientProviders[client] else ""
  }

  /** How often a client lists a model. */
  function Listed(t: Tables, client: string, id: string): nat {
    if client in t.clientModels then multiset(t.clientModels[client])[id] else 0
  }

  ghost function Shares(t: Tables, id: string): map<string, int> {
    map c | c in t.clientModels :: multiset(t.clientModels[c])[id]
  }

  ghost function SharesBy(t: Tables, provider: string, id: string): map<string, int> {
    map c | c in t.clientModels ::
      if ProviderOf(t, c) == provider then multiset(t.clientModels[c])[id] else 0
  }

  /** Registrations of a model over all clients, and over the clients of one provider. */
  ghost function Total(t: Tables, id: string): int {
    Sum(Shares(t, id))
  }

  ghost function TotalBy(t: Tables, provider: string, id: string): int {
    Sum(SharesBy(t, provider, id))
  }

  // ----- the counter invariant

  /** Provider counts are positive and every provider present has its own metadata. */
  ghost predicate Tidy(r: Registration) {
    && r.count > 0
    && "" !in r.providers
    && (forall p :: p in r.providers ==> r.providers[p] > 0)
    && r.infoByProvider.Keys == r.providers.Keys
  }

  ghost predicate ClientsWellFormed(t: Tables) {
    && t.clientInfos.Keys == t.clientModels.Keys
    && t.clientProviders.Keys <= t.clientModels.Keys
    && (forall c :: c in t.clientProviders ==> t.clientProviders[c] != "")
    && (forall c :: c in t.clientModels ==> t.clientModels[c] != [] && "" !in t.clientModels[c])
    && (forall c, id :: c in t.clientModels ==>
          (id in t.clientInfos[c] <==> id in t.clientModels[c]))
    && (forall c, id :: c in t.clientModels && id in t.clientInfos[c] ==>
          t.clientInfos[c][id].id == id)
  }

  /** The registration of `id` counts exactly what the clients list. */
  ghost predicate Counted(t: Tables, id: string) {
    && (id in t.models <==> Total(t, id) > 0)
    && (id in t.models ==>
          var r := t.models[id];
          && Tidy(r)
          && r.count == Total(t, id)
          && r.info.id == id
          && (forall p :: p in r.infoByProvider ==> r.infoByProvider[p].id == id)
          && (forall p :: p in r.providers <==> p != "" && TotalBy(t, p, id) > 0)
          && (forall p :: p in r.providers ==> r.providers[p] == TotalBy(t, p, id)))
  }

  ghost predicate Consistent(t: Tables) {
    ClientsWellFormed(t) && forall id :: Counted(t, id)
  }

  /** Quota and suspension marks name only clients that list the model. */
  ghost predicate MarksOwned(t: Tables) {
    forall id, c :: id in t.models && (c in t.models[id].quotaExceeded || c in t.models[id].suspended)
      ==> Listed(t, c, id) > 0
  }

  // ----- one registration step

  /** Adds `delta` registrations of a provider; a provider left without any disappears. */
  function Shift(providers: map<string, int>, provider: string, delta: int): map<string, int> {
    if provider == "" || delta == 0 then providers
    else
      var n := Get(providers, provider) + delta;
      if n <= 0 then providers - {provider} else providers[provider := n]
  }

  /**
   * The entry of one model after `client` replaces `oldCount` registrations under
   * `oldProvider` by `newCount` registrations under `provider`. A client that was `known`
   * before starts without marks of its own; for a new one, marks set earlier stay.
   */
  function Settle(
    entry: Option<Registration>, client: string, known: bool,
    oldProvider: string, oldCount: nat,
    provider: string, newCount: nat,
    info: ModelInfo, now: Time): Option<Registration>
  {
    if oldCount == 0 && newCount == 0 then entry
    else
      var r := if entry.Some? then entry.value else Registration(info, map[], 0, now, map[], map[], map[]);
      if r.count - oldCount + newCount <= 0 then None
      else
        var providers := Shift(Shift(r.providers, oldProvider, 0 - oldCount), provider, newCount);
        var cleared := if known || oldCount > 0 then {client} else {};
        var kept := map p | p in r.infoByProvider && p in providers :: r.infoByProvider[p];
        Some(Registration(
               if newCount > 0 then info else r.info,
               if newCount > 0 && provider != "" then kept[provider := info] else kept,
               r.count - oldCount + newCount,
               now,
               r.quotaExceeded - cleared,
               providers,
               r.suspended - cleared))
  }

  /** `n` registrations of the client taken away. */
  function Dropped(
    entry: Option<Registration>, client: string, provider: string, n: nat, now: Time): Option<Registration>
  {
    Settle(entry, client, false, provider, n, "", 0, NO_INFO, now)
  }

  // ----- the supplied model list

  /** The identifiers of the usable models supplied, in order, with repetitions. */
  function RawIds(models: seq<Option<ModelInfo>>): seq<string> {
    if models == [] then []
    else
      var m := models[|models| - 1];
      RawIds(models[..|models| - 1]) + (if m.Some? && m.value.id != "" then [m.value.id] else [])
  }

  /** The first model supplied under each identifier. */
  function FirstInfos(models: seq<Option<ModelInfo>>): map<string, ModelInfo> {
    if models == [] then map[]
    else
      var rest := FirstInfos(models[..|models| - 1]);
      var m := models[|models| - 1];
      if m.Some? && m.value.id != "" && m.value.id !in rest then rest[m.value.id := m.value] else rest
  }

  lemma FirstInfosOfRaw(models: seq<Option<ModelInfo>>)
    ensures forall id :: id in FirstInfos(models) <==> id in RawIds(models)
    ensures forall id :: id in FirstInfos(models) ==> FirstInfos(models)[id].id == id && id != ""
    ensures "" !in RawIds(models)
  {
    if models != [] {
      FirstInfosOfRaw(models[..|models| - 1]);
    }
  }

  function InfoFor(models: seq<Option<ModelInfo>>, id: string): ModelInfo {
    if id in FirstInfos(models) then FirstInfos(models)[id] else NO_INFO
  }

  /** The entry of `id` after the client's whole list is replaced. */
  function SettledEntry(
    t: Tables, client: string, provider: string, models: seq<Option<ModelInfo>>, now: Time, id: string)
    : Option<Registration>
  {
    Settle(Lookup(t.models, id), client, client in t.clientModels, ProviderOf(t, client), Listed(t, client, id),
           provider, multiset(RawIds(models))[id], InfoFor(models, id), now)
  }

  /**
   * The tables after the client's registrations are replaced by those supplied. With no usable
   * model this is unregistering; for a client not yet known it is registering afresh.
   */
  function Settled(
    t: Tables, client: string, provider: string, models: seq<Option<ModelInfo>>, now: Time): Tables
  {
    var raw := RawIds(models);
    var ids := t.models.Keys + set id | id in raw;
    Tables(
      map id | id in ids && SettledEntry(t, client, provider, models, now, id).Some? ::
        SettledEntry(t, client, provider, models, now, id).value,
      if raw == [] then t.clientModels - {client} else t.clientModels[client := raw],
      if raw == [] then t.clientInfos - {client} else t.clientInfos[client := FirstInfos(models)],
      if raw == [] || provider == "" then t.clientProviders - {client}
      else t.clientProviders[client := provider])
  }

  function Unregistered(t: Tables, client: string, now: Time): Tables {
    Settled(t, client, "", [], now)
  }

  lemma SettledLookup(
    t: Tables, client: string, provider: string, models: seq<Option<ModelInfo>>, now: Time, id: string)
    requires Consistent(t)
    ensures Lookup(Settled(t, client, provider, models, now).models, id)
         == SettledEntry(t, client, provider, models, now, id)
  {
    if id !in t.models && id !in RawIds(models) {
      assert Counted(t, id);
      ListedBounds(t, client, id);
    }
  }

  lemma LookupExtensional<V>(a: map<string, V>, b: map<string, V>)
    requires forall k :: Lookup(a, k) == Lookup(b, k)
    ensures a == b
  {
    forall k
      ensures k in a <==> k in b
      ensures k in a && k in b ==> a[k] == b[k]
    {
      assert Lookup(a, k) == Lookup(b, k);
    }
  }

  // ----- consequences of the invariant

  lemma ListedBounds(t: Tables, client: string, id: string)
    ensures 0 <= Listed(t, client, id) <= Total(t, id)
    ensures 0 <= TotalBy(t, ProviderOf(t, client), id)
    ensures Listed(t, client, id) <= TotalBy(t, ProviderOf(t, client), id)
  {
    SumBounds(Shares(t, id), client);
    SumBounds(SharesBy(t, ProviderOf(t, client), id), client);
  }

  /** If one client accounts for every registration, no provider but its own appears. */
  lemma SoleClient(t: Tables, client: string, id: string, p: string)
    requires Listed(t, client, id) == Total(t, id)
    ensures TotalBy(t, p, id) == if p == ProviderOf(t, client) then Listed(t, client, id) else 0
  {
    var all := Shares(t, id);
    var part := SharesBy(t, p, id);
    SumNonNegative(all - {client});
    if client in t.clientModels {
      SumRemove(all, client);
      SumRemove(part, client);
    } else {
      assert all - {client} == all && part - {client} == part;
    }
    SumNonNegative(part - {client});
    SumMonotone(part - {client}, all - {client});
  }

  /** What the step requires of a consistent entry. */
  ghost predicate Covers(entry: Option<Registration>, provider: string, n: nat) {
    && (entry.Some? ==> Tidy(entry.value))
    && (n > 0 ==> entry.Some? && entry.value.count >= n)
    && (n > 0 && provider != "" ==> Get(entry.value.providers, provider) >= n)
  }

  lemma ConsistentCovers(t: Tables, client: string, id: string)
    requires Consistent(t)
    ensures Covers(Lookup(t.models, id), ProviderOf(t, client), Listed(t, client, id))
  {
    assert Counted(t, id);
    ListedBounds(t, client, id);
  }
}
