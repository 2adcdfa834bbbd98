/**
 * Laws of a registration step: it keeps the counters exact, and it is the same as
 * unregistering the client and registering it afresh exactly when no foreign mark
 * would be forgotten on the way.
 */
module RegistryLaws {
  import opened Wrappers
  import opened MapSum
  import opened RegistryTables

  // ----- counters stay exact

  /** The client tables after `client` lists `raw` under `provider`, or nothing at all. */
  ghost predicate Replaced(t: Tables, s: Tables, client: string, provider: string, raw: seq<string>) {
    && s.clientModels == (if raw == [] then t.clientModels - {client} else t.clientModels[client := raw])
    && s.clientProviders == (if raw == [] || provider == "" then t.clientProviders - {client}
                             else t.clientProviders[client := provider])
  }

  lemma SharesAfter(t: Tables, s: Tables, client: string, provider: string, raw: seq<string>, id: string)
    requires Replaced(t, s, client, provider, raw)
    ensures Total(s, id) == Total(t, id) - Listed(t, client, id) + multiset(raw)[id]
  {
    if raw == [] {
      assert Shares(s, id) == Shares(t, id) - {client};
      SumDrop(Shares(t, id), client);
    } else {
      assert Shares(s, id) == Shares(t, id)[client := multiset(raw)[id]];
      SumUpdate(Shares(t, id), client, multiset(raw)[id]);
    }
  }

  lemma ProviderAfter(t: Tables, s: Tables, client: string, provider: string, raw: seq<string>, c: string)
    requires Replaced(t, s, client, provider, raw)
    ensures c != client ==> ProviderOf(s, c) == ProviderOf(t, c)
    ensures raw != [] ==> ProviderOf(s, client) == provider
  {
  }

  lemma SharesByReplaced(
    t: Tables, s: Tables, client: string, provider: string, raw: seq<string>, p: string, id: string)
    requires Replaced(t, s, client, provider, raw)
    ensures SharesBy(s, p, id)
         == if raw == [] then SharesBy(t, p, id) - {client}
            else SharesBy(t, p, id)[client := if p == provider then multiset(raw)[id] else 0]
  {
    var after := SharesBy(s, p, id);
    var expected := if raw == [] then SharesBy(t, p, id) - {client}
                    else SharesBy(t, p, id)[client := if p == provider then multiset(raw)[id] else 0];
    assert after.Keys == expected.Keys;
    forall c | c in after ensures after[c] == expected[c] {
      ProviderAfter(t, s, client, provider, raw, c);
    }
  }

  lemma SharesByAfter(
    t: Tables, s: Tables, client: string, provider: string, raw: seq<string>, p: string, id: string)
    requires Replaced(t, s, client, provider, raw)
    ensures TotalBy(s, p, id)
         == TotalBy(t, p, id)
            - (if p == ProviderOf(t, client) then Listed(t, client, id) else 0)
            + (if p == provider then multiset(raw)[id] else 0)
  {
    SharesByReplaced(t, s, client, provider, raw, p, id);
    if raw == [] {
      SumDrop(SharesBy(t, p, id), client);
    } else {
      SumUpdate(SharesBy(t, p, id), client, if p == provider then multiset(raw)[id] else 0);
    }
  }

  /** The effect of one step on the count of one provider `p`, from `before` to `after`. */
  lemma ProviderCountSettles(
    entry: Option<Registration>, client: string, known: bool, oldProvider: string, oldCount: nat,
    provider: string, newCount: nat, info: ModelInfo, now: Time, p: string, before: nat, after: int)
    requires entry.None? ==> oldCount == 0 && before == 0
    requires entry.Some? ==> Tidy(entry.value) && Get(entry.value.providers, p) == if p == "" then 0 else before
    requires p == oldProvider ==> oldCount <= before
    requires after == before - (if p == oldProvider then oldCount else 0) + (if p == provider then newCount else 0)
    ensures var r := Settle(entry, client, known, oldProvider, oldCount, provider, newCount, info, now);
            r.Some? ==>
              && (p in r.value.providers <==> p != "" && after > 0)
              && (p in r.value.providers ==> r.value.providers[p] == after)
  {
  }

  /** `s` is `t` after the step, as far as the entry of `id` and the client tables go. */
  ghost predicate StepAt(
    t: Tables, s: Tables, client: string, provider: string, raw: seq<string>, info: ModelInfo, now: Time, id: string)
  {
    && Replaced(t, s, client, provider, raw)
    && (id in raw ==> info.id == id)
    && Lookup(s.models, id) == Settle(Lookup(t.models, id), client, client in t.clientModels,
                                      ProviderOf(t, client), Listed(t, client, id),
                                      provider, multiset(raw)[id], info, now)
  }

  lemma ProvidersAfter(
    t: Tables, s: Tables, client: string, provider: string, raw: seq<string>, info: ModelInfo, now: Time,
    id: string, p: string)
    requires Counted(t, id) && StepAt(t, s, client, provider, raw, info, now, id)
    requires id in s.models
    ensures p in s.models[id].providers <==> p != "" && TotalBy(s, p, id) > 0
    ensures p in s.models[id].providers ==> s.models[id].providers[p] == TotalBy(s, p, id)
  {
    SharesByAfter(t, s, client, provider, raw, p, id);
    ListedBounds(t, client, id);
    SumNonNegative(SharesBy(t, p, id));
    if id !in t.models {
      SoleClient(t, client, id, p);
    }
    ProviderCountSettles(Lookup(t.models, id), client, client in t.clientModels, ProviderOf(t, client), Listed(t, client, id),
                         provider, multiset(raw)[id], info, now, p, TotalBy(t, p, id), TotalBy(s, p, id));
  }

  /** Count, tidiness and identifiers of the entry after one step. */
  lemma EntryAfter(
    entry: Option<Registration>, client: string, known: bool, oldProvider: string, oldCount: nat,
    provider: string, newCount: nat, info: ModelInfo, now: Time, id: string)
    requires entry.None? ==> oldCount == 0
    requires entry.Some? ==>
      && Tidy(entry.value) && entry.value.info.id == id
      && (forall p :: p in entry.value.infoByProvider ==> entry.value.infoByProvider[p].id == id)
    requires newCount > 0 ==> info.id == id
    ensures var count := (if entry.Some? then entry.value.count else 0) - oldCount + newCount;
            var r := Settle(entry, client, known, oldProvider, oldCount, provider, newCount, info, now);
            && (r.Some? <==> count > 0)
            && (r.Some? ==>
                  && Tidy(r.value) && r.value.count == count && r.value.info.id == id
                  && (forall p :: p in r.value.infoByProvider ==> r.value.infoByProvider[p].id == id))
  {
  }

  lemma CountedAfter(
    t: Tables, s: Tables, client: string, provider: string, raw: seq<string>, info: ModelInfo, now: Time, id: string)
    requires Counted(t, id) && StepAt(t, s, client, provider, raw, info, now, id)
    ensures Counted(s, id)
  {
    if id in s.models {
      forall p
        ensures p in s.models[id].providers <==> p != "" && TotalBy(s, p, id) > 0
        ensures p in s.models[id].providers ==> s.models[id].providers[p] == TotalBy(s, p, id)
      {
        ProvidersAfter(t, s, client, provider, raw, info, now, id, p);
      }
    }
    TotalAfter(t, s, client, provider, raw, info, now, id);
  }

  lemma TotalAfter(
    t: Tables, s: Tables, client: string, provider: string, raw: seq<string>, info: ModelInfo, now: Time, id: string)
    requires Counted(t, id) && StepAt(t, s, client, provider, raw, info, now, id)
    ensures id in s.models <==> Total(s, id) > 0
    ensures id in s.models ==>
      && Tidy(s.models[id]) && s.models[id].count == Total(s, id) && s.models[id].info.id == id
      && (forall p :: p in s.models[id].infoByProvider ==> s.models[id].infoByProvider[p].id == id)
  {
    SharesAfter(t, s, client, provider, raw, id);
    ListedBounds(t, client, id);
    EntryAfter(Lookup(t.models, id), client, client in t.clientModels, ProviderOf(t, client), Listed(t, client, id),
               provider, multiset(raw)[id], info, now, id);
  }

  lemma SettledClients(t: Tables, client: string, provider: string, models: seq<Option<ModelInfo>>, now: Time)
    requires Consistent(t)
    ensures ClientsWellFormed(Settled(t, client, provider, models, now))
  {
    FirstInfosOfRaw(models);
  }

  /** Replacing a client's registrations keeps every counter equal to what the clients list. */
  lemma SettledConsistent(t: Tables, client: string, provider: string, models: seq<Option<ModelInfo>>, now: Time)
    requires Consistent(t)
    ensures Consistent(Settled(t, client, provider, models, now))
  {
    SettledClients(t, client, provider, models, now);
    var s := Settled(t, client, provider, models, now);
    forall id ensures Counted(s, id) {
      FirstInfosOfRaw(models);
      SettledLookup(t, client, provider, models, now, id);
      CountedAfter(t, s, client, provider, RawIds(models), InfoFor(models, id), now, id);
    }
  }

  /** A mark found after the step was there before, and a known client's own one only on a model it left alone. */
  lemma MarkSurvives(
    entry: Option<Registration>, client: string, known: bool, oldProvider: string, oldCount: nat,
    provider: string, newCount: nat, info: ModelInfo, now: Time, c: string)
    ensures var r := Settle(entry, client, known, oldProvider, oldCount, provider, newCount, info, now);
            r.Some? && (c in r.value.quotaExceeded || c in r.value.suspended) ==>
              && entry.Some? && (c in entry.value.quotaExceeded || c in entry.value.suspended)
              && (c == client ==> oldCount == 0)
  {
  }

  lemma SettledMarksOwned(t: Tables, client: string, provider: string, models: seq<Option<ModelInfo>>, now: Time)
    requires Consistent(t) && MarksOwned(t)
    ensures MarksOwned(Settled(t, client, provider, models, now))
  {
    var s := Settled(t, client, provider, models, now);
    forall id, c | id in s.models && (c in s.models[id].quotaExceeded || c in s.models[id].suspended)
      ensures Listed(s, c, id) > 0
    {
      SettledLookup(t, client, provider, models, now, id);
      MarkSurvives(Lookup(t.models, id), client, client in t.clientModels, ProviderOf(t, client), Listed(t, client, id),
                   provider, multiset(RawIds(models))[id], InfoFor(models, id), now, c);
    }
  }

  // ----- reconciling is unregistering and registering afresh

  ghost predicate OnlyMarks(r: Registration, client: string) {
    r.quotaExceeded.Keys <= {client} && r.suspended.Keys <= {client}
  }

  ghost predicate HasMark(r: Registration, client: string) {
    client in r.quotaExceeded || client in r.suspended
  }

  /** The client drops the model and takes it up again, and nobody else lists it. */
  ghost predicate SoleReturn(t: Tables, client: string, models: seq<Option<ModelInfo>>, id: string) {
    && id in t.models
    && id in RawIds(models)
    && t.models[id].count == Listed(t, client, id)
  }

  /** A known client takes up a model that so far only others list. */
  ghost predicate NewToClient(t: Tables, client: string, models: seq<Option<ModelInfo>>, id: string) {
    && client in t.clientModels
    && id in t.models
    && id in RawIds(models)
    && Listed(t, client, id) == 0
  }

  /**
   * No model that the client alone provides, before and after, carries a mark of somebody else,
   * and no model it newly lists already carries a mark of its own.
   */
  ghost predicate NoForeignMarks(t: Tables, client: string, models: seq<Option<ModelInfo>>) {
    forall id :: NoForeignMarksOn(t, client, models, id)
  }

  ghost predicate NoForeignMarksOn(t: Tables, client: string, models: seq<Option<ModelInfo>>, id: string) {
    && (SoleReturn(t, client, models, id) ==> OnlyMarks(t.models[id], client))
    && (NewToClient(t, client, models, id) ==> !HasMark(t.models[id], client))
  }

  lemma EntryReplaced(
    entry: Option<Registration>, client: string, known: bool, oldProvider: string, oldCount: nat,
    provider: string, newCount: nat, info: ModelInfo, now: Time)
    requires Covers(entry, oldProvider, oldCount)
    requires entry.Some? && entry.value.count == oldCount ==>
      forall p :: p in entry.value.providers ==> p == oldProvider && entry.value.providers[p] == oldCount
    ensures Settle(Dropped(entry, client, oldProvider, oldCount, now), client, false, "", 0, provider, newCount, info, now)
         == Settle(entry, client, known, oldProvider, oldCount, provider, newCount, info, now)
       <==> (entry.Some? && newCount > 0 ==>
               && (entry.value.count == oldCount ==> OnlyMarks(entry.value, client))
               && (known && oldCount == 0 ==> !HasMark(entry.value, client)))
  {
    if entry.Some? && newCount > 0 {
      var two := Settle(Dropped(entry, client, oldProvider, oldCount, now), client, false, "", 0, provider, newCount, info, now);
      var one := Settle(entry, client, known, oldProvider, oldCount, provider, newCount, info, now);
      var r := entry.value;
      if r.count == oldCount {
        assert Shift(r.providers, oldProvider, 0 - oldCount) == map[];
        assert one.value.infoByProvider == two.value.infoByProvider;
        assert two.value.quotaExceeded == map[] && two.value.suspended == map[];
        OnlyKey(r.quotaExceeded, client);
        OnlyKey(r.suspended, client);
      } else {
        assert one.value.providers == two.value.providers;
        assert one.value.infoByProvider == two.value.infoByProvider;
        KeyGone(r.quotaExceeded, client);
        KeyGone(r.suspended, client);
        assert r.quotaExceeded - {} == r.quotaExceeded && r.suspended - {} == r.suspended;
      }
    }
  }

  lemma KeyGone<V>(m: map<string, V>, k: string)
    ensures m - {k} == m <==> k !in m
    ensures (m - {k}) - {} == m - {k}
  {
  }

  lemma OnlyKey<V>(m: map<string, V>, k: string)
    ensures m - {k} == map[] <==> m.Keys <= {k}
  {
    if m - {k} == map[] {
      forall j | j in m ensures j == k {
        assert j != k ==> j in m - {k};
      }
    }
  }

  lemma SoleProvider(t: Tables, client: string, id: string)
    requires Consistent(t) && id in t.models && t.models[id].count == Listed(t, client, id)
    ensures forall p :: p in t.models[id].providers ==>
              p == ProviderOf(t, client) && t.models[id].providers[p] == Listed(t, client, id)
  {
    assert Counted(t, id);
    forall p | p in t.models[id].providers
      ensures p == ProviderOf(t, client) && t.models[id].providers[p] == Listed(t, client, id)
    {
      SoleClient(t, client, id, p);
    }
  }

  lemma EntryOfFresh(
    t: Tables, client: string, provider: string, models: seq<Option<ModelInfo>>, now: Time, id: string)
    requires Consistent(t)
    ensures Lookup(Settled(Unregistered(t, client, now), client, provider, models, now).models, id)
         == Settle(Dropped(Lookup(t.models, id), client, ProviderOf(t, client), Listed(t, client, id), now),
                   client, false, "", 0, provider, multiset(RawIds(models))[id], InfoFor(models, id), now)
  {
    var u := Unregistered(t, client, now);
    SettledConsistent(t, client, "", [], now);
    SettledLookup(u, client, provider, models, now, id);
    SettledLookup(t, client, "", [], now, id);
    assert client !in u.clientModels && client !in u.clientProviders;
    assert RawIds([]) == [];
    DropIgnoresInfo(Lookup(t.models, id), client, client in t.clientModels, ProviderOf(t, client), Listed(t, client, id), now);
  }

  lemma DropIgnoresInfo(
    entry: Option<Registration>, client: string, known: bool, provider: string, n: nat, now: Time)
    ensures Settle(entry, client, known, provider, n, "", 0, NO_INFO, now) == Dropped(entry, client, provider, n, now)
  {
  }

  lemma EntrySame(
    t: Tables, client: string, provider: string, models: seq<Option<ModelInfo>>, now: Time, id: string)
    requires Consistent(t)
    ensures Lookup(Settled(Unregistered(t, client, now), client, provider, models, now).models, id)
         == Lookup(Settled(t, client, provider, models, now).models, id)
       <==> NoForeignMarksOn(t, client, models, id)
  {
    EntryOfFresh(t, client, provider, models, now, id);
    SettledLookup(t, client, provider, models, now, id);
    ConsistentCovers(t, client, id);
    if id in t.models && t.models[id].count == Listed(t, client, id) {
      SoleProvider(t, client, id);
    }
    EntryReplaced(Lookup(t.models, id), client, client in t.clientModels, ProviderOf(t, client), Listed(t, client, id),
                  provider, multiset(RawIds(models))[id], InfoFor(models, id), now);
  }

  /**
   * Registering a client that is already known gives the same tables as unregistering it and
   * registering it afresh, if and only if no foreign mark is forgotten or kept by the difference.
   */
  lemma ReconcileIsFreshRegistration(
    t: Tables, client: string, provider: string, models: seq<Option<ModelInfo>>, now: Time)
    requires Consistent(t)
    ensures Settled(t, client, provider, models, now)
         == Settled(Unregistered(t, client, now), client, provider, models, now)
       <==> NoForeignMarks(t, client, models)
  {
    var one := Settled(t, client, provider, models, now);
    var two := Settled(Unregistered(t, client, now), client, provider, models, now);
    forall id
      ensures Lookup(two.models, id) == Lookup(one.models, id)
         <==> NoForeignMarksOn(t, client, models, id)
    {
      EntrySame(t, client, provider, models, now, id);
    }
    SameClients(t, client, provider, models, now);
    if NoForeignMarks(t, client, models) {
      LookupExtensional(two.models, one.models);
    }
    if one == two {
      forall id ensures NoForeignMarksOn(t, client, models, id) {
        assert Lookup(two.models, id) == Lookup(one.models, id);
      }
    }
  }

  lemma SameClients(t: Tables, client: string, provider: string, models: seq<Option<ModelInfo>>, now: Time)
    ensures var one := Settled(t, client, provider, models, now);
            var two := Settled(Unregistered(t, client, now), client, provider, models, now);
            && one.clientModels == two.clientModels
            && one.clientInfos == two.clientInfos
            && one.clientProviders == two.clientProviders
  {
    assert RawIds([]) == [];
    OverwriteDropped(t.clientModels, client, RawIds(models));
    OverwriteDropped(t.clientInfos, client, FirstInfos(models));
    OverwriteDropped(t.clientProviders, client, provider);
  }

  lemma OverwriteDropped<V>(m: map<string, V>, k: string, v: V)
    ensures (m - {k})[k := v] == m[k := v]
    ensures (m - {k}) - {k} == m - {k}
  {
  }

  /** Marks that name only clients providing the model are never foreign. */
  lemma OwnedMarksAreNotForeign(t: Tables, client: string, models: seq<Option<ModelInfo>>)
    requires Consistent(t) && MarksOwned(t)
    ensures NoForeignMarks(t, client, models)
  {
    forall id ensures NoForeignMarksOn(t, client, models, id) {
      if SoleReturn(t, client, models, id) {
        forall c | HasMark(t.models[id], c) ensures c == client {
          SoleClientAlone(t, client, c, id);
        }
        assert forall c :: c in t.models[id].quotaExceeded ==> HasMark(t.models[id], c);
        assert forall c :: c in t.models[id].suspended ==> HasMark(t.models[id], c);
      }
    }
  }

  lemma TwoClients(t: Tables, client: string, other: string, id: string)
    requires other != client
    ensures Listed(t, client, id) + Listed(t, other, id) <= Total(t, id)
  {
    var shares := Shares(t, id);
    SumDrop(shares, client);
    SumBounds(shares - {client}, other);
  }

  lemma SoleClientAlone(t: Tables, client: string, other: string, id: string)
    requires Consistent(t) && id in t.models && t.models[id].count == Listed(t, client, id)
    requires Listed(t, other, id) > 0
    ensures other == client
  {
    assert Counted(t, id);
    if other != client {
      TwoClients(t, client, other, id);
    }
  }
}
