/** What each mutator does to the marks of the clients, and to nothing else. */
module RegistryMarks {
  import opened Wrappers
  import opened RegistryTables
  import opened RegistryLaws
  import opened RegistryRuns
  import Text

  /** When the client was marked as over its quota for the model, if it is. */
  function QuotaMark(t: Tables, id: string, client: string): Option<Time> {
    if id in t.models then Lookup(t.models[id].quotaExceeded, client) else None
  }

  /** Why the client is suspended for the model, if it is. */
  function SuspendedFor(t: Tables, id: string, client: string): Option<string> {
    if id in t.models then Lookup(t.models[id].suspended, client) else None
  }

  /** Every mark but the quota mark of `client` on `id` stays. */
  ghost predicate OnlyQuotaOf(t: Tables, s: Tables, id: string, client: string) {
    && (forall j, c :: j != id || c != client ==> QuotaMark(s, j, c) == QuotaMark(t, j, c))
    && (forall j, c :: SuspendedFor(s, j, c) == SuspendedFor(t, j, c))
  }

  ghost predicate OnlySuspensionOf(t: Tables, s: Tables, id: string, client: string) {
    && (forall j, c :: QuotaMark(s, j, c) == QuotaMark(t, j, c))
    && (forall j, c :: j != id || c != client ==> SuspendedFor(s, j, c) == SuspendedFor(t, j, c))
  }

  lemma SetQuotaMarks(t: Tables, client: string, id: string, now: Time)
    ensures var s := Apply(t, SetQuotaExceeded(client, id, now));
      && OnlyQuotaOf(t, s, id, client)
      && QuotaMark(s, id, client) == if id in t.models then Some(now) else None
  {
  }

  lemma ClearQuotaMarks(t: Tables, client: string, id: string)
    ensures var s := Apply(t, ClearQuotaExceeded(client, id));
      OnlyQuotaOf(t, s, id, client) && QuotaMark(s, id, client) == None
  {
  }

  /** A client suspended already keeps its reason; nameless clients and models are ignored. */
  lemma SuspendMarks(t: Tables, client: string, id: string, reason: string, now: Time)
    ensures var s := Apply(t, Suspend(client, id, reason, now));
      && OnlySuspensionOf(t, s, id, client)
      && SuspendedFor(s, id, client) ==
           if SuspendedFor(t, id, client).None? && id in t.models && client != "" && id != "" then Some(reason)
           else SuspendedFor(t, id, client)
  {
  }

  lemma ResumeMarks(t: Tables, client: string, id: string, now: Time)
    ensures var s := Apply(t, Resume(client, id, now));
      OnlySuspensionOf(t, s, id, client) && (client != "" && id != "" ==> SuspendedFor(s, id, client) == None)
  {
  }

  /** Exactly the marks of five minutes ago or more are gone. */
  ghost predicate CleanedUp(t: Tables, s: Tables, now: Time) {
    && (forall id, c :: SuspendedFor(s, id, c) == SuspendedFor(t, id, c))
    && (forall id, c :: QuotaMark(s, id, c) == var mark := QuotaMark(t, id, c);
          if mark.Some? && now - mark.value >= 5 * 60 then None else mark)
  }

  lemma CleanupMarks(t: Tables, now: Time)
    ensures CleanedUp(t, Apply(t, CleanupExpired(now)), now)
  {
  }

  // ----- registrations

  /** The first usable model supplied under an identifier. */
  ghost predicate FirstOf(models: seq<Option<ModelInfo>>, k: nat, id: string) {
    && k < |models| && models[k].Some? && models[k].value.id == id
    && forall i :: 0 <= i < k && models[i].Some? ==> models[i].value.id != id
  }

  lemma {:induction false} FirstInfosAre(models: seq<Option<ModelInfo>>, k: nat, id: string)
    requires id != "" && FirstOf(models, k, id)
    ensures id in FirstInfos(models) && FirstInfos(models)[id] == models[k].value
  {
    var front := models[..|models| - 1];
    if k < |front| {
      assert FirstOf(front, k, id);
      FirstInfosAre(front, k, id);
    } else {
      NotAmongFirst(front, id);
    }
  }

  lemma {:induction false} NotAmongFirst(models: seq<Option<ModelInfo>>, id: string)
    requires forall i :: 0 <= i < |models| && models[i].Some? ==> models[i].value.id != id
    ensures id !in FirstInfos(models) && id !in RawIds(models)
  {
    if models != [] {
      NotAmongFirst(models[..|models| - 1], id);
    }
  }

  /** A registration records, for each model, the first metadata supplied and the time. */
  lemma RegisteredInfo(
    t: Tables, client: string, provider: string, models: seq<Option<ModelInfo>>, now: Time, k: nat, id: string)
    requires Consistent(t) && id != "" && FirstOf(models, k, id)
    ensures var s := Settled(t, client, provider, models, now);
      && id in s.models && s.models[id].info == models[k].value && s.models[id].lastUpdated == now
      && (provider != "" ==> Lookup(s.models[id].infoByProvider, provider) == Some(models[k].value))
      && client in s.clientInfos && Lookup(s.clientInfos[client], id) == Some(models[k].value)
  {
    FirstInfosAre(models, k, id);
    FirstInfosOfRaw(models);
    assert multiset(RawIds(models))[id] > 0;
    ConsistentCovers(t, client, id);
    SettledLookup(t, client, provider, models, now, id);
  }

  /** A model the client listed neither before nor now keeps its entry. */
  lemma OthersUntouched(
    t: Tables, client: string, provider: string, models: seq<Option<ModelInfo>>, now: Time, id: string)
    requires Consistent(t) && Listed(t, client, id) == 0 && id !in RawIds(models)
    ensures Lookup(Settled(t, client, provider, models, now).models, id) == Lookup(t.models, id)
  {
    SettledLookup(t, client, provider, models, now, id);
  }

  /** The client's list is what was supplied, in order and with repetitions. */
  lemma {:induction false} ListedInOrder(models: seq<Option<ModelInfo>>)
    requires forall i :: 0 <= i < |models| ==> models[i].Some? && models[i].value.id != ""
    ensures |RawIds(models)| == |models| && forall i :: 0 <= i < |models| ==> RawIds(models)[i] == models[i].value.id
  {
    if models != [] {
      ListedInOrder(models[..|models| - 1]);
    }
  }

  /** How a provider's name is capitalised does not matter. */
  lemma ProviderCaseIgnored(t: Tables, client: string, p: string, q: string, models: seq<Option<ModelInfo>>, now: Time)
    requires Text.EqualFold(p, q)
    ensures Apply(t, Register(client, p, models, now)) == Apply(t, Register(client, q, models, now))
  {
  }
}
