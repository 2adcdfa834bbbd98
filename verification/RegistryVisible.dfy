/** Which models a listing shows, said of clients: who is exhausted, who is suspended, and who is left. */
module RegistryVisible {
  import opened RegistryTables
  import opened RegistryRuns
  import opened RegistryListing
  import opened RegistryCache
  import Text

  /** Clients marked within the last five minutes. */
  ghost function Exhausted(r: Registration, at: Time): set<string> {
    set c | c in r.quotaExceeded && at - r.quotaExceeded[c] < 5 * 60
  }

  /** Clients suspended for a reason other than their quota, in whatever case that is written. */
  ghost function Blocked(r: Registration): set<string> {
    set c | c in r.suspended && Text.ToLower(r.suspended[c]) != "quota"
  }

  /** No client is blocked, or some registration is left beside the exhausted and the blocked ones. */
  ghost predicate Available(r: Registration, at: Time) {
    Blocked(r) == {} || |Exhausted(r, at)| + |Blocked(r)| < r.count
  }

  lemma SameClients(r: Registration, at: Time)
    ensures LiveMarks(r, at) == Exhausted(r, at) && OtherSuspended(r) == Blocked(r)
  {
    assert Text.ToLower("quota") == "quota";
  }

  /** An entry with a registration is shown exactly if it is available. */
  lemma VisibleIff(r: Registration, at: Time)
    requires r.count > 0
    ensures Visible(r, at) <==> Available(r, at)
  {
    SameClients(r, at);
    if LiveMarks(r, at) == {} && OtherSuspended(r) == {} {
      assert |LiveMarks(r, at)| == 0;
    }
  }

  /** The list shows exactly the available models, each once and with its own metadata. */
  ghost predicate ShowsAvailable(list: seq<ModelInfo>, models: map<string, Registration>, at: Time) {
    && (forall id :: id in models ==> (models[id].info in list <==> Available(models[id], at)))
    && (forall i :: 0 <= i < |list| ==> list[i].id in models && list[i] == models[list[i].id].info)
    && (forall i, j :: 0 <= i < j < |list| ==> list[i] != list[j])
  }

  ghost predicate AllRegistered(models: map<string, Registration>) {
    forall id :: id in models ==> models[id].count > 0
  }

  lemma ConsistentRegistered(t: Tables)
    requires Consistent(t)
    ensures AllRegistered(t.models)
  {
    forall id | id in t.models ensures t.models[id].count > 0 {
      assert Counted(t, id);
    }
  }

  lemma InVisible(models: map<string, Registration>, id: string, at: Time)
    requires KeysMatch(models) && id in models
    ensures models[id].info in VisibleInfos(models, at) <==> Visible(models[id], at)
  {
    if models[id].info in VisibleInfos(models, at) {
      var j :| j in models && Visible(models[j], at) && models[j].info == models[id].info;
      assert j == models[j].info.id == models[id].info.id == id;
    }
  }

  lemma NoRepeat(list: seq<ModelInfo>, infos: set<ModelInfo>)
    requires multiset(list) == multiset(infos)
    ensures forall i, j :: 0 <= i < j < |list| ==> list[i] != list[j]
  {
    forall i, j | 0 <= i < j < |list| ensures list[i] != list[j] {
      assert list == list[..j] + list[j..] && list[i] == list[..j][i] && list[j] == list[j..][0];
      assert multiset(list[..j])[list[i]] + multiset(list[j..])[list[i]] == multiset(infos)[list[i]] <= 1;
      assert list[i] in multiset(list[..j]) && list[j] in multiset(list[j..]);
    }
  }

  lemma ListingShows(list: seq<ModelInfo>, models: map<string, Registration>, handler: string, at: Time)
    requires IsListing(list, models, handler, at) && KeysMatch(models) && AllRegistered(models)
    ensures ShowsAvailable(list, models, at)
  {
    var infos := VisibleInfos(models, at);
    NoRepeat(list, infos);
    forall id | id in models ensures models[id].info in list <==> Available(models[id], at) {
      InVisible(models, id, at);
      VisibleIff(models[id], at);
      assert models[id].info in list <==> models[id].info in multiset(list);
    }
    forall i | 0 <= i < |list| ensures list[i].id in models && list[i] == models[list[i].id].info {
      assert list[i] in multiset(list);
      var id :| id in models && Visible(models[id], at) && models[id].info == list[i];
    }
  }

  lemma CurrentShows(t: Tables, list: seq<ModelInfo>, handler: string, at: Time)
    requires Consistent(t) && IsListing(list, t.models, handler, at)
    ensures ShowsAvailable(list, t.models, at)
  {
    ConsistentKeys(t);
    ConsistentRegistered(t);
    ListingShows(list, t.models, handler, at);
  }

  /** In every run each answer shows exactly the models available at the time of the question. */
  lemma EveryAnswerShowsAvailable(states: seq<System>, acts: seq<Act>, i: nat)
    requires IsRun(states, acts) && ClockForward(acts) && i < |acts| && acts[i].Ask?
    ensures ShowsAvailable(acts[i].answer, states[i].tables.models, acts[i].now)
  {
    EveryAnswerCurrent(states, acts, i);
    RunConsistent(states, acts, i);
    CurrentShows(states[i].tables, acts[i].answer, acts[i].handler, acts[i].now);
  }
}
