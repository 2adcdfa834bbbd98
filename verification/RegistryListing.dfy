/** Which models a handler is shown, until when, and in what order. */
module RegistryListing {
  import opened Wrappers
  import opened RegistryTables
  import RegistryRuns
  import Text

  const WINDOW := RegistryRuns.QUOTA_WINDOW

  /** Clients whose quota mark still counts at time `at`. */
  ghost function LiveMarks(r: Registration, at: Time): set<string> {
    set c | c in r.quotaExceeded && at < r.quotaExceeded[c] + WINDOW
  }

  ghost function OtherSuspended(r: Registration): set<string> {
    set c | c in r.suspended && !Text.EqualFold(r.suspended[c], "quota")
  }

  /** Whether a registration is shown, given its client, quota and suspension counts. */
  predicate Shown(count: int, live: int, cooldown: int, other: int) {
    count - live - other > 0 || (count > 0 && (live > 0 || cooldown > 0) && other == 0)
  }

  ghost predicate Visible(r: Registration, at: Time) {
    Shown(r.count, |LiveMarks(r, at)|, |r.suspended.Keys - OtherSuspended(r)|, |OtherSuspended(r)|)
  }

  ghost function VisibleInfos(models: map<string, Registration>, at: Time): set<ModelInfo> {
    set id | id in models && Visible(models[id], at) :: models[id].info
  }

  /** The value the listing is sorted by; the "gemini" format carries no identifier. */
  function SortKey(handler: string, info: ModelInfo): string {
    if handler == "gemini" then "" else info.id
  }

  ghost predicate Sorted(handler: string, list: seq<ModelInfo>) {
    forall i, j :: 0 <= i < j < |list| ==> !Text.Less(SortKey(handler, list[j]), SortKey(handler, list[i]))
  }

  /** `list` shows every visible model exactly once, in order. */
  ghost predicate IsListing(list: seq<ModelInfo>, models: map<string, Registration>, handler: string, at: Time) {
    multiset(list) == multiset(VisibleInfos(models, at)) && Sorted(handler, list)
  }

  /** `expiry` is the earliest recovery among the marks live at `at`, if there is one. */
  ghost predicate EarliestRecovery(models: map<string, Registration>, at: Time, expiry: Option<Time>) {
    && (forall id, c :: id in models && c in LiveMarks(models[id], at) ==>
          expiry.Some? && expiry.value <= models[id].quotaExceeded[c] + WINDOW)
    && (expiry.Some? ==> expiry.value > at)
    && (expiry.Some? ==>
          exists id, c :: id in models && c in LiveMarks(models[id], at)
                          && expiry.value == models[id].quotaExceeded[c] + WINDOW)
  }

  predicate Unexpired(expiry: Option<Time>, at: Time) {
    expiry.None? || at < expiry.value
  }

  /** Up to the earliest recovery nothing changes what is visible. */
  lemma VisibleUntilRecovery(models: map<string, Registration>, from: Time, expiry: Option<Time>, at: Time)
    requires EarliestRecovery(models, from, expiry)
    requires from <= at && Unexpired(expiry, at)
    ensures VisibleInfos(models, at) == VisibleInfos(models, from)
  {
    forall id | id in models ensures Visible(models[id], at) == Visible(models[id], from) {
      assert LiveMarks(models[id], at) == LiveMarks(models[id], from);
    }
  }

  lemma ListingUntilRecovery(
    list: seq<ModelInfo>, models: map<string, Registration>, handler: string,
    from: Time, expiry: Option<Time>, at: Time)
    requires IsListing(list, models, handler, from) && EarliestRecovery(models, from, expiry)
    requires from <= at && Unexpired(expiry, at)
    ensures IsListing(list, models, handler, at)
  {
    VisibleUntilRecovery(models, from, expiry, at);
  }

  /** At the earliest recovery at least one mark stops counting. */
  lemma RecoveryChangesMarks(models: map<string, Registration>, from: Time, expiry: Option<Time>)
    requires EarliestRecovery(models, from, expiry) && expiry.Some?
    ensures exists id :: id in models && LiveMarks(models[id], expiry.value) != LiveMarks(models[id], from)
  {
    var id, c :| id in models && c in LiveMarks(models[id], from)
                 && expiry.value == models[id].quotaExceeded[c] + WINDOW;
    assert c !in LiveMarks(models[id], expiry.value);
  }

  // ----- building a listing entry by entry

  /** `after` is `before` or, if earlier, the first recovery among the marks in `marks`. */
  ghost predicate EarlierOf(r: Registration, at: Time, marks: set<string>, before: Option<Time>, after: Option<Time>) {
    && marks <= LiveMarks(r, at)
    && (forall c :: c in marks ==> after.Some? && after.value <= r.quotaExceeded[c] + WINDOW)
    && (before.Some? ==> after.Some? && after.value <= before.value)
    && (after == before || (after.Some? && exists c :: c in marks && after.value == r.quotaExceeded[c] + WINDOW))
  }

  ghost predicate Earlier(r: Registration, at: Time, before: Option<Time>, after: Option<Time>) {
    EarlierOf(r, at, LiveMarks(r, at), before, after)
  }

  lemma EarlierStep(
    r: Registration, at: Time, marks: set<string>, before: Option<Time>, after: Option<Time>, c: string)
    requires EarlierOf(r, at, marks, before, after) && c in LiveMarks(r, at)
    ensures var recovery := r.quotaExceeded[c] + WINDOW;
            EarlierOf(r, at, marks + {c}, before,
                      if after.None? || recovery < after.value then Some(recovery) else after)
  {
  }

  lemma EarliestExtends(
    seen: map<string, Registration>, id: string, r: Registration, at: Time, before: Option<Time>, after: Option<Time>)
    requires id !in seen && EarliestRecovery(seen, at, before) && Earlier(r, at, before, after)
    ensures EarliestRecovery(seen[id := r], at, after)
  {
    var all := seen[id := r];
    forall j, c | j in all && c in LiveMarks(all[j], at)
      ensures after.Some? && after.value <= all[j].quotaExceeded[c] + WINDOW
    {
      if j != id {
        assert j in seen && c in LiveMarks(seen[j], at);
      }
    }
    if after.Some? {
      if after == before {
        var j, c :| j in seen && c in LiveMarks(seen[j], at) && before.value == seen[j].quotaExceeded[c] + WINDOW;
        assert all[j] == seen[j];
      } else {
        var c :| c in LiveMarks(r, at) && after.value == r.quotaExceeded[c] + WINDOW;
        assert all[id] == r;
      }
    }
  }

  /** The listed infos, as a multiset, after one more entry. */
  lemma OneMoreVisible(seen: map<string, Registration>, id: string, r: Registration, at: Time)
    requires id !in seen && KeysMatch(seen) && r.info.id == id
    ensures multiset(VisibleInfos(seen[id := r], at))
         == multiset(VisibleInfos(seen, at)) + (if Visible(r, at) then multiset{r.info} else multiset{})
  {
    var all := seen[id := r];
    VisibleGrows(seen, all, at);
    forall x | x in VisibleInfos(all, at)
      ensures x in VisibleInfos(seen, at) || (x == r.info && Visible(r, at))
    {
      VisibleSource(seen, id, r, at, x);
    }
    if Visible(r, at) {
      assert all[id] == r;
      assert r.info in VisibleInfos(all, at);
      assert VisibleInfos(all, at) == VisibleInfos(seen, at) + {r.info};
    } else {
      assert VisibleInfos(all, at) == VisibleInfos(seen, at);
    }
  }

  lemma VisibleSource(seen: map<string, Registration>, id: string, r: Registration, at: Time, x: ModelInfo)
    requires x in VisibleInfos(seen[id := r], at)
    ensures x in VisibleInfos(seen, at) || (x == r.info && Visible(r, at))
  {
    var all := seen[id := r];
    var j :| j in all && Visible(all[j], at) && all[j].info == x;
    if j != id {
      assert all[j] == seen[j];
    }
  }

  lemma VisibleGrows(a: map<string, Registration>, b: map<string, Registration>, at: Time)
    requires forall j :: j in a ==> j in b && b[j] == a[j]
    ensures VisibleInfos(a, at) <= VisibleInfos(b, at)
  {
    forall x | x in VisibleInfos(a, at) ensures x in VisibleInfos(b, at) {
      var j :| j in a && Visible(a[j], at) && a[j].info == x;
      assert b[j] == a[j];
    }
  }

  lemma ConsistentKeys(t: Tables)
    requires Consistent(t)
    ensures KeysMatch(t.models)
  {
    forall id | id in t.models ensures t.models[id].info.id == id {
      assert Counted(t, id);
    }
  }

  // ----- sorting

  function Insert(handler: string, info: ModelInfo, list: seq<ModelInfo>): seq<ModelInfo> {
    if list == [] || !Text.Less(SortKey(handler, list[0]), SortKey(handler, info)) then [info] + list
    else [list[0]] + Insert(handler, info, list[1..])
  }

  lemma {:induction false} InsertKeeps(handler: string, info: ModelInfo, list: seq<ModelInfo>)
    ensures multiset(Insert(handler, info, list)) == multiset(list) + multiset{info}
  {
    if !(list == [] || !Text.Less(SortKey(handler, list[0]), SortKey(handler, info))) {
      assert list == [list[0]] + list[1..];
      InsertKeeps(handler, info, list[1..]);
    }
  }

  lemma PrependSorted(handler: string, head: ModelInfo, tail: seq<ModelInfo>)
    requires Sorted(handler, tail)
    requires forall x :: x in multiset(tail) ==> !Text.Less(SortKey(handler, x), SortKey(handler, head))
    ensures Sorted(handler, [head] + tail)
  {
    forall j | 0 <= j < |tail| ensures !Text.Less(SortKey(handler, tail[j]), SortKey(handler, head)) {
      assert tail[j] in multiset(tail);
    }
  }

  lemma {:induction false} InsertSorts(handler: string, info: ModelInfo, list: seq<ModelInfo>)
    requires Sorted(handler, list)
    ensures Sorted(handler, Insert(handler, info, list))
    ensures multiset(Insert(handler, info, list)) == multiset(list) + multiset{info}
  {
    InsertKeeps(handler, info, list);
    if list == [] {
    } else if !Text.Less(SortKey(handler, list[0]), SortKey(handler, info)) {
      forall x | x in multiset(list) ensures !Text.Less(SortKey(handler, x), SortKey(handler, info)) {
        var j :| 0 <= j < |list| && list[j] == x;
        NotLessTransitive(SortKey(handler, x), SortKey(handler, list[0]), SortKey(handler, info));
      }
      PrependSorted(handler, info, list);
    } else {
      InsertSorts(handler, info, list[1..]);
      Text.LessAsymmetric(SortKey(handler, list[0]), SortKey(handler, info));
      var tail := Insert(handler, info, list[1..]);
      forall x | x in multiset(tail) ensures !Text.Less(SortKey(handler, x), SortKey(handler, list[0])) {
        if x != info {
          var j :| 0 <= j < |list[1..]| && list[1..][j] == x;
          assert list[j + 1] == x;
        }
      }
      PrependSorted(handler, list[0], tail);
    }
  }

  lemma NotLessTransitive(a: string, b: string, c: string)
    requires (a == b || !Text.Less(a, b)) && !Text.Less(b, c)
    ensures !Text.Less(a, c)
  {
    if Text.Less(a, c) {
      Text.LessTotal(a, b);
      if a != b {
        Text.LessTransitive(b, a, c);
      }
    }
  }

  /** The entries with one key, in order. */
  function WithKey(handler: string, key: string, list: seq<ModelInfo>): seq<ModelInfo> {
    if list == [] then []
    else if SortKey(handler, list[0]) == key then [list[0]] + WithKey(handler, key, list[1..])
    else WithKey(handler, key, list[1..])
  }

  /** An entry is inserted in front of those with its own key, and moves no others. */
  lemma {:induction false} InsertStable(handler: string, info: ModelInfo, list: seq<ModelInfo>, key: string)
    ensures WithKey(handler, key, Insert(handler, info, list))
         == (if SortKey(handler, info) == key then [info] else []) + WithKey(handler, key, list)
  {
    var out := Insert(handler, info, list);
    if list == [] || !Text.Less(SortKey(handler, list[0]), SortKey(handler, info)) {
      assert out[1..] == list;
    } else {
      assert out[1..] == Insert(handler, info, list[1..]);
      InsertStable(handler, info, list[1..], key);
      if SortKey(handler, list[0]) == SortKey(handler, info) {
        Text.LessAsymmetric(SortKey(handler, list[0]), SortKey(handler, info));
      }
    }
  }

  /** A stable sort by key: equal keys keep their order. */
  method SortByKey(handler: string, list: seq<ModelInfo>) returns (out: seq<ModelInfo>)
    ensures multiset(out) == multiset(list) && Sorted(handler, out)
    ensures forall key :: WithKey(handler, key, out) == WithKey(handler, key, list)
  {
    out := [];
    for i := |list| downto 0
      invariant Sorted(handler, out)
      invariant multiset(out) == multiset(list[i..])
      invariant forall key :: WithKey(handler, key, out) == WithKey(handler, key, list[i..])
    {
      assert list[i..] == [list[i]] + list[i + 1..];
      forall key
        ensures WithKey(handler, key, Insert(handler, list[i], out)) == WithKey(handler, key, list[i..])
      {
        InsertStable(handler, list[i], out, key);
        assert list[i..][1..] == list[i + 1..];
      }
      InsertSorts(handler, list[i], out);
      out := Insert(handler, list[i], out);
    }
    assert list[0..] == list;
  }

  // ----- the answer is determined

  ghost predicate KeysMatch(models: map<string, Registration>) {
    forall id :: id in models ==> models[id].info.id == id
  }

  /** Except for "gemini", the listing of a state at a time is one definite sequence. */
  lemma ListingUnique(
    a: seq<ModelInfo>, b: seq<ModelInfo>, models: map<string, Registration>, handler: string, at: Time)
    requires KeysMatch(models) && handler != "gemini"
    requires IsListing(a, models, handler, at) && IsListing(b, models, handler, at)
    ensures a == b
  {
    forall i, j | 0 <= i < |a| && 0 <= j < |a| && a[i].id == a[j].id ensures a[i] == a[j] {
      assert a[i] in multiset(a) && a[j] in multiset(a);
      assert a[i] in VisibleInfos(models, at) && a[j] in VisibleInfos(models, at);
    }
    SortedUnique(handler, a, b);
  }

  ghost predicate IdsDistinct(a: seq<ModelInfo>) {
    forall i, j :: 0 <= i < |a| && 0 <= j < |a| && a[i].id == a[j].id ==> a[i] == a[j]
  }

  lemma {:induction false} SortedUnique(handler: string, a: seq<ModelInfo>, b: seq<ModelInfo>)
    requires handler != "gemini" && Sorted(handler, a) && Sorted(handler, b) && multiset(a) == multiset(b)
    requires IdsDistinct(a)
    ensures a == b
  {
    if a != [] && b != [] {
      SameHead(handler, a, b);
      TailMultiset(a);
      TailMultiset(b);
      SortedUnique(handler, a[1..], b[1..]);
      assert a == [a[0]] + a[1..] && b == [b[0]] + b[1..];
    } else {
      assert |multiset(a)| == |a| && |multiset(b)| == |b|;
    }
  }

  lemma TailMultiset(a: seq<ModelInfo>)
    requires a != []
    ensures multiset(a[1..]) == multiset(a) - multiset{a[0]}
  {
    assert a == [a[0]] + a[1..];
  }

  lemma SameHead(handler: string, a: seq<ModelInfo>, b: seq<ModelInfo>)
    requires a != [] && b != [] && handler != "gemini" && multiset(a) == multiset(b)
    requires Sorted(handler, a) && Sorted(handler, b) && IdsDistinct(a)
    ensures a[0] == b[0]
  {
    HeadLeast(handler, a, b);
    HeadLeast(handler, b, a);
    Text.LessTotal(a[0].id, b[0].id);
    assert b[0] in multiset(b);
    assert exists k :: 0 <= k < |a| && a[k] == b[0];
  }

  lemma HeadLeast(handler: string, a: seq<ModelInfo>, b: seq<ModelInfo>)
    requires a != [] && b != [] && handler != "gemini" && Sorted(handler, a) && multiset(a) == multiset(b)
    ensures a[0].id == b[0].id || !Text.Less(b[0].id, a[0].id)
  {
    assert b[0] in multiset(b);
    var k :| 0 <= k < |a| && a[k] == b[0];
    assert k > 0 ==> !Text.Less(SortKey(handler, a[k]), SortKey(handler, a[0]));
  }
}
