/** Listing a store: from the shards it holds to the pages it shows. */
module LogListing {
  import opened Wrappers
  import opened Decimal
  import opened LogLines
  import opened LogPages
  import opened LogShards
  import Text

  /** What a line of a file is summarised to, if it is an entry. */
  type Parse = (string, string) -> Option<Summary>

  const NO_FILTER := Query("", "", "", "", None, None, None, None)

  function Parsed(file: string, payloads: seq<string>, parse: Parse): seq<Summary> {
    if payloads == [] then []
    else
      var last := parse(file, payloads[|payloads| - 1]);
      Parsed(file, payloads[..|payloads| - 1], parse) + if last.Some? then [last.value] else []
  }

  function Unparsed(file: string, payloads: seq<string>, parse: Parse): nat {
    if payloads == [] then 0
    else
      Unparsed(file, payloads[..|payloads| - 1], parse) + if parse(file, payloads[|payloads| - 1]).Some? then 0 else 1
  }

  ghost predicate Listed(names: seq<string>, log: Log) {
    forall i :: 0 <= i < |names| ==> names[i] in log
  }

  ghost function ShardsOf(names: seq<string>, log: Log, parse: Parse): seq<seq<Summary>>
    requires Listed(names, log)
  {
    seq(|names|, i requires 0 <= i < |names| => Parsed(names[i], log[names[i]], parse))
  }

  ghost function MalformedOf(names: seq<string>, log: Log, parse: Parse): seq<nat>
    requires Listed(names, log)
  {
    seq(|names|, i requires 0 <= i < |names| => Unparsed(names[i], log[names[i]], parse))
  }

  ghost predicate NewestFirst(names: seq<string>) {
    forall i, j :: 0 <= i < j < |names| ==> Text.Less(names[j], names[i])
  }

  // ----- the files

  method InsertFile(name: string, names: seq<string>) returns (out: seq<string>)
    requires NewestFirst(names) && name !in names
    ensures NewestFirst(out) && forall n :: n in out <==> n == name || n in names
  {
    var k := 0;
    while k < |names| && Text.Less(name, names[k])
      invariant 0 <= k <= |names|
      invariant forall i :: 0 <= i < k ==> Text.Less(name, names[i])
    {
      k := k + 1;
    }
    forall j | k <= j < |names| ensures Text.Less(names[j], name) {
      Text.LessTotal(names[k], name);
      if j > k {
        Text.LessTransitive(names[j], names[k], name);
      }
    }
    out := names[..k] + [name] + names[k..];
  }

  /** The shards by name, the last one first. */
  method Files(dir: Directory) returns (names: seq<string>)
    ensures Enumerates(dir, names) && NewestFirst(names)
  {
    names := [];
    var todo := dir.Keys;
    while todo != {}
      invariant todo <= dir.Keys
      invariant forall name :: name in names <==> name in dir && name !in todo
      invariant NewestFirst(names)
      decreases todo
    {
      var name :| name in todo;
      todo := todo - {name};
      names := InsertFile(name, names);
    }
    NewestDistinct(names);
  }

  lemma NewestDistinct(names: seq<string>)
    requires NewestFirst(names)
    ensures Distinct(names)
  {
    forall i, j | 0 <= i < j < |names| ensures names[i] != names[j] {
      assert Text.Less(names[j], names[i]);
      if names[i] == names[j] {
        Text.LessAsymmetric(names[i], names[j]);
      }
    }
  }

  // ----- reading and listing

  /** The entries of one shard: the payloads written to it, summarised. */
  method ReadSummaries(store: Store, file: string, parts: seq<Part>, parse: Parse)
    returns (summaries: seq<Summary>, malformed: nat)
    requires store.Valid() && file in store.dir && Chunks(parts) && Joined(parts) == store.dir[file].content
    ensures summaries == Parsed(file, store.log[file], parse) && malformed == Unparsed(file, store.log[file], parse)
  {
    var lines, oversized := store.ReadShard(file, parts);
    summaries, malformed := [], oversized;
    for i := 0 to |lines|
      invariant summaries == Parsed(file, lines[..i], parse) && malformed == Unparsed(file, lines[..i], parse)
    {
      assert lines[..i + 1][..i] == lines[..i];
      var entry := parse(file, lines[i]);
      if entry.Some? {
        summaries := summaries + [entry.value];
      } else {
        malformed := malformed + 1;
      }
    }
    assert lines[..|lines|] == lines;
  }

  /** Each shard of the store, as its reader's buffer cuts it. */
  ghost predicate Cuts(views: map<string, seq<Part>>, dir: Directory) {
    forall name :: name in dir ==> name in views && Chunks(views[name]) && Joined(views[name]) == dir[name].content
  }

  /** The first shards, read. */
  ghost predicate ReadUpTo(
    shards: seq<seq<Summary>>, malformed: seq<nat>, names: seq<string>, log: Log, parse: Parse)
  {
    && |shards| == |malformed| <= |names|
    && forall k :: 0 <= k < |shards| ==>
         && names[k] in log
         && shards[k] == Parsed(names[k], log[names[k]], parse)
         && malformed[k] == Unparsed(names[k], log[names[k]], parse)
  }

  lemma ReadFully(shards: seq<seq<Summary>>, malformed: seq<nat>, names: seq<string>, log: Log, parse: Parse)
    requires ReadUpTo(shards, malformed, names, log, parse) && |shards| == |names|
    ensures Listed(names, log)
    ensures shards == ShardsOf(names, log, parse) && malformed == MalformedOf(names, log, parse)
  {
  }

  method ReadNext(
    store: Store, name: string, views: map<string, seq<Part>>, parse: Parse,
    ghost names: seq<string>, shards: seq<seq<Summary>>, malformed: seq<nat>)
    returns (shards': seq<seq<Summary>>, malformed': seq<nat>)
    requires store.Valid() && name in store.dir && Cuts(views, store.dir)
    requires |shards| < |names| && names[|shards|] == name && ReadUpTo(shards, malformed, names, store.log, parse)
    ensures ReadUpTo(shards', malformed', names, store.log, parse) && |shards'| == |shards| + 1
  {
    var summaries, bad := ReadSummaries(store, name, views[name], parse);
    shards', malformed' := shards + [summaries], malformed + [bad];
  }

  method ReadAll(store: Store, names: seq<string>, views: map<string, seq<Part>>, parse: Parse)
    returns (shards: seq<seq<Summary>>, malformed: seq<nat>)
    requires store.Valid() && Enumerates(store.dir, names) && Cuts(views, store.dir)
    ensures Listed(names, store.log)
    ensures shards == ShardsOf(names, store.log, parse) && malformed == MalformedOf(names, store.log, parse)
  {
    shards, malformed := [], [];
    for i := 0 to |names|
      invariant |shards| == i && ReadUpTo(shards, malformed, names, store.log, parse)
    {
      assert names[i] in names;
      shards, malformed := ReadNext(store, names[i], views, parse, names, shards, malformed);
    }
    ReadFully(shards, malformed, names, store.log, parse);
  }

  /** A page of a store: of the payloads written to the shards it still holds, the last ones first. */
  method ListStore(store: Store, views: map<string, seq<Part>>, parse: Parse, q: Query, limit: int, cursor: string)
    returns (r: Option<ListResult>, ghost names: seq<string>)
    requires store.Valid() && Cuts(views, store.dir)
    ensures Enumerates(store.dir, names) && NewestFirst(names) && Listed(names, store.log)
    ensures !store.enabled ==> r == Some(ListResult([], "", 0))
    ensures store.enabled && ParseCursor(cursor).None? ==> r.None?
    ensures r.Some? ==> AllMeet(r.value.entries, q)
    ensures store.enabled && ParseCursor(cursor).Some? ==>
      var flat := Flat(ShardsOf(names, store.log, parse));
      var page := Scan(flat, Filter(q), ParseCursor(cursor).value, NormalizeLimit(limit));
      && r.Some? && r.value.entries == page.entries && r.value.nextCursor == NextCursor(page.next)
      && (AllParse(names, store.log, parse) ==> r.value.malformed == 0)
  {
    var files := Files(store.dir);
    names := files;
    var shards, malformed := ReadAll(store, files, views, parse);
    r := List(store.enabled, shards, malformed, q, limit, cursor);
    if AllParse(names, store.log, parse) {
      NoneMalformed(names, store.log, parse);
      forall f: nat, at: nat | f <= |shards| ensures MalformedTo(shards, malformed, f, at) == 0 {
        NoMalformed(shards, malformed, f, at);
      }
    }
  }

  // ----- what is shown

  /** Every payload that was written is an entry. */
  ghost predicate AllParse(names: seq<string>, log: Log, parse: Parse)
    requires Listed(names, log)
  {
    forall i :: 0 <= i < |names| ==> AllEntries(names[i], log[names[i]], parse)
  }

  ghost predicate AllEntries(file: string, payloads: seq<string>, parse: Parse) {
    forall k :: 0 <= k < |payloads| ==> parse(file, payloads[k]).Some?
  }

  lemma {:induction false} ParsedAt(file: string, payloads: seq<string>, parse: Parse)
    requires AllEntries(file, payloads, parse)
    ensures Unparsed(file, payloads, parse) == 0 && |Parsed(file, payloads, parse)| == |payloads|
    ensures forall k :: 0 <= k < |payloads| ==> Some(Parsed(file, payloads, parse)[k]) == parse(file, payloads[k])
  {
    if payloads != [] {
      var front := payloads[..|payloads| - 1];
      ParsedAt(file, front, parse);
      forall k | 0 <= k < |front| ensures Some(Parsed(file, payloads, parse)[k]) == parse(file, payloads[k]) {
        assert front[k] == payloads[k];
      }
    }
  }

  lemma NoneMalformed(names: seq<string>, log: Log, parse: Parse)
    requires Listed(names, log) && AllParse(names, log, parse)
    ensures forall k :: 0 <= k < |names| ==> MalformedOf(names, log, parse)[k] == 0
  {
    forall k | 0 <= k < |names| ensures MalformedOf(names, log, parse)[k] == 0 {
      ParsedAt(names[k], log[names[k]], parse);
    }
  }

  lemma {:induction false} NoMalformed(shards: seq<seq<Summary>>, malformed: seq<nat>, f: nat, at: nat)
    requires f <= |shards| == |malformed| && forall k :: 0 <= k < |malformed| ==> malformed[k] == 0
    ensures MalformedTo(shards, malformed, f, at) == 0
  {
    if f > 0 {
      NoMalformed(shards, malformed, f - 1, at);
    }
  }

  lemma NoFilterMatches(s: Summary)
    ensures Matches(s, NO_FILTER)
  {
  }

  lemma {:induction false} NothingFilteredOut(flat: seq<Summary>, hit: Summary -> bool, from: nat)
    requires from <= |flat| && forall s :: hit(s)
    ensures Filtered(flat, hit, from) == flat[from..]
    decreases |flat| - from
  {
    if from < |flat| {
      NothingFilteredOut(flat, hit, from + 1);
    }
  }

  /** Following the pages without filters, whatever the limits, shows the whole list. */
  lemma AllShown(flat: seq<Summary>, limits: nat -> int)
    requires |flat| <= MAX_INT
    ensures Follow(flat, Filter(NO_FILTER), "", limits, 0) == flat
  {
    FirstPageFollows(flat, Filter(NO_FILTER), limits);
    forall s ensures Filter(NO_FILTER)(s) {
      NoFilterMatches(s);
    }
    NothingFilteredOut(flat, Filter(NO_FILTER), 0);
  }

  /** The list starts with the last shard by name, and each shard with its last payload. */
  lemma PayloadListed(
    shards: seq<seq<Summary>>, flat: seq<Summary>, file: string, payloads: seq<string>, parse: Parse,
    f: nat, k: nat, at: int)
    requires flat == Flat(shards) && f < |shards| && shards[f] == Parsed(file, payloads, parse)
    requires AllEntries(file, payloads, parse) && k < |payloads| && at == |Flat(shards[..f])| + |payloads| - 1 - k
    ensures 0 <= at < |flat| && Some(flat[at]) == parse(file, payloads[k])
  {
    FlatSlice(shards, f);
    ParsedAt(file, payloads, parse);
    ShownAt(flat, |Flat(shards[..f])|, shards[f], k);
  }

  lemma ShardIs(names: seq<string>, log: Log, parse: Parse, shards: seq<seq<Summary>>, f: nat)
    requires Listed(names, log) && AllParse(names, log, parse) && shards == ShardsOf(names, log, parse) && f < |names|
    ensures f < |shards| && shards[f] == Parsed(names[f], log[names[f]], parse)
    ensures AllEntries(names[f], log[names[f]], parse)
  {
  }

  /**
   * So a listing of a store without filters shows the summaries of exactly the payloads logged for its
   * shards: shard by shard from the last name, each from its last payload.
   */
  lemma EverythingListed(
    names: seq<string>, log: Log, parse: Parse, shards: seq<seq<Summary>>, flat: seq<Summary>, limits: nat -> int,
    f: nat, k: nat, at: int)
    requires Listed(names, log) && AllParse(names, log, parse) && shards == ShardsOf(names, log, parse)
    requires flat == Flat(shards) && |flat| <= MAX_INT && f < |names| && k < |log[names[f]]|
    requires at == |Flat(shards[..f])| + |log[names[f]]| - 1 - k
    ensures Follow(flat, Filter(NO_FILTER), "", limits, 0) == flat
    ensures 0 <= at < |flat| && Some(flat[at]) == parse(names[f], log[names[f]][k])
  {
    AllShown(flat, limits);
    ShardIs(names, log, parse, shards, f);
    PayloadListed(shards, flat, names[f], log[names[f]], parse, f, k, at);
  }

  lemma ShownAt(flat: seq<Summary>, start: nat, shard: seq<Summary>, k: nat)
    requires start + |shard| <= |flat| && flat[start..start + |shard|] == Reverse(shard) && k < |shard|
    ensures flat[start + |shard| - 1 - k] == shard[k]
  {
    assert flat[start..start + |shard|][|shard| - 1 - k] == Reverse(shard)[|shard| - 1 - k];
  }
}
