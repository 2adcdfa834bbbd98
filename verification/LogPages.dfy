/** Listing the conversation log page by page, newest first, under filters. */
module LogPages {
  import opened Wrappers
  import opened Decimal
  import Text

  const DEFAULT_LIST_LIMIT: nat := 100
  const MAX_LIST_LIMIT: nat := 500

  datatype Summary = Summary(
    id: string, requestID: string, provider: string, model: string, path: string,
    statusCode: int, hasError: bool, createdAt: int)

  datatype Query = Query(
    requestID: string, provider: string, model: string, path: string,
    statusCode: Option<int>, hasError: Option<bool>, from: Option<int>, to: Option<int>)

  predicate OccursAt(s: string, part: string, i: nat) {
    i + |part| <= |s| && s[i..i + |part|] == part
  }

  predicate Contains(s: string, part: string) {
    exists i: nat | i <= |s| :: OccursAt(s, part, i)
  }

  predicate ContainsFold(value: string, filter: string) {
    var f := Text.TrimSpace(filter);
    f == "" || Contains(Text.ToLower(value), Text.ToLower(f))
  }

  predicate Matches(s: Summary, q: Query) {
    && ContainsFold(s.requestID, q.requestID)
    && ContainsFold(s.provider, q.provider)
    && ContainsFold(s.model, q.model)
    && ContainsFold(s.path, q.path)
    && (q.statusCode.None? || s.statusCode == q.statusCode.value)
    && (q.hasError.None? || s.hasError == q.hasError.value)
    && (q.from.None? || s.createdAt >= q.from.value)
    && (q.to.None? || s.createdAt <= q.to.value)
  }

  function Filter(q: Query): Summary -> bool {
    s => Matches(s, q)
  }

  // ----- what a filter asks for

  /** Some part of `value` is the trimmed filter, but for the case of letters. */
  ghost predicate FoundAt(value: string, filter: string, i: nat) {
    var f := Text.TrimSpace(filter);
    i + |f| <= |value| && Text.EqualFold(value[i..i + |f|], f)
  }

  ghost predicate FoundIn(value: string, filter: string) {
    exists i: nat :: FoundAt(value, filter, i)
  }

  /** The summary has every text asked for, the status and outcome asked for, and a time within the bounds. */
  ghost predicate Meets(s: Summary, q: Query) {
    && FoundIn(s.requestID, q.requestID) && FoundIn(s.provider, q.provider)
    && FoundIn(s.model, q.model) && FoundIn(s.path, q.path)
    && q.statusCode in {None, Some(s.statusCode)} && q.hasError in {None, Some(s.hasError)}
    && !(q.from.Some? && s.createdAt < q.from.value) && !(q.to.Some? && q.to.value < s.createdAt)
  }

  lemma LowerSlice(s: string, i: nat, j: nat)
    requires i <= j <= |s|
    ensures Text.ToLower(s)[i..j] == Text.ToLower(s[i..j])
  {
    forall k | 0 <= k < j - i ensures Text.ToLower(s)[i..j][k] == Text.ToLower(s[i..j])[k] {
      assert s[i..j][k] == s[i + k];
    }
  }

  lemma FoundIff(value: string, filter: string)
    ensures ContainsFold(value, filter) <==> FoundIn(value, filter)
  {
    var f := Text.TrimSpace(filter);
    var low, part := Text.ToLower(value), Text.ToLower(f);
    assert f == "" ==> FoundAt(value, filter, 0);
    forall i: nat | i + |f| <= |value| ensures OccursAt(low, part, i) <==> FoundAt(value, filter, i) {
      LowerSlice(value, i, i + |f|);
    }
    if FoundIn(value, filter) {
      var i: nat :| FoundAt(value, filter, i);
      assert i <= |low| && OccursAt(low, part, i);
    }
  }

  lemma MeetsIff(s: Summary, q: Query)
    ensures Matches(s, q) <==> Meets(s, q)
  {
    FoundIff(s.requestID, q.requestID);
    FoundIff(s.provider, q.provider);
    FoundIff(s.model, q.model);
    FoundIff(s.path, q.path);
  }

  // ----- the whole list

  function Reverse(s: seq<Summary>): (r: seq<Summary>)
    ensures |r| == |s|
    ensures forall i :: 0 <= i < |r| ==> r[i] == s[|s| - 1 - i]
  {
    if s == [] then [] else [s[|s| - 1]] + Reverse(s[..|s| - 1])
  }

  /** All summaries newest first: the newest shard first, each from its end. */
  function Flat(shards: seq<seq<Summary>>): seq<Summary> {
    if shards == [] then [] else Flat(shards[..|shards| - 1]) + Reverse(shards[|shards| - 1])
  }

  /** The matching summaries from position `from` on. */
  function Filtered(flat: seq<Summary>, hit: Summary -> bool, from: nat): seq<Summary>
    requires from <= |flat|
    decreases |flat| - from
  {
    if from == |flat| then []
    else (if hit(flat[from]) then [flat[from]] else []) + Filtered(flat, hit, from + 1)
  }

  // ----- one page

  datatype Page = Page(entries: seq<Summary>, next: Option<nat>)

  /** Up to `room` matches from `from` on, and the position of the match after them. */
  function Scan(flat: seq<Summary>, hit: Summary -> bool, from: nat, room: nat): Page
    decreases |flat| - from
  {
    if from >= |flat| then Page([], None)
    else if !hit(flat[from]) then Scan(flat, hit, from + 1, room)
    else if room == 0 then Page([], Some(from))
    else
      var rest := Scan(flat, hit, from + 1, room - 1);
      Page([flat[from]] + rest.entries, rest.next)
  }

  /** A page and the rest after its cursor are what was left before, and the cursor moves on. */
  ghost predicate Exact(p: Page, flat: seq<Summary>, hit: Summary -> bool, from: nat, room: nat)
    requires from <= |flat|
  {
    match p.next
    case None => |p.entries| <= room && p.entries == Filtered(flat, hit, from)
    case Some(j) =>
      && from <= j < |flat| && (room > 0 ==> from < j)
      && |p.entries| == room
      && p.entries + Filtered(flat, hit, j) == Filtered(flat, hit, from)
  }

  lemma {:induction false} ScanExact(flat: seq<Summary>, hit: Summary -> bool, from: nat, room: nat)
    requires from <= |flat|
    ensures Exact(Scan(flat, hit, from, room), flat, hit, from, room)
    decreases |flat| - from
  {
    if from < |flat| {
      if !hit(flat[from]) {
        ScanExact(flat, hit, from + 1, room);
        assert [] + Filtered(flat, hit, from + 1) == Filtered(flat, hit, from + 1);
      } else if room > 0 {
        ScanExact(flat, hit, from + 1, room - 1);
        TakeExact(Scan(flat, hit, from + 1, room - 1), flat, hit, from, room);
      } else {
        assert [] + Filtered(flat, hit, from) == Filtered(flat, hit, from);
      }
    }
  }

  lemma TakeExact(rest: Page, flat: seq<Summary>, hit: Summary -> bool, from: nat, room: nat)
    requires from < |flat| && hit(flat[from]) && room > 0
    requires Exact(rest, flat, hit, from + 1, room - 1)
    ensures Exact(Page([flat[from]] + rest.entries, rest.next), flat, hit, from, room)
  {
    if rest.next.Some? {
      assert [flat[from]] + rest.entries + Filtered(flat, hit, rest.next.value)
          == [flat[from]] + (rest.entries + Filtered(flat, hit, rest.next.value));
    }
  }

  function NormalizeLimit(limit: int): (n: nat)
    ensures 0 < n <= 500
    ensures 0 < limit <= 500 ==> n == limit
    ensures limit <= 0 ==> n == 100
    ensures limit > 500 ==> n == 500
  {
    if limit <= 0 then DEFAULT_LIST_LIMIT else if limit > MAX_LIST_LIMIT then MAX_LIST_LIMIT else limit
  }

  ghost predicate AllMeet(entries: seq<Summary>, q: Query) {
    forall i :: 0 <= i < |entries| ==> Meets(entries[i], q)
  }

  lemma {:induction false} ScanMeets(flat: seq<Summary>, q: Query, from: nat, room: nat)
    ensures AllMeet(Scan(flat, Filter(q), from, room).entries, q)
    decreases |flat| - from
  {
    if from < |flat| {
      MeetsIff(flat[from], q);
      ScanMeets(flat, q, from + 1, room);
      if room > 0 {
        ScanMeets(flat, q, from + 1, room - 1);
      }
    }
  }

  /** What is left of the list are the summaries that meet the query, and all of them. */
  lemma {:induction false} FilteredIff(flat: seq<Summary>, q: Query, from: nat, s: Summary)
    requires from <= |flat|
    ensures s in Filtered(flat, Filter(q), from) <==> s in flat[from..] && Meets(s, q)
    decreases |flat| - from
  {
    if from < |flat| {
      FilteredIff(flat, q, from + 1, s);
      MeetsIff(flat[from], q);
      assert flat[from..] == [flat[from]] + flat[from + 1..];
    }
  }

  // ----- cursors

  function ParseCursor(raw: string): Option<nat> {
    var value := Text.TrimSpace(raw);
    if value == "" then Some(0)
    else
      match Atoi(value)
      case None => None
      case Some(n) => if n < 0 then None else Some(n)
  }

  function NextCursor(next: Option<nat>): string {
    if next.Some? then Itoa(next.value) else ""
  }

  lemma CursorOf(raw: string, n: nat)
    requires raw != "" && Text.TrimSpace(raw) == raw && Atoi(raw) == Some(n)
    ensures ParseCursor(raw) == Some(n)
  {
  }

  lemma NumberTrimmed(n: nat)
    ensures Itoa(n) != "" && Text.TrimSpace(Itoa(n)) == Itoa(n)
  {
    var s := Itoa(n);
    assert Text.TrimLeft(s) == s && Text.TrimRight(s) == s;
  }

  lemma CursorRoundTrip(n: nat)
    requires n <= MAX_INT
    ensures Itoa(n) != "" && ParseCursor(Itoa(n)) == Some(n)
  {
    AtoiInvertsItoa(n);
    NumberTrimmed(n);
    CursorOf(Itoa(n), n);
  }

  /** Everything a client sees that follows the cursors, asking for `limits(k)` entries on page `k`. */
  function Follow(flat: seq<Summary>, hit: Summary -> bool, cursor: string, limits: nat -> int, k: nat): seq<Summary>
    requires |flat| <= MAX_INT
    decreases if ParseCursor(cursor).Some? && ParseCursor(cursor).value <= |flat|
              then |flat| - ParseCursor(cursor).value else 0
  {
    match ParseCursor(cursor)
    case None => []
    case Some(skip) =>
      var page := Scan(flat, hit, skip, NormalizeLimit(limits(k)));
      if page.next.None? then page.entries
      else
        ScanBounded(flat, hit, skip, NormalizeLimit(limits(k)));
        CursorRoundTrip(page.next.value);
        page.entries + Follow(flat, hit, NextCursor(page.next), limits, k + 1)
  }

  lemma ScanBounded(flat: seq<Summary>, hit: Summary -> bool, skip: nat, room: nat)
    ensures var p := Scan(flat, hit, skip, room);
            p.next.Some? ==> skip <= p.next.value < |flat| && (room > 0 ==> skip < p.next.value)
  {
    if skip <= |flat| {
      ScanExact(flat, hit, skip, room);
    }
  }

  /**
   * On an unchanged log, following the cursors to the end with any limits shows exactly the
   * filtered list, newest first, without repeating or skipping an entry.
   */
  lemma {:induction false} FollowingShowsAll(
    flat: seq<Summary>, hit: Summary -> bool, cursor: string, limits: nat -> int, k: nat)
    requires |flat| <= MAX_INT
    requires ParseCursor(cursor).Some? && ParseCursor(cursor).value <= |flat|
    ensures Follow(flat, hit, cursor, limits, k) == Filtered(flat, hit, ParseCursor(cursor).value)
    decreases |flat| - ParseCursor(cursor).value
  {
    var skip := ParseCursor(cursor).value;
    var room := NormalizeLimit(limits(k));
    ScanExact(flat, hit, skip, room);
    var page := Scan(flat, hit, skip, room);
    if page.next.Some? {
      CursorRoundTrip(page.next.value);
      FollowingShowsAll(flat, hit, NextCursor(page.next), limits, k + 1);
    }
  }

  lemma FirstPageFollows(flat: seq<Summary>, hit: Summary -> bool, limits: nat -> int)
    requires |flat| <= MAX_INT
    ensures Follow(flat, hit, "", limits, 0) == Filtered(flat, hit, 0)
  {
    assert ParseCursor("") == Some(0);
    FollowingShowsAll(flat, hit, "", limits, 0);
  }

  /** Following the cursors to the end, with any limits, shows a summary exactly if it meets the query. */
  lemma ShownIff(flat: seq<Summary>, q: Query, limits: nat -> int, s: Summary)
    requires |flat| <= MAX_INT
    ensures s in Follow(flat, Filter(q), "", limits, 0) <==> s in flat && Meets(s, q)
  {
    FirstPageFollows(flat, Filter(q), limits);
    FilteredIff(flat, q, 0, s);
    assert flat[0..] == flat;
  }

  // ----- the listing loop

  /** The entries of one shard stand together, newest first. */
  lemma {:induction false} FlatSlice(shards: seq<seq<Summary>>, f: nat)
    requires f < |shards|
    ensures var at := |Flat(shards[..f])|;
      at + |shards[f]| <= |Flat(shards)| && Flat(shards)[at..at + |shards[f]|] == Reverse(shards[f])
  {
    var front := shards[..|shards| - 1];
    if f < |front| {
      assert front[..f] == shards[..f];
      FlatSlice(front, f);
    } else {
      assert shards[..f] == front;
    }
  }

  lemma FlatStep(shards: seq<seq<Summary>>, f: nat)
    requires f < |shards|
    ensures |Flat(shards[..f + 1])| == |Flat(shards[..f])| + |shards[f]|
  {
    assert shards[..f + 1][..f] == shards[..f];
  }

  lemma NextShard(shards: seq<seq<Summary>>, f: nat, seen: nat)
    requires f < |shards| && seen == |Flat(shards[..f])|
    ensures seen + |shards[f]| <= |Flat(shards)| && Flat(shards)[seen..seen + |shards[f]|] == Reverse(shards[f])
    ensures seen + |shards[f]| == |Flat(shards[..f + 1])|
  {
    FlatSlice(shards, f);
    FlatStep(shards, f);
  }

  /** What is still to come completes what has been listed. */
  ghost predicate Completes(page: Page, flat: seq<Summary>, hit: Summary -> bool, entries: seq<Summary>, at: nat, limit: nat) {
    && |entries| <= limit
    && page == (var rest := Scan(flat, hit, at, limit - |entries|); Page(entries + rest.entries, rest.next))
  }

  lemma CompletesSkip(page: Page, flat: seq<Summary>, hit: Summary -> bool, entries: seq<Summary>, at: nat, limit: nat)
    requires Completes(page, flat, hit, entries, at, limit) && at < |flat| && !hit(flat[at])
    ensures Completes(page, flat, hit, entries, at + 1, limit)
  {
  }

  lemma CompletesTake(page: Page, flat: seq<Summary>, hit: Summary -> bool, entries: seq<Summary>, at: nat, limit: nat)
    requires Completes(page, flat, hit, entries, at, limit) && at < |flat| && hit(flat[at]) && |entries| < limit
    ensures Completes(page, flat, hit, entries + [flat[at]], at + 1, limit)
  {
    var rest := Scan(flat, hit, at + 1, limit - |entries| - 1);
    assert (entries + [flat[at]]) + rest.entries == entries + ([flat[at]] + rest.entries);
  }

  /** The page, once a matching entry is met and no room is left, or once no entry is left. */
  lemma CompletesFull(page: Page, flat: seq<Summary>, hit: Summary -> bool, entries: seq<Summary>, at: nat, limit: nat)
    requires Completes(page, flat, hit, entries, at, limit)
    ensures at < |flat| && hit(flat[at]) && |entries| == limit ==> page == Page(entries, Some(at))
    ensures at >= |flat| ==> page == Page(entries, None)
  {
    assert entries + [] == entries;
  }

  /** The inner loop over one shard, newest entry first; it may fill the page. */
  method ListShard(
    summaries: seq<Summary>, q: Query, skip: nat, n: nat, entries: seq<Summary>, seen: nat,
    ghost page: Page, ghost flat: seq<Summary>)
    returns (entries': seq<Summary>, seen': nat, full: bool)
    requires seen + |summaries| <= |flat|
    requires flat[seen..seen + |summaries|] == Reverse(summaries)
    requires Completes(page, flat, Filter(q), entries, if seen < skip then skip else seen, n)
    ensures full ==> page == Page(entries', Some(seen')) && seen <= seen' < seen + |summaries|
    ensures !full ==> seen' == seen + |summaries|
    ensures !full ==> Completes(page, flat, Filter(q), entries', if seen' < skip then skip else seen', n)
  {
    entries', seen', full := entries, seen, false;
    var i := |summaries|;
    while i > 0
      invariant 0 <= i <= |summaries| && seen' == seen + |summaries| - i
      invariant Completes(page, flat, Filter(q), entries', if seen' < skip then skip else seen', n)
    {
      i := i - 1;
      if seen' < skip {
        seen' := seen' + 1;
        continue;
      }
      var summary := summaries[i];
      assert flat[seen..seen + |summaries|][|summaries| - 1 - i] == summary;
      if !Matches(summary, q) {
        CompletesSkip(page, flat, Filter(q), entries', seen', n);
        seen' := seen' + 1;
        continue;
      }
      if |entries'| >= n {
        CompletesFull(page, flat, Filter(q), entries', seen', n);
        return entries', seen', true;
      }
      CompletesTake(page, flat, Filter(q), entries', seen', n);
      entries' := entries' + [summary];
      seen' := seen' + 1;
    }
  }

  /** Malformed lines of the first `f` shards that begin at or before position `at` of the list. */
  function MalformedTo(shards: seq<seq<Summary>>, malformed: seq<nat>, f: nat, at: nat): nat
    requires f <= |shards| == |malformed|
  {
    if f == 0 then 0
    else MalformedTo(shards, malformed, f - 1, at) + if |Flat(shards[..f - 1])| <= at then malformed[f - 1] else 0
  }

  lemma {:induction false} FlatMonotone(shards: seq<seq<Summary>>, i: nat, j: nat)
    requires i <= j <= |shards|
    ensures |Flat(shards[..i])| <= |Flat(shards[..j])|
  {
    if i < j {
      FlatMonotone(shards, i, j - 1);
      FlatStep(shards, j - 1);
    }
  }

  /** Shards up to the one holding a position are counted, those behind it are not. */
  lemma {:induction false} MalformedUpTo(shards: seq<seq<Summary>>, malformed: seq<nat>, f: nat, g: nat, at: nat)
    requires f <= g <= |shards| == |malformed| && (f < g ==> at < |Flat(shards[..f])|)
    ensures MalformedTo(shards, malformed, g, at) == MalformedTo(shards, malformed, f, at)
  {
    if f < g {
      MalformedUpTo(shards, malformed, f, g - 1, at);
      FlatMonotone(shards, f, g - 1);
    }
  }

  lemma {:induction false} MalformedLater(shards: seq<seq<Summary>>, malformed: seq<nat>, f: nat, at: nat, later: nat)
    requires f <= |shards| == |malformed| && at <= later && (f > 0 ==> |Flat(shards[..f - 1])| <= at)
    ensures MalformedTo(shards, malformed, f, later) == MalformedTo(shards, malformed, f, at)
  {
    if f > 0 {
      if f > 1 {
        FlatMonotone(shards, f - 2, f - 1);
      }
      MalformedLater(shards, malformed, f - 1, at, later);
    }
  }

  /** One shard more: its malformed lines count, and those behind it do not if the page ends in it. */
  lemma MalformedShard(shards: seq<seq<Summary>>, malformed: seq<nat>, f: nat, at: nat, later: nat)
    requires f < |shards| == |malformed| && at == |Flat(shards[..f])| <= later
    ensures MalformedTo(shards, malformed, f + 1, later) == MalformedTo(shards, malformed, f, at) + malformed[f]
    ensures later < |Flat(shards[..f + 1])| ==>
      MalformedTo(shards, malformed, |shards|, later) == MalformedTo(shards, malformed, f, at) + malformed[f]
  {
    MalformedLater(shards, malformed, f + 1, at, later);
    if later < |Flat(shards[..f + 1])| {
      MalformedUpTo(shards, malformed, f + 1, |shards|, later);
    }
  }

  datatype ListResult = ListResult(entries: seq<Summary>, nextCursor: string, malformed: nat)

  /** The loop over the shards, newest first, until the page is full. */
  method ListShards(shards: seq<seq<Summary>>, malformed: seq<nat>, q: Query, skip: nat, n: nat)
    returns (entries: seq<Summary>, next: Option<nat>, bad: nat)
    requires |malformed| == |shards|
    ensures Scan(Flat(shards), Filter(q), skip, n) == Page(entries, next)
    ensures bad == MalformedTo(shards, malformed, |shards|, if next.Some? then next.value else |Flat(shards)|)
  {
    ghost var flat := Flat(shards);
    ghost var page := Scan(flat, Filter(q), skip, n);
    entries, bad := [], 0;
    var seen: nat := 0;
    assert [] + page.entries == page.entries;
    var f := 0;
    assert shards[..0] == [];
    while f < |shards|
      invariant 0 <= f <= |shards| && seen == |Flat(shards[..f])|
      invariant Completes(page, flat, Filter(q), entries, if seen < skip then skip else seen, n)
      invariant bad == MalformedTo(shards, malformed, f, seen)
    {
      NextShard(shards, f, seen);
      ghost var start := seen;
      var full;
      entries, seen, full := ListShard(shards[f], q, skip, n, entries, seen, page, flat);
      MalformedShard(shards, malformed, f, start, seen);
      bad := bad + malformed[f];
      if full {
        return entries, Some(seen), bad;
      }
      f := f + 1;
    }
    assert shards[..|shards|] == shards;
    CompletesFull(page, flat, Filter(q), entries, if seen < skip then skip else seen, n);
    return entries, None, bad;
  }

  /**
   * One page of the log, with the malformed lines of the shards opened for it; an invalid cursor is an
   * error, and a disabled store lists nothing.
   */
  method List(enabled: bool, shards: seq<seq<Summary>>, malformed: seq<nat>, q: Query, limit: int, cursor: string)
    returns (r: Option<ListResult>)
    requires |malformed| == |shards|
    ensures !enabled ==> r == Some(ListResult([], "", 0))
    ensures enabled && ParseCursor(cursor).None? ==> r.None?
    ensures enabled && ParseCursor(cursor).Some? ==>
      var page := Scan(Flat(shards), Filter(q), ParseCursor(cursor).value, NormalizeLimit(limit));
      var end := if page.next.Some? then page.next.value else |Flat(shards)|;
      r == Some(ListResult(page.entries, NextCursor(page.next), MalformedTo(shards, malformed, |shards|, end)))
    ensures r.Some? ==> AllMeet(r.value.entries, q)
  {
    if !enabled {
      return Some(ListResult([], "", 0));
    }
    var parsed := ParseCursor(cursor);
    if parsed.None? {
      return None;
    }
    ScanMeets(Flat(shards), q, parsed.value, NormalizeLimit(limit));
    var entries, next, bad := ListShards(shards, malformed, q, parsed.value, NormalizeLimit(limit));
    return Some(ListResult(entries, if next.Some? then Itoa(next.value) else "", bad));
  }
}
