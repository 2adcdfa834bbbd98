/** Writing the conversation log as bounded shards, and removing old ones. */
module LogShards {
  import opened Wrappers
  import opened MapSum
  import opened Decimal
  import opened LogLines
  import Text

  type Time = int

  datatype Shard = Shard(content: string, modTime: Time)

  type Directory = map<string, Shard>

  datatype Error = EntryTooLarge | InvalidBody

  datatype Location = Location(file: string, size: nat)

  const NOWHERE := Location("", 0)

  ghost function Sizes(dir: Directory): map<string, int> {
    map name | name in dir :: |dir[name].content|
  }

  /** Bytes in all shards. */
  ghost function TotalSize(dir: Directory): int {
    Sum(Sizes(dir))
  }

  // ----- orders

  /** Older first; shards of the same time by name. */
  predicate Before(dir: Directory, a: string, b: string)
    requires a in dir && b in dir
  {
    dir[a].modTime < dir[b].modTime || (dir[a].modTime == dir[b].modTime && Text.Less(a, b))
  }

  ghost predicate ByAge(dir: Directory, names: seq<string>) {
    && (forall i :: 0 <= i < |names| ==> names[i] in dir)
    && (forall i, j :: 0 <= i < j < |names| ==> Before(dir, names[i], names[j]))
  }

  lemma BeforeTotal(dir: Directory, a: string, b: string)
    requires a in dir && b in dir && a != b
    ensures Before(dir, a, b) || Before(dir, b, a)
  {
    Text.LessTotal(a, b);
  }

  lemma BeforeTransitive(dir: Directory, a: string, b: string, c: string)
    requires a in dir && b in dir && c in dir && Before(dir, a, b) && Before(dir, b, c)
    ensures Before(dir, a, c)
  {
    if dir[a].modTime == dir[b].modTime == dir[c].modTime {
      Text.LessTransitive(a, b, c);
    }
  }

  /** All shards, each once. */
  ghost predicate Enumerates(dir: Directory, names: seq<string>) {
    && (forall name :: name in names <==> name in dir)
    && Distinct(names)
  }

  // ----- eviction

  /** The shards removed: in order, skipping the protected one, while the total is over the limit. */
  function Evicted(dir: Directory, names: seq<string>, total: int, limit: int, protected: string): seq<string>
    requires forall i :: 0 <= i < |names| ==> names[i] in dir
  {
    if names == [] || total <= limit then []
    else if names[0] == protected then Evicted(dir, names[1..], total, limit, protected)
    else [names[0]] + Evicted(dir, names[1..], total - |dir[names[0]].content|, limit, protected)
  }

  function Unprotected(names: seq<string>, protected: string): seq<string> {
    if names == [] then []
    else if names[0] == protected then Unprotected(names[1..], protected)
    else [names[0]] + Unprotected(names[1..], protected)
  }

  function Weight(dir: Directory, names: seq<string>): int
    requires forall i :: 0 <= i < |names| ==> names[i] in dir
  {
    if names == [] then 0 else |dir[names[0]].content| + Weight(dir, names[1..])
  }

  /** `gone` is the shortest prefix of `all` whose removal brings the total within the limit, or else all of it. */
  ghost predicate Minimal(dir: Directory, gone: seq<string>, all: seq<string>, total: int, limit: int) {
    && (forall i :: 0 <= i < |gone| ==> gone[i] in dir)
    && gone <= all
    && (gone != [] ==> total - Weight(dir, gone[..|gone| - 1]) > limit)
    && (total - Weight(dir, gone) <= limit || gone == all)
  }

  lemma MinimalCons(dir: Directory, first: string, rest: seq<string>, all: seq<string>, total: int, limit: int)
    requires first in dir && total > limit && Minimal(dir, rest, all, total - |dir[first].content|, limit)
    ensures Minimal(dir, [first] + rest, [first] + all, total, limit)
  {
    var gone := [first] + rest;
    assert gone[1..] == rest;
    if rest == [] {
      assert gone[..|gone| - 1] == [];
    } else {
      var front := rest[..|rest| - 1];
      assert gone[..|gone| - 1] == [first] + front;
      assert ([first] + front)[1..] == front;
    }
  }

  /**
   * The shards removed are the oldest unprotected ones, and no fewer would do: the total was over
   * the limit before the last removal, and afterwards is within it unless none are left.
   */
  lemma {:induction false} EvictedMinimal(dir: Directory, names: seq<string>, total: int, limit: int, protected: string)
    requires forall i :: 0 <= i < |names| ==> names[i] in dir
    ensures Minimal(dir, Evicted(dir, names, total, limit, protected), Unprotected(names, protected), total, limit)
  {
    if names != [] && total > limit {
      if names[0] == protected {
        EvictedMinimal(dir, names[1..], total, limit, protected);
      } else {
        var less := total - |dir[names[0]].content|;
        EvictedMinimal(dir, names[1..], less, limit, protected);
        MinimalCons(dir, names[0], Evicted(dir, names[1..], less, limit, protected), Unprotected(names[1..], protected),
                    total, limit);
      }
    }
  }

  /** Without the removed shards the total is what it was, less their sizes. */
  lemma {:induction false} TotalWithout(dir: Directory, gone: seq<string>)
    requires forall i :: 0 <= i < |gone| ==> gone[i] in dir
    requires Distinct(gone)
    ensures TotalSize(dir - Names(gone)) == TotalSize(dir) - Weight(dir, gone)
  {
    if gone == [] {
      assert dir - Names(gone) == dir;
    } else {
      var less := dir - {gone[0]};
      var tail := gone[1..];
      assert forall i :: 0 <= i < |tail| ==> tail[i] == gone[i + 1];
      TotalWithout(less, tail);
      SameWeight(less, dir, tail);
      assert Names(gone) == {gone[0]} + Names(tail) by {
        assert gone == [gone[0]] + tail;
      }
      assert less - Names(tail) == dir - Names(gone);
      assert Sizes(less) == Sizes(dir) - {gone[0]};
      SumDrop(Sizes(dir), gone[0]);
    }
  }

  function Names(names: seq<string>): set<string> {
    set name | name in names
  }

  lemma {:induction false} SameWeight(a: Directory, b: Directory, names: seq<string>)
    requires forall i :: 0 <= i < |names| ==> names[i] in a && names[i] in b && a[names[i]] == b[names[i]]
    ensures Weight(a, names) == Weight(b, names)
  {
    if names != [] {
      SameWeight(a, b, names[1..]);
    }
  }

  ghost predicate Distinct(names: seq<string>) {
    forall i, j :: 0 <= i < j < |names| ==> names[i] != names[j]
  }

  lemma {:induction false} UnprotectedAll(names: seq<string>, protected: string)
    ensures forall name :: name in Unprotected(names, protected) <==> name in names && name != protected
  {
    if names != [] {
      UnprotectedAll(names[1..], protected);
      assert names == [names[0]] + names[1..];
    }
  }

  lemma {:induction false} UnprotectedDistinct(names: seq<string>, protected: string)
    requires Distinct(names)
    ensures Distinct(Unprotected(names, protected))
  {
    if names != [] {
      var tail := names[1..];
      assert forall i :: 0 <= i < |tail| ==> tail[i] == names[i + 1];
      UnprotectedDistinct(tail, protected);
      UnprotectedAll(tail, protected);
      var rest := Unprotected(tail, protected);
      assert names[0] !in tail;
      assert forall i :: 0 <= i < |rest| ==> rest[i] in rest;
    }
  }

  /** Of the shards but the protected one, each that is gone is older than each that stays, by time and then name. */
  ghost predicate OldestGone(was: Directory, dir: Directory, protected: string) {
    forall a, b :: a in was && a !in dir && b in was && b in dir && b != protected ==>
      was[a].modTime <= was[b].modTime && (was[a].modTime == was[b].modTime ==> Text.Less(a, b))
  }

  lemma {:induction false} UnprotectedByAge(dir: Directory, names: seq<string>, protected: string)
    requires ByAge(dir, names)
    ensures ByAge(dir, Unprotected(names, protected))
  {
    if names != [] {
      var tail := names[1..];
      assert forall i :: 0 <= i < |tail| ==> tail[i] == names[i + 1];
      UnprotectedByAge(dir, tail, protected);
      UnprotectedAll(tail, protected);
      var rest := Unprotected(tail, protected);
      forall j | 0 <= j < |rest| ensures Before(dir, names[0], rest[j]) {
        assert rest[j] in tail;
      }
    }
  }

  lemma EvictsOldest(was: Directory, names: seq<string>, total: int, limit: int, protected: string)
    requires Enumerates(was, names) && ByAge(was, names)
    ensures OldestGone(was, was - Names(Evicted(was, names, total, limit, protected)), protected)
  {
    var gone, all := Evicted(was, names, total, limit, protected), Unprotected(names, protected);
    EvictedMinimal(was, names, total, limit, protected);
    UnprotectedAll(names, protected);
    UnprotectedByAge(was, names, protected);
    assert forall n :: 0 <= n < |gone| ==> gone[n] == all[n];
    forall a, b | a in gone && b in was && b !in gone && b != protected
      ensures was[a].modTime <= was[b].modTime && (was[a].modTime == was[b].modTime ==> Text.Less(a, b))
    {
      var i :| 0 <= i < |gone| && gone[i] == a;
      var j :| 0 <= j < |all| && all[j] == b;
      assert i < j;
      assert Before(was, all[i], all[j]);
    }
  }

  /** What stays of the other shards does not depend on the line just appended. */
  lemma OldestBeforeAppend(was: Directory, file: string, line: string, now: Time, dir: Directory)
    requires OldestGone(Appended(was, file, line, now), dir, file) && file in dir
    ensures OldestGone(was, dir, file)
  {
  }

  lemma {:induction false} AtMostOne(dir: Directory, protected: string)
    requires forall name :: name in dir ==> name == protected
    ensures TotalSize(dir) == if protected in dir then |dir[protected].content| else 0
  {
    if protected in dir {
      SumRemove(Sizes(dir), protected);
      assert Sizes(dir) - {protected} == map[];
    } else {
      assert Sizes(dir) == map[];
    }
  }

  /** The file for a line: the shard with the last name if the line fits there, and else the new one. */
  ghost predicate Chosen(dir: Directory, limit: int, lineSize: nat, newName: string, file: string) {
    || (file in dir && |dir[file].content| + lineSize <= limit
        && forall name :: name in dir ==> name == file || Text.Less(name, file))
    || (file == newName
        && forall name :: name in dir ==>
             || |dir[name].content| + lineSize > limit
             || exists later :: later in dir && Text.Less(name, later))
  }

  /** The file is the last shard by name if that has room, and else the new one. */
  lemma ChosenIsLast(dir: Directory, limit: int, lineSize: nat, newName: string, file: string, name: string)
    requires Chosen(dir, limit, lineSize, newName, file) && newName !in dir && name in dir
    ensures file in dir ==> |dir[file].content| + lineSize <= limit && !Text.Less(file, name)
    ensures file !in dir ==> file == newName
    ensures file !in dir && |dir[name].content| + lineSize <= limit ==> exists later :: later in dir && Text.Less(name, later)
  {
    if file in dir && Text.Less(file, name) {
      Text.LessAsymmetric(file, name);
      Text.LessAsymmetric(file, file);
    }
  }

  /** The line is at the end of its file, which is as new as the line; what is left of the others is as it was. */
  ghost predicate OneLineMore(was: Directory, dir: Directory, file: string, line: string, now: Time) {
    && file in dir && dir[file].modTime == now
    && dir[file].content == (if file in was then was[file].content else "") + line
    && forall name :: name in dir && name != file ==> name in was && dir[name] == was[name]
  }

  function Appended(dir: Directory, file: string, line: string, now: Time): Directory {
    dir[file := Shard((if file in dir then dir[file].content else "") + line, now)]
  }

  // ----- what the shards hold

  /** The payloads written to each shard, in order. */
  type Log = map<string, seq<string>>

  predicate Accepted(payload: string, maxEntryBytes: int, maxFileSize: int) {
    Loggable(payload) && |payload| <= maxEntryBytes && |payload| + 1 <= maxFileSize
  }

  ghost predicate AllAccepted(payloads: seq<string>, maxEntryBytes: int, maxFileSize: int) {
    forall i :: 0 <= i < |payloads| ==> Accepted(payloads[i], maxEntryBytes, maxFileSize)
  }

  /** Each shard holds exactly its payloads, one a line, all of them acceptable. */
  ghost predicate Holds(dir: Directory, log: Log, maxEntryBytes: int, maxFileSize: int) {
    && log.Keys == dir.Keys
    && (forall name :: name in dir ==> dir[name].content == Written(log[name]))
    && (forall name :: name in log ==> AllAccepted(log[name], maxEntryBytes, maxFileSize))
  }

  function Logged(log: Log, file: string, payload: string): Log {
    log[file := (if file in log then log[file] else []) + [payload]]
  }

  /** Exactly the shards to be evicted, oldest first, are gone, and with them what was logged for them. */
  ghost predicate Evicts(
    listed: Directory, logged: Log, names: seq<string>, limit: int, protected: string, dir: Directory, log: Log)
  {
    && Enumerates(listed, names) && ByAge(listed, names) && protected in dir
    && var gone := Names(Evicted(listed, names, TotalSize(listed), limit, protected));
       dir == listed - gone && log == logged - gone
  }

  lemma AppendHolds(
    dir: Directory, log: Log, file: string, payload: string, now: Time, maxEntryBytes: int, maxFileSize: int)
    requires Holds(dir, log, maxEntryBytes, maxFileSize) && Accepted(payload, maxEntryBytes, maxFileSize)
    ensures Holds(Appended(dir, file, payload + "\n", now), Logged(log, file, payload), maxEntryBytes, maxFileSize)
  {
    var before := if file in log then log[file] else [];
    var content := if file in dir then dir[file].content else "";
    AppendPayload(before, content, payload, maxEntryBytes, maxFileSize);
  }

  lemma AppendPayload(before: seq<string>, content: string, payload: string, maxEntryBytes: int, maxFileSize: int)
    requires content == Written(before) && AllAccepted(before, maxEntryBytes, maxFileSize)
    requires Accepted(payload, maxEntryBytes, maxFileSize)
    ensures content + (payload + "\n") == Written(before + [payload])
    ensures AllAccepted(before + [payload], maxEntryBytes, maxFileSize)
  {
    WrittenAppend(before, payload);
    assert Written(before) + payload + "\n" == Written(before) + (payload + "\n");
  }

  lemma RemoveHolds(dir: Directory, log: Log, gone: set<string>, maxEntryBytes: int, maxFileSize: int)
    requires Holds(dir, log, maxEntryBytes, maxFileSize)
    ensures Holds(dir - gone, log - gone, maxEntryBytes, maxFileSize)
  {
  }

  // ----- the store

  class Store {
    const enabled: bool
    const maxFileSize: int
    const maxTotalSize: int
    const maxEntryBytes: int
    var dir: Directory
    ghost var log: Log

    /**
     * Each shard holds its payloads, none is too large, and all together they are within the total or
     * a single shard's limit.
     */
    ghost predicate Valid()
      reads this
    {
      && maxTotalSize > 0 && maxEntryBytes > 0 && maxFileSize <= MAX_INT
      && Holds(dir, log, maxEntryBytes, maxFileSize)
      && (forall name :: name in dir ==> |dir[name].content| <= maxFileSize)
      && (TotalSize(dir) <= maxTotalSize || TotalSize(dir) <= maxFileSize)
    }

    constructor (enabled: bool, maxFileSize: int, maxTotalSize: int, maxEntryBytes: int)
      requires 0 < maxFileSize <= MAX_INT && maxTotalSize > 0 && maxEntryBytes > 0
      ensures Valid() && dir == map[] && log == map[] && this.enabled == enabled
      ensures this.maxFileSize == maxFileSize && this.maxTotalSize == maxTotalSize
      ensures this.maxEntryBytes == maxEntryBytes
    {
      this.maxFileSize, this.maxTotalSize, this.maxEntryBytes := maxFileSize, maxTotalSize, maxEntryBytes;
      this.enabled := enabled;
      dir, log := map[], map[];
    }

    /** The shard with the last name, if it has room for the line; otherwise the new one. */
    method CurrentFile(lineSize: nat, newName: string) returns (r: Result<string, Error>)
      ensures lineSize > maxFileSize <==> r.Err?
      ensures r.Ok? ==> Chosen(dir, maxFileSize, lineSize, newName, r.value)
    {
      if lineSize > maxFileSize {
        return Err(EntryTooLarge);
      }
      if dir != map[] {
        var last := LastName();
        if |dir[last].content| + lineSize <= maxFileSize {
          return Ok(last);
        }
      }
      return Ok(newName);
    }

    method LastName() returns (last: string)
      requires dir != map[]
      ensures last in dir && forall name :: name in dir ==> name == last || Text.Less(name, last)
    {
      last :| last in dir;
      var todo := dir.Keys - {last};
      while todo != {}
        invariant todo <= dir.Keys && last in dir && last !in todo
        invariant forall name :: name in dir && name !in todo ==> name == last || Text.Less(name, last)
        decreases todo
      {
        var name :| name in todo;
        Text.LessTotal(last, name);
        if Text.Less(last, name) {
          forall n | n in dir && n !in todo && n != last ensures Text.Less(n, name) {
            Text.LessTransitive(n, last, name);
          }
          last := name;
        }
        todo := todo - {name};
      }
    }

    method SortedByAge() returns (names: seq<string>)
      ensures Enumerates(dir, names) && ByAge(dir, names)
    {
      names := [];
      var todo := dir.Keys;
      while todo != {}
        invariant todo <= dir.Keys
        invariant forall name :: name in names <==> name in dir && name !in todo
        invariant ByAge(dir, names)
        decreases todo
      {
        var name :| name in todo;
        todo := todo - {name};
        names := InsertByAge(name, names);
      }
      forall i, j | 0 <= i < j < |names| ensures names[i] != names[j] {
        assert Before(dir, names[i], names[j]);
        if names[i] == names[j] {
          NotBeforeItself(dir, names[i]);
        }
      }
    }

    static lemma NotBeforeItself(dir: Directory, a: string)
      requires a in dir
      ensures !Before(dir, a, a)
    {
      if Text.Less(a, a) {
        Text.LessAsymmetric(a, a);
      }
    }

    method InsertByAge(name: string, names: seq<string>) returns (out: seq<string>)
      requires ByAge(dir, names) && name in dir && name !in names
      ensures ByAge(dir, out)
      ensures forall n :: n in out <==> n == name || n in names
    {
      var k := 0;
      while k < |names| && Before(dir, names[k], name)
        invariant 0 <= k <= |names|
        invariant forall i :: 0 <= i < k ==> Before(dir, names[i], name)
      {
        k := k + 1;
      }
      forall j | k <= j < |names| ensures Before(dir, name, names[j]) {
        BeforeTotal(dir, names[k], name);
        if j > k {
          BeforeTransitive(dir, name, names[k], names[j]);
        }
      }
      out := names[..k] + [name] + names[k..];
    }

    /** The deletions: each removed shard leaves the total with the size it was listed with. */
    method DeleteOldest(names: seq<string>, listedTotal: int, protected: string)
      requires forall i :: 0 <= i < |names| ==> names[i] in dir
      modifies this`dir
      ensures dir == old(dir) - Names(Evicted(old(dir), names, listedTotal, maxTotalSize, protected))
    {
      var listed := dir;
      var total := listedTotal;
      ghost var gone := Evicted(listed, names, total, maxTotalSize, protected);
      ghost var removed: seq<string> := [];
      var k := 0;
      while k < |names| && total > maxTotalSize
        invariant 0 <= k <= |names|
        invariant gone == removed + Evicted(listed, names[k..], total, maxTotalSize, protected)
        invariant dir == listed - Names(removed)
      {
        assert names[k..][1..] == names[k + 1..];
        var name := names[k];
        k := k + 1;
        if name == protected {
          continue;
        }
        total := total - |listed[name].content|;
        assert removed + ([name] + Evicted(listed, names[k..], total, maxTotalSize, protected))
            == (removed + [name]) + Evicted(listed, names[k..], total, maxTotalSize, protected);
        RemoveOne(listed, removed, name);
        dir := dir - {name};
        removed := removed + [name];
      }
      assert removed + [] == removed;
    }

    static lemma RemoveOne(listed: Directory, removed: seq<string>, name: string)
      ensures listed - Names(removed + [name]) == (listed - Names(removed)) - {name}
    {
      assert Names(removed + [name]) == Names(removed) + {name};
    }

    /** Removes the oldest shards, never the one just written, until the total is within the limit. */
    method EnforceRetention(protected: string) returns (ghost names: seq<string>)
      requires maxTotalSize > 0 && protected in dir && |dir[protected].content| <= maxFileSize
      modifies this`dir
      ensures Enumerates(old(dir), names) && ByAge(old(dir), names)
      ensures dir == old(dir) - Names(Evicted(old(dir), names, TotalSize(old(dir)), maxTotalSize, protected))
      ensures protected in dir && OldestGone(old(dir), dir, protected)
      ensures TotalSize(dir) <= maxTotalSize || TotalSize(dir) <= maxFileSize
    {
      var sorted := SortedByAge();
      names := sorted;
      var total := SumOf(sorted);
      WithinLimit(dir, names, total, maxTotalSize, protected);
      EvictsOldest(dir, names, total, maxTotalSize, protected);
      if total <= maxTotalSize {
        assert dir - Names([]) == dir;
        return;
      }
      DeleteOldest(sorted, total, protected);
    }

    /** After eviction the total is within the limit, or only the protected shard is left. */
    static lemma WithinLimit(was: Directory, names: seq<string>, total: int, limit: int, protected: string)
      requires Enumerates(was, names) && protected in was && total == TotalSize(was)
      ensures var gone := Evicted(was, names, total, limit, protected);
              var left := was - Names(gone);
              protected in left && (TotalSize(left) <= limit || TotalSize(left) == |was[protected].content|)
    {
      EvictedMinimal(was, names, total, limit, protected);
      UnprotectedAll(names, protected);
      UnprotectedDistinct(names, protected);
      var gone := Evicted(was, names, total, limit, protected);
      var all := Unprotected(names, protected);
      forall i, j | 0 <= i < j < |gone| ensures gone[i] != gone[j] {
        assert gone[i] == all[i] && gone[j] == all[j];
      }
      TotalWithout(was, gone);
      assert forall i :: 0 <= i < |gone| ==> gone[i] == all[i] && all[i] in all;
      if gone == all {
        var left := was - Names(gone);
        assert forall name :: name in left ==> name == protected;
        assert protected in left;
        AtMostOne(left, protected);
      }
    }

    method SumOf(names: seq<string>) returns (total: int)
      requires Enumerates(dir, names)
      ensures total == TotalSize(dir)
    {
      total := 0;
      for i := 0 to |names|
        invariant total + Weight(dir, names[i..]) == Weight(dir, names)
      {
        assert names[i..][1..] == names[i + 1..];
        total := total + |dir[names[i]].content|;
      }
      TotalWithout(dir, names);
      assert dir - Names(names) == map[];
      assert Sizes(map[]) == map[];
    }

    /**
     * Appends an entry and a newline to the current shard and enforces the limits, unless the store is
     * disabled. An entry with an invalid body, or too large for the entry limit or for a shard, changes
     * nothing. The payload is one line of JSON.
     */
    method Write(payload: string, validBodies: bool, now: Time, newName: string)
      returns (r: Result<Location, Error>, ghost names: seq<string>)
      requires Valid() && newName !in dir && Loggable(payload)
      modifies this`dir, this`log
      ensures Valid()
      ensures r.Err? <==> enabled && (!validBodies || |payload| > maxEntryBytes || |payload| + 1 > maxFileSize)
      ensures r.Err? || !enabled ==> dir == old(dir) && log == old(log)
      ensures !enabled ==> r == Ok(NOWHERE)
      ensures r.Ok? && enabled ==> r.value.size == |payload| + 1
      ensures r.Ok? && enabled ==> Chosen(old(dir), maxFileSize, |payload| + 1, newName, r.value.file)
      ensures r.Ok? && enabled ==>
        Evicts(Appended(old(dir), r.value.file, payload + "\n", now), Logged(old(log), r.value.file, payload),
               names, maxTotalSize, r.value.file, dir, log)
      ensures r.Ok? && enabled ==> OldestGone(old(dir), dir, r.value.file)
      ensures r.Ok? && enabled ==> OneLineMore(old(dir), dir, r.value.file, payload + "\n", now)
    {
      names := [];
      if !enabled {
        return Ok(NOWHERE), [];
      }
      if !validBodies {
        return Err(InvalidBody), [];
      }
      if |payload| > maxEntryBytes {
        return Err(EntryTooLarge), [];
      }
      var line := payload + "\n";
      var file := CurrentFile(|line|, newName);
      if file.Err? {
        return Err(EntryTooLarge), [];
      }
      names := WriteLine(file.value, line, payload, now);
      r := Ok(Location(file.value, |line|));
    }

    method WriteLine(path: string, line: string, ghost payload: string, now: Time) returns (ghost names: seq<string>)
      requires Valid() && Accepted(payload, maxEntryBytes, maxFileSize) && line == payload + "\n"
      requires path in dir ==> |dir[path].content| + |line| <= maxFileSize
      modifies this`dir, this`log
      ensures Valid()
      ensures Evicts(Appended(old(dir), path, line, now), Logged(old(log), path, payload), names, maxTotalSize, path, dir, log)
      ensures OldestGone(old(dir), dir, path) && OneLineMore(old(dir), dir, path, line, now)
    {
      AppendLine(path, line, payload, now);
      names := Evict(path);
      OldestBeforeAppend(old(dir), path, line, now, dir);
    }

    method AppendLine(path: string, line: string, ghost payload: string, now: Time)
      requires Holds(dir, log, maxEntryBytes, maxFileSize) && Accepted(payload, maxEntryBytes, maxFileSize)
      requires line == payload + "\n"
      modifies this`dir, this`log
      ensures Holds(dir, log, maxEntryBytes, maxFileSize)
      ensures dir == Appended(old(dir), path, line, now) && log == Logged(old(log), path, payload)
    {
      AppendHolds(dir, log, path, payload, now, maxEntryBytes, maxFileSize);
      var content := if path in dir then dir[path].content else "";
      dir := dir[path := Shard(content + line, now)];
      log := Logged(log, path, payload);
    }

    method Evict(path: string) returns (ghost names: seq<string>)
      requires maxTotalSize > 0 && path in dir && |dir[path].content| <= maxFileSize
      requires Holds(dir, log, maxEntryBytes, maxFileSize)
      modifies this`dir, this`log
      ensures Holds(dir, log, maxEntryBytes, maxFileSize)
      ensures Evicts(old(dir), old(log), names, maxTotalSize, path, dir, log) && OldestGone(old(dir), dir, path)
      ensures TotalSize(dir) <= maxTotalSize || TotalSize(dir) <= maxFileSize
    {
      ghost var before := dir;
      names := EnforceRetention(path);
      ghost var gone := Names(Evicted(before, names, TotalSize(before), maxTotalSize, path));
      RemoveHolds(before, log, gone, maxEntryBytes, maxFileSize);
      log := log - gone;
    }

    /** Whatever was written and evicted before: a shard reads back as the payloads written to it, none malformed. */
    method ReadShard(name: string, parts: seq<Part>) returns (visited: seq<string>, malformed: nat)
      requires Valid() && name in dir
      requires Chunks(parts) && Joined(parts) == dir[name].content
      ensures visited == log[name] && malformed == 0
    {
      visited, malformed := ReadBackWritten(log[name], parts, maxEntryBytes);
    }
  }
}
