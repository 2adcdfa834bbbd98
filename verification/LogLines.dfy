/** Reading a log shard line by line through a buffer of any size. */
module LogLines {
  import opened Decimal
  import opened TextLaws
  import Text

  const DEFAULT_ENTRY_BYTES := 2 * 1024 * 1024
  const SLACK := 64 * 1024

  // ----- what a shard contains

  /** The lines with their newlines; the last one, possibly empty, has none. */
  function Lines(data: string): seq<string>
    decreases |data|
  {
    var i := Text.NewlineAt(data);
    if i == |data| then [data] else [data[..i + 1]] + Lines(data[i + 1..])
  }

  function TrimLineEnd(line: string): string {
    if line != "" && (line[|line| - 1] == '\r' || line[|line| - 1] == '\n') then TrimLineEnd(line[..|line| - 1]) else line
  }

  predicate Blank(line: string) {
    Text.TrimSpace(line) == ""
  }

  /** The lines visited and the number rejected for their length. */
  datatype Outcome = Outcome(visited: seq<string>, malformed: nat)

  function OneLine(raw: string, max: int): Outcome {
    if |raw| > max then Outcome([], 1)
    else if Blank(TrimLineEnd(raw)) then Outcome([], 0)
    else Outcome([TrimLineEnd(raw)], 0)
  }

  function Then(a: Outcome, b: Outcome): Outcome {
    Outcome(a.visited + b.visited, a.malformed + b.malformed)
  }

  function LineReader(max: int): string -> Outcome {
    raw => OneLine(raw, max)
  }

  /** All lines in order, each read by `one`. */
  function Reading(lines: seq<string>, one: string -> Outcome): Outcome {
    if lines == [] then Outcome([], 0) else Then(one(lines[0]), Reading(lines[1..], one))
  }

  // ----- how the buffer hands it out

  datatype End = Newline | Full | Eof

  datatype Part = Part(bytes: string, end: End)

  function Joined(parts: seq<Part>): string {
    if parts == [] then "" else parts[0].bytes + Joined(parts[1..])
  }

  /** Each part stops at a newline, at a full buffer, or at the end of the data, which comes last. */
  ghost predicate Chunks(parts: seq<Part>) {
    && parts != []
    && forall k :: 0 <= k < |parts| ==>
         && (parts[k].end == Eof <==> k == |parts| - 1)
         && (if parts[k].end == Newline then Text.NewlineAt(parts[k].bytes) == |parts[k].bytes| - 1
             else '\n' !in parts[k].bytes)
  }

  /** The longest line read: below the largest integer, an entry within the limit has room for its newline. */
  function MaxLineBytes(maxEntryBytes: int): (n: int)
    ensures 0 < n <= MAX_INT
    ensures 0 < maxEntryBytes < MAX_INT ==> maxEntryBytes + 1 <= n
    ensures 0 < maxEntryBytes <= MAX_INT - 65536 ==> n == maxEntryBytes + 65536
    ensures maxEntryBytes > MAX_INT - 65536 ==> n == MAX_INT
    ensures maxEntryBytes <= 0 ==> n == 2_097_152 + 65536
  {
    if maxEntryBytes <= 0 then DEFAULT_ENTRY_BYTES + SLACK
    else if maxEntryBytes > MAX_INT - SLACK then MAX_INT
    else maxEntryBytes + SLACK
  }

  // ----- which lines are visited, and as what

  predicate EndsLine(c: char) {
    c == '\r' || c == '\n'
  }

  /** A line is visited without the line ends it closes with, and with everything before them. */
  lemma {:induction false} LineEndTrimmed(line: string) returns (end: string)
    ensures line == TrimLineEnd(line) + end && forall i :: 0 <= i < |end| ==> EndsLine(end[i])
    ensures TrimLineEnd(line) != "" ==> !EndsLine(TrimLineEnd(line)[|TrimLineEnd(line)| - 1])
  {
    end := "";
    if line != "" && EndsLine(line[|line| - 1]) {
      var front := LineEndTrimmed(line[..|line| - 1]);
      end := front + [line[|line| - 1]];
      assert line == line[..|line| - 1] + [line[|line| - 1]];
    }
  }

  lemma BlankIff(line: string)
    ensures Blank(line) <==> AllWhite(line)
  {
    var front, back := Trimmed(line);
    var core := Text.TrimSpace(line);
    if core != "" {
      assert line[|front|] == core[0];
    }
  }

  /** A line within the limit is visited if there is more on it than white space; a longer one is malformed. */
  lemma VisitedIff(raw: string, max: int)
    ensures var seen := OneLine(raw, max);
      && seen.malformed == (if |raw| > max then 1 else 0)
      && seen.visited == (if |raw| <= max && !AllWhite(raw) then [TrimLineEnd(raw)] else [])
  {
    var end := LineEndTrimmed(raw);
    BlankIff(TrimLineEnd(raw));
    var line := TrimLineEnd(raw);
    if !AllWhite(line) {
      var i :| 0 <= i < |line| && !White(line[i]);
      assert raw[i] == line[i];
    }
  }

  // ----- the line so far, and the next part

  lemma {:induction false} NewlineAfter(front: string, data: string)
    requires '\n' !in front
    ensures Text.NewlineAt(front + data) == |front| + Text.NewlineAt(data)
  {
    var all := front + data;
    var i := Text.NewlineAt(data);
    assert forall k :: 0 <= k < |front| ==> all[k] == front[k];
    assert forall k :: 0 <= k < i ==> all[|front| + k] == data[k];
    assert i < |data| ==> all[|front| + i] == '\n';
  }

  /** A part ending in a newline completes the line so far. */
  lemma LineCompleted(current: string, part: string, rest: string)
    requires '\n' !in current && Text.NewlineAt(part) == |part| - 1
    ensures Lines(current + part + rest) == [current + part] + Lines(rest)
  {
    var n := |part| - 1;
    var front := current + part[..n];
    assert part == part[..n] + "\n";
    assert current + part + rest == front + ("\n" + rest);
    assert Text.NewlineAt("\n" + rest) == 0;
    NewlineAfter(front, "\n" + rest);
    var all := current + part + rest;
    assert all[..|front| + 1] == current + part;
    assert all[|front| + 1..] == rest;
  }

  lemma LastLine(current: string, part: string)
    requires '\n' !in current && '\n' !in part
    ensures Lines(current + part) == [current + part]
  {
    assert Text.NewlineAt("") == 0;
    NewlineAfter(current + part, "");
    assert current + part + "" == current + part;
  }

  lemma ThenAssociates(a: Outcome, b: Outcome, c: Outcome)
    ensures Then(Then(a, b), c) == Then(a, Then(b, c))
  {
  }

  lemma ReadingCons(line: string, lines: seq<string>, one: string -> Outcome)
    ensures Reading([line] + lines, one) == Then(one(line), Reading(lines, one))
  {
    assert ([line] + lines)[1..] == lines;
  }

  function ShardReader(one: string -> Outcome): string -> Outcome {
    data => Reading(Lines(data), one)
  }

  /** What has been read, with what the rest of the data gives, is what the whole data gives. */
  ghost predicate OnCourse(all: Outcome, done: Outcome, current: string, rest: string, read: string -> Outcome) {
    '\n' !in current && all == Then(done, read(current + rest))
  }

  lemma AtNewline(all: Outcome, done: Outcome, current: string, part: string, rest: string, one: string -> Outcome)
    requires OnCourse(all, done, current, part + rest, ShardReader(one)) && Text.NewlineAt(part) == |part| - 1
    ensures OnCourse(all, Then(done, one(current + part)), "", rest, ShardReader(one))
  {
    var raw := current + part;
    assert current + (part + rest) == raw + rest;
    LineCompleted(current, part, rest);
    ReadingCons(raw, Lines(rest), one);
    ThenAssociates(done, one(raw), Reading(Lines(rest), one));
    EmptyFront(rest);
  }

  lemma EmptyFront(s: string)
    ensures "" + s == s
  {
  }

  lemma AtEof(all: Outcome, done: Outcome, current: string, part: string, rest: string, one: string -> Outcome)
    requires OnCourse(all, done, current, part + rest, ShardReader(one)) && '\n' !in part && rest == ""
    ensures all == Then(done, one(current + part))
  {
    assert part + rest == part;
    LastLine(current, part);
    assert Reading([current + part][1..], one) == Outcome([], 0);
    var last := one(current + part);
    assert Then(last, Outcome([], 0)) == last by {
      assert last.visited + [] == last.visited;
    }
  }

  lemma AtFull(all: Outcome, done: Outcome, current: string, part: string, rest: string, one: string -> Outcome)
    requires OnCourse(all, done, current, part + rest, ShardReader(one)) && '\n' !in part
    ensures OnCourse(all, done, current + part, rest, ShardReader(one))
  {
    assert current + (part + rest) == (current + part) + rest;
  }

  /** On course before part `k`. */
  ghost predicate OnCourseAt(
    all: Outcome, done: Outcome, current: string, parts: seq<Part>, k: nat, one: string -> Outcome)
    requires k <= |parts|
  {
    OnCourse(all, done, current, Joined(parts[k..]), ShardReader(one))
  }

  lemma JoinedFrom(parts: seq<Part>, k: nat)
    requires k < |parts|
    ensures Joined(parts[k..]) == parts[k].bytes + Joined(parts[k + 1..])
  {
    assert parts[k..][1..] == parts[k + 1..];
  }

  /** One part: a full buffer goes on with the line, a newline ends it, and the end of the data ends everything. */
  lemma AfterPart(all: Outcome, done: Outcome, current: string, parts: seq<Part>, k: nat, one: string -> Outcome)
    requires Chunks(parts) && k < |parts| && OnCourseAt(all, done, current, parts, k, one)
    ensures parts[k].end != Eof ==> k + 1 < |parts|
    ensures parts[k].end == Full ==> OnCourseAt(all, done, current + parts[k].bytes, parts, k + 1, one)
    ensures parts[k].end == Newline ==> OnCourseAt(all, Then(done, one(current + parts[k].bytes)), "", parts, k + 1, one)
    ensures parts[k].end == Eof ==> all == Then(done, one(current + parts[k].bytes))
  {
    var part, rest := parts[k].bytes, Joined(parts[k + 1..]);
    JoinedFrom(parts, k);
    match parts[k].end
    case Full => AtFull(all, done, current, part, rest, one);
    case Newline => AtNewline(all, done, current, part, rest, one);
    case Eof =>
      assert parts[k + 1..] == [];
      AtEof(all, done, current, part, rest, one);
  }

  /** The line so far with one more part, unless that makes it too long. */
  method TakePart(line: string, oversized: bool, part: string, ghost current: string, max: int)
    returns (line': string, oversized': bool)
    requires oversized <==> |current| > max
    requires !oversized ==> line == current
    ensures oversized' <==> |current + part| > max
    ensures !oversized' ==> line' == current + part
  {
    line', oversized' := line, oversized;
    if |part| > 0 && !oversized {
      if |line| + |part| > max {
        oversized' := true;
        line' := "";
      } else {
        line' := line + part;
      }
    }
  }

  /** The end of a line: counted if it was too long, visited if it is not blank. */
  method FinishLine(line: string, oversized: bool, visited: seq<string>, malformed: nat, ghost raw: string, ghost max: int)
    returns (visited': seq<string>, malformed': nat)
    requires oversized <==> |raw| > max
    requires !oversized ==> line == raw
    ensures Outcome(visited', malformed') == Then(Outcome(visited, malformed), LineReader(max)(raw))
  {
    assert visited + [] == visited;
    if oversized {
      return visited, malformed + 1;
    }
    var text := TrimLineEnd(line);
    if |Text.TrimSpace(text)| > 0 {
      return visited + [text], malformed;
    }
    return visited, malformed;
  }

  lemma NothingDone(all: Outcome, data: string, one: string -> Outcome)
    requires all == Reading(Lines(data), one)
    ensures OnCourse(all, Outcome([], 0), "", data, ShardReader(one))
  {
    assert "" + data == data;
    assert [] + all.visited == all.visited;
  }

  /**
   * Visits the lines of a shard: exactly the non-blank ones within the limit, counting exactly the
   * longer ones, however the buffer splits the data.
   */
  method ReadLogLines(parts: seq<Part>, maxEntryBytes: int) returns (visited: seq<string>, malformed: nat)
    requires Chunks(parts)
    ensures Outcome(visited, malformed) == Reading(Lines(Joined(parts)), LineReader(MaxLineBytes(maxEntryBytes)))
  {
    var max := MaxLineBytes(maxEntryBytes);
    ghost var one := LineReader(max);
    ghost var all := Reading(Lines(Joined(parts)), one);
    ghost var current := "";
    var line := "";
    var oversized := false;
    visited, malformed := [], 0;
    var k := 0;
    assert parts[0..] == parts;
    NothingDone(all, Joined(parts), one);
    while true
      invariant 0 <= k < |parts|
      invariant OnCourseAt(all, Outcome(visited, malformed), current, parts, k, one)
      invariant oversized <==> |current| > max
      invariant !oversized ==> line == current
      decreases |parts| - k
    {
      var part, end := parts[k].bytes, parts[k].end;
      AfterPart(all, Outcome(visited, malformed), current, parts, k, one);
      line, oversized := TakePart(line, oversized, part, current, max);
      current := current + part;
      if end == Full {
        k := k + 1;
        continue;
      }
      visited, malformed := FinishLine(line, oversized, visited, malformed, current, max);
      oversized := false;
      line := "";
      current := "";
      if end == Eof {
        break;
      }
      k := k + 1;
    }
  }

  // ----- reading back what was written

  function Written(payloads: seq<string>): string {
    if payloads == [] then "" else payloads[0] + "\n" + Written(payloads[1..])
  }

  /** A payload the store writes: one line, not blank, not ending in a carriage return. */
  predicate Loggable(payload: string) {
    && '\n' !in payload
    && !Blank(payload)
    && payload != "" && payload[|payload| - 1] != '\r'
  }

  lemma WrittenAppend(payloads: seq<string>, p: string)
    ensures Written(payloads + [p]) == Written(payloads) + p + "\n"
  {
    var all := payloads + [p];
    if payloads == [] {
      assert all[1..] == [];
    } else {
      WrittenAppend(payloads[1..], p);
      assert all[1..] == payloads[1..] + [p];
    }
  }

  lemma OneWritten(payload: string, max: int)
    requires Loggable(payload) && |payload| + 1 <= max
    ensures OneLine(payload + "\n", max) == Outcome([payload], 0)
  {
    var raw := payload + "\n";
    assert raw[..|raw| - 1] == payload;
    assert payload[|payload| - 1] in payload;
    assert TrimLineEnd(payload) == payload;
  }

  lemma WrittenLines(p: string, rest: string)
    requires '\n' !in p
    ensures Lines(p + "\n" + rest) == [p + "\n"] + Lines(rest)
  {
    assert Text.NewlineAt("\n") == 0;
    NewlineAfter(p, "\n");
    EmptyFront(p + "\n");
    LineCompleted("", p + "\n", rest);
  }

  lemma EmptyLine(line: string, max: int)
    requires max > 0 && |line| == 0
    ensures LineReader(max)(line) == Outcome([], 0)
  {
  }

  lemma OnlyLine(data: string, one: string -> Outcome)
    requires |data| == 0 && one(data) == Outcome([], 0)
    ensures Reading(Lines(data), one) == Outcome([], 0)
  {
    assert Lines(data) == [data] + [];
    ReadingCons(data, [], one);
  }

  lemma NothingWritten(data: string, max: int)
    requires max > 0 && |data| == 0
    ensures Reading(Lines(data), LineReader(max)) == Outcome([], 0)
  {
    EmptyLine(data, max);
    OnlyLine(data, LineReader(max));
  }

  lemma OneMoreWritten(p: string, rest: string, tail: seq<string>, max: int)
    requires Loggable(p) && |p| < max
    requires Reading(Lines(rest), LineReader(max)) == Outcome(tail, 0)
    ensures Reading(Lines(p + "\n" + rest), LineReader(max)) == Outcome([p] + tail, 0)
  {
    WrittenLines(p, rest);
    ReadingCons(p + "\n", Lines(rest), LineReader(max));
    OneWritten(p, max);
  }

  lemma {:induction false} WrittenReads(payloads: seq<string>, max: int)
    requires max > 0
    requires forall i :: 0 <= i < |payloads| ==> Loggable(payloads[i]) && |payloads[i]| < max
    ensures Reading(Lines(Written(payloads)), LineReader(max)) == Outcome(payloads, 0)
  {
    if payloads == [] {
      NothingWritten("", max);
    } else {
      WrittenReads(payloads[1..], max);
      OneMoreWritten(payloads[0], Written(payloads[1..]), payloads[1..], max);
      assert payloads == [payloads[0]] + payloads[1..];
    }
  }

  /** Every sequence of accepted payloads is read back in order, with none malformed, through any buffer. */
  method ReadBackWritten(ghost payloads: seq<string>, parts: seq<Part>, maxEntryBytes: int)
    returns (visited: seq<string>, malformed: nat)
    requires 0 < maxEntryBytes
    requires forall i :: 0 <= i < |payloads| ==>
      Loggable(payloads[i]) && |payloads[i]| <= maxEntryBytes && |payloads[i]| < MAX_INT
    requires Chunks(parts) && Joined(parts) == Written(payloads)
    ensures visited == payloads && malformed == 0
  {
    WrittenReads(payloads, MaxLineBytes(maxEntryBytes));
    visited, malformed := ReadLogLines(parts, maxEntryBytes);
  }
}
