/** The serialization protocol of the usage endpoint: what is written parses back. */
module Resp {
  import opened Wrappers
  import opened Decimal
  import opened Text

  datatype Error = Eof | UnexpectedEof | ProtocolError

  /** A parsed value and the input left after it. */
  datatype Parsed<T> = Parsed(value: T, rest: string)

  // ----- parsing

  function StripCR(line: string): string {
    if line != "" && line[|line| - 1] == '\r' then line[..|line| - 1] else line
  }

  /** A line up to its newline, without the carriage return before it. */
  function Line(input: string): Result<Parsed<string>, Error> {
    var i := NewlineAt(input);
    if i == |input| then Err(Eof) else Ok(Parsed(StripCR(input[..i]), input[i + 1..]))
  }

  function Bulk(input: string): Result<Parsed<string>, Error> {
    match Line(input)
    case Err(e) => Err(e)
    case Ok(Parsed(line, rest)) =>
      match Atoi(line)
      case None => Err(ProtocolError)
      case Some(length) =>
        if length < 0 then Ok(Parsed("", rest))
        else if |rest| < length + 2 then Err(if rest == "" then Eof else UnexpectedEof)
        else if rest[length] != '\r' || rest[length + 1] != '\n' then Err(ProtocolError)
        else Ok(Parsed(rest[..length], rest[length + 2..]))
  }

  function Element(input: string): Result<Parsed<string>, Error> {
    if input == "" then Err(Eof)
    else if input[0] == '$' then Bulk(input[1..])
    else if input[0] == '+' || input[0] == ':' then Line(input[1..])
    else Err(ProtocolError)
  }

  function Elements(count: nat, input: string): Result<Parsed<seq<string>>, Error> {
    if count == 0 then Ok(Parsed([], input))
    else
      match Elements(count - 1, input)
      case Err(e) => Err(e)
      case Ok(Parsed(values, rest)) =>
        match Element(rest)
        case Err(e) => Err(e)
        case Ok(Parsed(value, left)) => Ok(Parsed(values + [value], left))
  }

  function Array(input: string): Result<Parsed<seq<string>>, Error> {
    if input == "" then Err(Eof)
    else if input[0] != '*' then Err(ProtocolError)
    else
      match Line(input[1..])
      case Err(e) => Err(e)
      case Ok(Parsed(line, rest)) =>
        match Atoi(line)
        case None => Err(ProtocolError)
        case Some(count) => if count < 0 then Err(ProtocolError) else Elements(count, rest)
  }

  /** Commands sent back to back, parsed one by one. */
  function Commands(count: nat, input: string): Result<Parsed<seq<seq<string>>>, Error> {
    if count == 0 then Ok(Parsed([], input))
    else
      match Array(input)
      case Err(e) => Err(e)
      case Ok(Parsed(command, rest)) =>
        match Commands(count - 1, rest)
        case Err(e) => Err(e)
        case Ok(Parsed(commands, left)) => Ok(Parsed([command] + commands, left))
  }

  // ----- writing

  const CRLF := "\r\n"

  function WriteBulk(payload: Option<string>): string {
    match payload
    case None => "$-1" + CRLF
    case Some(p) => "$" + Itoa(|p|) + CRLF + p + CRLF
  }

  function WriteBulks(items: seq<Option<string>>): string {
    if items == [] then "" else WriteBulks(items[..|items| - 1]) + WriteBulk(items[|items| - 1])
  }

  function WriteHeader(count: nat): string {
    "*" + Itoa(count) + CRLF
  }

  function WriteArray(items: seq<Option<string>>): string {
    WriteHeader(|items|) + WriteBulks(items)
  }

  function WriteInteger(n: int): string {
    ":" + Itoa(n) + CRLF
  }

  /** The reply to a subscribe or unsubscribe. */
  function WriteSubscription(kind: string, channel: string, count: int): string {
    WriteHeader(3) + WriteBulk(Some(kind)) + WriteBulk(Some(channel)) + WriteInteger(count)
  }

  function WriteCommands(commands: seq<seq<Option<string>>>): string {
    if commands == [] then "" else WriteArray(commands[0]) + WriteCommands(commands[1..])
  }

  /** What a payload reads back as: an absent one is read as an empty string. */
  function ReadBack(items: seq<Option<string>>): seq<string> {
    if items == [] then []
    else
      var last := items[|items| - 1];
      ReadBack(items[..|items| - 1]) + [if last.Some? then last.value else ""]
  }

  /** Lengths a machine integer can hold. */
  ghost predicate Representable(items: seq<Option<string>>) {
    |items| <= MAX_INT && forall i :: 0 <= i < |items| && items[i].Some? ==> |items[i].value| <= MAX_INT
  }

  // ----- round trips

  lemma {:induction false} NewlineAfter(line: string, rest: string)
    requires '\n' !in line
    ensures NewlineAt(line + "\n" + rest) == |line|
  {
    var input := line + "\n" + rest;
    assert input[|line|] == '\n';
    assert forall k :: 0 <= k < |line| ==> input[k] == line[k];
  }

  lemma LineOfWritten(line: string, rest: string)
    requires '\n' !in line
    ensures Line(line + CRLF + rest) == Ok(Parsed(line, rest))
  {
    var full := line + "\r";
    assert line + CRLF + rest == full + "\n" + rest;
    NewlineAfter(full, rest);
    assert (full + "\n" + rest)[..|full|] == full;
    assert (full + "\n" + rest)[|full| + 1..] == rest;
  }

  lemma NumberLine(n: int, rest: string)
    requires -MAX_INT - 1 <= n <= MAX_INT
    ensures Line(Itoa(n) + CRLF + rest) == Ok(Parsed(Itoa(n), rest)) && Atoi(Itoa(n)) == Some(n)
  {
    AtoiInvertsItoa(n);
    assert '\n' !in Itoa(n);
    LineOfWritten(Itoa(n), rest);
  }

  /** A bulk string after the line that announces it. */
  lemma BulkAnnounced(input: string, number: string, n: int, tail: string)
    requires Line(input) == Ok(Parsed(number, tail)) && Atoi(number) == Some(n)
    ensures n < 0 ==> Bulk(input) == Ok(Parsed("", tail))
    ensures 0 <= n && n + 2 <= |tail| && tail[n] == '\r' && tail[n + 1] == '\n' ==>
      Bulk(input) == Ok(Parsed(tail[..n], tail[n + 2..]))
  {
  }

  lemma BulkOfNumber(number: string, p: string, rest: string)
    requires '\n' !in number && Atoi(number) == Some(|p|)
    ensures Bulk(number + CRLF + (p + CRLF + rest)) == Ok(Parsed(p, rest))
  {
    var tail := p + CRLF + rest;
    LineOfWritten(number, tail);
    assert tail[..|p|] == p;
    assert tail[|p| + 2..] == rest;
    assert tail[|p|] == '\r' && tail[|p| + 1] == '\n';
    BulkAnnounced(number + CRLF + tail, number, |p|, tail);
  }

  lemma BulkOfWritten(p: string, rest: string)
    requires |p| <= MAX_INT
    ensures Bulk(Itoa(|p|) + CRLF + (p + CRLF + rest)) == Ok(Parsed(p, rest))
  {
    AtoiInvertsItoa(|p|);
    NoNewline(|p|);
    BulkOfNumber(Itoa(|p|), p, rest);
  }

  lemma NoNewline(n: int)
    ensures '\n' !in Itoa(n)
  {
  }

  lemma NilOfNumber(number: string, rest: string)
    requires '\n' !in number && Atoi(number) == Some(-1)
    ensures Bulk(number + CRLF + rest) == Ok(Parsed("", rest))
  {
    LineOfWritten(number, rest);
    BulkAnnounced(number + CRLF + rest, number, -1, rest);
  }

  lemma MinusOne()
    ensures Itoa(-1) == "-1"
  {
    assert Digits(1) == "" + [Digit(1)];
  }

  lemma NilOfWritten(rest: string)
    ensures Bulk("-1" + CRLF + rest) == Ok(Parsed("", rest))
  {
    AtoiInvertsItoa(-1);
    MinusOne();
    NilOfNumber("-1", rest);
  }

  /** Taking the mark off a written payload. */
  lemma Unmark(mark: string, number: string, p: string, rest: string)
    requires |mark| == 1
    ensures var input := mark + number + CRLF + p + CRLF + rest;
            input[0] == mark[0] && input[1..] == number + CRLF + (p + CRLF + rest)
  {
  }

  lemma ElementOfWritten(payload: Option<string>, rest: string)
    requires payload.Some? ==> |payload.value| <= MAX_INT
    ensures Element(WriteBulk(payload) + rest) == Ok(Parsed(if payload.Some? then payload.value else "", rest))
  {
    match payload
    case None =>
      NilOfWritten(rest);
      assert (WriteBulk(None) + rest)[1..] == "-1" + CRLF + rest;
    case Some(p) => ElementOfPayload(p, rest);
  }

  lemma ElementOfPayload(p: string, rest: string)
    requires |p| <= MAX_INT
    ensures Element(WriteBulk(Some(p)) + rest) == Ok(Parsed(p, rest))
  {
    var number := Itoa(|p|);
    BulkOfWritten(p, rest);
    Unmark("$", number, p, rest);
    assert WriteBulk(Some(p)) == "$" + number + CRLF + p + CRLF;
  }

  lemma {:induction false} ElementsOfWritten(items: seq<Option<string>>, rest: string)
    requires Representable(items)
    ensures Elements(|items|, WriteBulks(items) + rest) == Ok(Parsed(ReadBack(items), rest))
  {
    if items == [] {
      assert "" + rest == rest;
    } else {
      var front := items[..|items| - 1];
      var last := WriteBulk(items[|items| - 1]);
      assert WriteBulks(items) + rest == WriteBulks(front) + (last + rest);
      ElementsOfWritten(front, last + rest);
      ElementOfWritten(items[|items| - 1], rest);
    }
  }

  lemma HeaderOfWritten(count: nat, body: string)
    requires count <= MAX_INT
    ensures Array(WriteHeader(count) + body) == Elements(count, body)
  {
    var input := WriteHeader(count) + body;
    assert input[0] == '*' && input[1..] == Itoa(count) + CRLF + body;
    NumberLine(count, body);
  }

  /** Reading a written array gives its payloads back and leaves exactly what follows it. */
  lemma ArrayRoundTrip(items: seq<Option<string>>, rest: string)
    requires Representable(items)
    ensures Array(WriteArray(items) + rest) == Ok(Parsed(ReadBack(items), rest))
  {
    assert WriteArray(items) + rest == WriteHeader(|items|) + (WriteBulks(items) + rest);
    HeaderOfWritten(|items|, WriteBulks(items) + rest);
    ElementsOfWritten(items, rest);
  }

  function ReadBackAll(commands: seq<seq<Option<string>>>): seq<seq<string>> {
    if commands == [] then [] else [ReadBack(commands[0])] + ReadBackAll(commands[1..])
  }

  /** Commands written back to back are parsed one by one, leaving exactly what follows. */
  lemma {:induction false} PipelineRoundTrip(commands: seq<seq<Option<string>>>, rest: string)
    requires forall i :: 0 <= i < |commands| ==> Representable(commands[i])
    ensures Commands(|commands|, WriteCommands(commands) + rest) == Ok(Parsed(ReadBackAll(commands), rest))
  {
    if commands == [] {
      assert "" + rest == rest;
    } else {
      var tail := WriteCommands(commands[1..]) + rest;
      assert WriteCommands(commands) + rest == WriteArray(commands[0]) + tail;
      ArrayRoundTrip(commands[0], tail);
      PipelineRoundTrip(commands[1..], rest);
    }
  }

  lemma ElementOfInteger(n: int, rest: string)
    requires -MAX_INT - 1 <= n <= MAX_INT
    ensures Element(WriteInteger(n) + rest) == Ok(Parsed(Itoa(n), rest))
  {
    var input := WriteInteger(n) + rest;
    assert input[0] == ':' && input[1..] == Itoa(n) + CRLF + rest;
    NumberLine(n, rest);
  }

  lemma OneMoreElement(n: nat, input: string, values: seq<string>, rest: string, value: string, left: string)
    requires Elements(n, input) == Ok(Parsed(values, rest)) && Element(rest) == Ok(Parsed(value, left))
    ensures Elements(n + 1, input) == Ok(Parsed(values + [value], left))
  {
  }

  lemma Regroup(header: string, a: string, b: string, c: string, rest: string)
    ensures header + a + b + c + rest == header + (a + (b + (c + rest)))
  {
  }

  /** The reply to a subscription reads back as its three parts. */
  lemma SubscriptionRoundTrip(kind: string, channel: string, count: int, rest: string)
    requires |kind| <= MAX_INT && |channel| <= MAX_INT && -MAX_INT - 1 <= count <= MAX_INT
    ensures Array(WriteSubscription(kind, channel, count) + rest) == Ok(Parsed([kind, channel, Itoa(count)], rest))
  {
    var r2 := WriteInteger(count) + rest;
    var r1 := WriteBulk(Some(channel)) + r2;
    var body := WriteBulk(Some(kind)) + r1;
    Regroup(WriteHeader(3), WriteBulk(Some(kind)), WriteBulk(Some(channel)), WriteInteger(count), rest);
    HeaderOfWritten(3, body);
    SubscriptionElements(kind, channel, count, r2, r1, body, rest);
  }

  lemma SubscriptionElements(
    kind: string, channel: string, count: int, r2: string, r1: string, body: string, rest: string)
    requires |kind| <= MAX_INT && |channel| <= MAX_INT && -MAX_INT - 1 <= count <= MAX_INT
    requires r2 == WriteInteger(count) + rest
    requires r1 == WriteBulk(Some(channel)) + r2
    requires body == WriteBulk(Some(kind)) + r1
    ensures Elements(3, body) == Ok(Parsed([kind, channel, Itoa(count)], rest))
  {
    ElementOfPayload(kind, r1);
    ElementOfPayload(channel, r2);
    ElementOfInteger(count, rest);
    ThreeElements(body, kind, r1, channel, r2, Itoa(count), rest);
  }

  lemma ThreeElements(input: string, a: string, r1: string, b: string, r2: string, c: string, r3: string)
    requires Element(input) == Ok(Parsed(a, r1)) && Element(r1) == Ok(Parsed(b, r2)) && Element(r2) == Ok(Parsed(c, r3))
    ensures Elements(3, input) == Ok(Parsed([a, b, c], r3))
  {
    OneMoreElement(0, input, [], input, a, r1);
    assert [] + [a] == [a];
    OneMoreElement(1, input, [a], r1, b, r2);
    assert [a] + [b] == [a, b];
    OneMoreElement(2, input, [a, b], r2, c, r3);
    assert [a, b] + [c] == [a, b, c];
  }

  // ----- parsing does not look past what it consumes

  lemma {:induction false} LineExtends(input: string, more: string)
    requires Line(input).Ok?
    ensures Line(input + more) == Ok(Parsed(Line(input).value.value, Line(input).value.rest + more))
  {
    var i := NewlineAt(input);
    var j := NewlineAt(input + more);
    assert (input + more)[i] == '\n';
    assert j < |input| ==> (input + more)[j] == input[j];
    assert i == j;
    assert (input + more)[..i] == input[..i];
    assert (input + more)[i + 1..] == input[i + 1..] + more;
  }

  lemma BulkExtends(input: string, input': string, line: string, n: int, rest: string, more: string)
    requires Line(input) == Ok(Parsed(line, rest)) && Line(input') == Ok(Parsed(line, rest + more))
    requires Atoi(line) == Some(n) && Bulk(input).Ok?
    ensures Bulk(input') == Ok(Parsed(Bulk(input).value.value, Bulk(input).value.rest + more))
  {
    BulkAnnounced(input, line, n, rest);
    BulkAnnounced(input', line, n, rest + more);
    if n >= 0 {
      assert (rest + more)[..n] == rest[..n];
      assert (rest + more)[n + 2..] == rest[n + 2..] + more;
    }
  }

  lemma ElementExtends(input: string, more: string)
    requires Element(input).Ok?
    ensures Element(input + more) == Ok(Parsed(Element(input).value.value, Element(input).value.rest + more))
  {
    assert (input + more)[1..] == input[1..] + more;
    LineExtends(input[1..], more);
    if input[0] == '$' {
      var Parsed(line, rest) := Line(input[1..]).value;
      BulkExtends(input[1..], input[1..] + more, line, Atoi(line).value, rest, more);
    }
  }

  lemma {:induction false} ElementsExtend(count: nat, input: string, more: string)
    requires Elements(count, input).Ok?
    ensures Elements(count, input + more)
         == Ok(Parsed(Elements(count, input).value.value, Elements(count, input).value.rest + more))
  {
    if count > 0 {
      ElementsExtend(count - 1, input, more);
      ElementExtends(Elements(count - 1, input).value.rest, more);
    }
  }

  /** A command that parses keeps its meaning whatever arrives after it. */
  lemma ArrayExtends(input: string, more: string)
    requires Array(input).Ok?
    ensures Array(input + more) == Ok(Parsed(Array(input).value.value, Array(input).value.rest + more))
  {
    assert (input + more)[1..] == input[1..] + more;
    LineExtends(input[1..], more);
    var Parsed(line, rest) := Line(input[1..]).value;
    ElementsExtend(Atoi(line).value, rest, more);
  }

  /** A command cut short is never taken for a complete one. */
  lemma CutShortIsRefused(items: seq<Option<string>>, n: nat)
    requires Representable(items) && n < |WriteArray(items)|
    ensures Array(WriteArray(items)[..n]).Err?
  {
    var cut := WriteArray(items)[..n];
    var more := WriteArray(items)[n..];
    assert cut + more == WriteArray(items) + "";
    if Array(cut).Ok? {
      ArrayExtends(cut, more);
      ArrayRoundTrip(items, "");
    }
  }
}
