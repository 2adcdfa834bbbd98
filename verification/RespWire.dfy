/** The protocol on the wire: what is written, byte by byte, and exactly what is read. */
module RespWire {
  import opened Wrappers
  import opened Decimal
  import opened Resp
  import opened Text

  // ----- what is written

  /** A payload and a missing one. */
  lemma BulksOnTheWire()
    ensures WriteBulk(Some("GET")) == "$3\r\nGET\r\n" && WriteBulk(None) == "$-1\r\n"
  {
    assert Itoa(3) == "3";
  }

  /** An array is its length and its payloads one after another; a number is a line of its own. */
  lemma ArrayOnTheWire(payload: Option<string>)
    ensures WriteArray([payload]) == "*1\r\n" + WriteBulk(payload) && WriteInteger(1) == ":1\r\n"
  {
    assert Itoa(1) == "1";
    assert [payload][..0] == [];
    assert WriteBulks([payload]) == "" + WriteBulk(payload);
  }

  // ----- what a bulk string may be

  /** `input` is a line that says `n`, and `body`. */
  ghost predicate Announces(input: string, head: string, n: int, body: string) {
    '\n' !in head && input == head + "\n" + body && Atoi(StripCR(head)) == Some(n)
  }

  /** `n` is the length of `v`, which a line end follows, or is negative for no string at all. */
  ghost predicate Holds(n: int, body: string, v: string, rest: string) {
    if n < 0 then v == "" && body == rest else |v| == n && body == v + "\r\n" + rest
  }

  lemma LineIs(head: string, body: string)
    requires '\n' !in head
    ensures Line(head + "\n" + body) == Ok(Parsed(StripCR(head), body))
  {
    var input := head + "\n" + body;
    NewlineAfter(head, body);
    assert input[..|head|] == head && input[|head| + 1..] == body;
  }

  lemma BulkOfLine(input: string, line: string, n: int, body: string, v: string, rest: string)
    requires Line(input) == Ok(Parsed(line, body)) && Atoi(line) == Some(n)
    ensures Bulk(input) == Ok(Parsed(v, rest)) <==> Holds(n, body, v, rest)
  {
    if n >= 0 && |body| >= n + 2 && body[n] == '\r' && body[n + 1] == '\n' {
      assert body == body[..n] + "\r\n" + body[n + 2..];
    }
    if n >= 0 && Holds(n, body, v, rest) {
      assert body[..n] == v && body[n + 2..] == rest && body[n] == '\r' && body[n + 1] == '\n';
    }
  }

  /** The reader accepts a bulk string exactly if it has its announced length and its line end. */
  lemma BulkIff(head: string, n: int, body: string, v: string, rest: string)
    requires Announces(head + "\n" + body, head, n, body)
    ensures Bulk(head + "\n" + body) == Ok(Parsed(v, rest)) <==> Holds(n, body, v, rest)
  {
    LineIs(head, body);
    BulkOfLine(head + "\n" + body, StripCR(head), n, body, v, rest);
  }

  /** Whatever it accepts begins with such a line. */
  lemma AcceptedBulk(input: string, v: string, rest: string) returns (head: string, n: int, body: string)
    requires Bulk(input) == Ok(Parsed(v, rest))
    ensures Announces(input, head, n, body) && Holds(n, body, v, rest)
  {
    var i := NewlineAt(input);
    head, body := input[..i], input[i + 1..];
    assert input == head + "\n" + body;
    LineIs(head, body);
    n := Atoi(StripCR(head)).value;
    BulkIff(head, n, body, v, rest);
  }

  /** A missing line and a length that is no number. */
  lemma BulkWithoutLength(head: string, body: string)
    requires '\n' !in head
    ensures Bulk(head) == Err(Eof)
    ensures Atoi(StripCR(head)) == None ==> Bulk(head + "\n" + body) == Err(ProtocolError)
  {
    LineIs(head, body);
    assert NewlineAt(head) == |head|;
  }

  /** Nothing behind the announcement, a string cut short, and a wrong end. */
  lemma BulkRefusals(input: string, line: string, n: nat, body: string)
    requires Line(input) == Ok(Parsed(line, body)) && Atoi(line) == Some(n)
    ensures body == "" ==> Bulk(input) == Err(Eof)
    ensures 0 < |body| < n + 2 ==> Bulk(input) == Err(UnexpectedEof)
    ensures |body| >= n + 2 && body[n..n + 2] != "\r\n" ==> Bulk(input) == Err(ProtocolError)
  {
    assert |body| >= n + 2 ==> body[n..n + 2] == [body[n], body[n + 1]];
  }

  // ----- elements and arrays

  /** A simple string or a number is its line; an element is marked as one of the three kinds. */
  lemma ElementMarks(line: string, rest: string, input: string)
    requires '\n' !in line
    ensures Element("+" + line + "\r\n" + rest) == Ok(Parsed(line, rest))
    ensures Element(":" + line + "\r\n" + rest) == Ok(Parsed(line, rest))
    ensures input != "" && input[0] !in "$+:" ==> Element(input) == Err(ProtocolError)
  {
    LineOfWritten(line, rest);
    assert ("+" + line + "\r\n" + rest)[1..] == line + CRLF + rest;
    assert (":" + line + "\r\n" + rest)[1..] == line + CRLF + rest;
  }

  lemma ArrayOfLine(input: string, line: string, body: string, values: seq<string>, rest: string)
    requires Array(input) == Ok(Parsed(values, rest)) && input != "" && Line(input[1..]) == Ok(Parsed(line, body))
    ensures input[0] == '*' && Atoi(line) == Some(|values|) && Elements(|values|, body) == Ok(Parsed(values, rest))
  {
    ElementCount(Atoi(line).value, body);
  }

  /** An accepted array has as many elements as its first line says. */
  lemma AcceptedArray(input: string, values: seq<string>, rest: string) returns (head: string, body: string)
    requires Array(input) == Ok(Parsed(values, rest))
    ensures input != "" && input[0] == '*' && Announces(input[1..], head, |values|, body)
    ensures Elements(|values|, body) == Ok(Parsed(values, rest))
  {
    var i := NewlineAt(input[1..]);
    head, body := input[1..][..i], input[1..][i + 1..];
    assert input[1..] == head + "\n" + body;
    LineIs(head, body);
    ArrayOfLine(input, StripCR(head), body, values, rest);
  }

  lemma {:induction false} ElementCount(count: nat, input: string)
    requires Elements(count, input).Ok?
    ensures |Elements(count, input).value.value| == count
  {
    if count > 0 {
      ElementCount(count - 1, input);
    }
  }
}
