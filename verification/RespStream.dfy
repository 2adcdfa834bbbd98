/** The protocol's reader over a buffered stream and its writer into a buffer. */
module RespStream {
  import opened Wrappers
  import opened Decimal
  import opened Resp
  import opened Text

  /** A reader's result, and what it leaves, are those of the parse. */
  ghost predicate Agrees<T(!new)>(parsed: Result<Parsed<T>, Error>, r: Result<T, Error>, remaining: string) {
    match parsed
    case Ok(p) => r == Ok(p.value) && remaining == p.rest
    case Err(e) => r == Err(e)
  }

  class Reader {
    const data: string
    var pos: nat

    ghost predicate Valid()
      reads this
    {
      pos <= |data|
    }

    ghost function Remaining(): string
      reads this
      requires Valid()
    {
      data[pos..]
    }

    constructor (data: string)
      ensures Valid() && Remaining() == data
    {
      this.data := data;
      pos := 0;
    }

    method ReadByte() returns (r: Result<char, Error>)
      requires Valid()
      modifies this
      ensures Valid()
      ensures old(Remaining()) == "" ==> r == Err(Eof) && Remaining() == ""
      ensures old(Remaining()) != "" ==> r == Ok(old(Remaining())[0]) && Remaining() == old(Remaining())[1..]
    {
      if pos == |data| {
        return Err(Eof);
      }
      r := Ok(data[pos]);
      pos := pos + 1;
    }

    /** The bytes up to the next newline, which is consumed; an error if there is none. */
    method ReadToNewline() returns (r: Result<string, Error>)
      requires Valid()
      modifies this
      ensures Valid()
      ensures var input := old(Remaining());
              var i := NewlineAt(input);
              if i < |input| then r == Ok(input[..i]) && Remaining() == input[i + 1..] else r == Err(Eof)
    {
      var line := "";
      while pos < |data| && data[pos] != '\n'
        invariant old(pos) <= pos <= |data|
        invariant line == data[old(pos)..pos] && '\n' !in line
      {
        line := line + [data[pos]];
        pos := pos + 1;
      }
      LineEnds(data, old(pos), line);
      if pos == |data| {
        return Err(Eof);
      }
      pos := pos + 1;
      return Ok(line);
    }

    /** The bytes read end at the next newline of what remained, or there is none. */
    static lemma LineEnds(s: string, p: nat, line: string)
      requires p + |line| <= |s| && line == s[p..p + |line|] && '\n' !in line
      requires p + |line| == |s| || s[p + |line|] == '\n'
      ensures var input := s[p..]; var i := NewlineAt(input);
        if p + |line| == |s| then i == |input|
        else i < |input| && input[..i] == line && input[i + 1..] == s[p + |line| + 1..]
    {
      NewlineIs(s, p, line);
      Slices(s, p, |line|);
      if p + |line| < |s| {
        Slices(s, p, |line| + 1);
      }
    }

    static lemma NewlineIs(s: string, p: nat, line: string)
      requires p + |line| <= |s| && line == s[p..p + |line|] && '\n' !in line
      requires p + |line| == |s| || s[p + |line|] == '\n'
      ensures NewlineAt(s[p..]) == |line|
    {
      var input := s[p..];
      var i := NewlineAt(input);
      assert forall k :: 0 <= k < |line| ==> input[k] == line[k];
      assert |line| < |input| ==> input[|line|] == '\n';
    }

    static lemma Slices(s: string, p: nat, n: nat)
      requires p + n <= |s|
      ensures s[p..][..n] == s[p..p + n] && s[p..][n..] == s[p + n..]
    {
    }

    method ReadRESPLine() returns (r: Result<string, Error>)
      requires Valid()
      modifies this
      ensures Valid() && Agrees(Line(old(Remaining())), r, Remaining())
    {
      var line := ReadToNewline();
      if line.Err? {
        return line;
      }
      var text := line.value;
      if |text| > 0 && text[|text| - 1] == '\r' {
        text := text[..|text| - 1];
      }
      return Ok(text);
    }

    /** Exactly `n` bytes, or an error saying whether any were there. */
    method ReadFull(n: nat) returns (r: Result<string, Error>)
      requires Valid()
      modifies this
      ensures Valid()
      ensures |old(Remaining())| >= n ==> r == Ok(old(Remaining())[..n]) && Remaining() == old(Remaining())[n..]
      ensures |old(Remaining())| < n ==> r == Err(if old(Remaining()) == "" then Eof else UnexpectedEof)
    {
      if |data| - pos < n {
        r := Err(if pos == |data| then Eof else UnexpectedEof);
        pos := |data|;
        return;
      }
      Slices(data, pos, n);
      r := Ok(data[pos..pos + n]);
      pos := pos + n;
    }

    method ReadRESPBulkString() returns (r: Result<string, Error>)
      requires Valid()
      modifies this
      ensures Valid() && Agrees(Bulk(old(Remaining())), r, Remaining())
    {
      var line := ReadRESPLine();
      if line.Err? {
        return line;
      }
      ghost var rest := Remaining();
      var length := Atoi(line.value);
      if length.None? {
        return Err(ProtocolError);
      }
      if length.value < 0 {
        return Ok("");
      }
      var n := length.value;
      var buf := ReadFull(n + 2);
      if buf.Err? {
        return buf;
      }
      assert buf.value == rest[..n + 2];
      if buf.value[n] != '\r' || buf.value[n + 1] != '\n' {
        return Err(ProtocolError);
      }
      assert buf.value[..n] == rest[..n];
      return Ok(buf.value[..n]);
    }

    method ReadRESPString() returns (r: Result<string, Error>)
      requires Valid()
      modifies this
      ensures Valid() && Agrees(Element(old(Remaining())), r, Remaining())
    {
      var prefix := ReadByte();
      if prefix.Err? {
        return Err(prefix.error);
      }
      if prefix.value == '$' {
        r := ReadRESPBulkString();
      } else if prefix.value == '+' || prefix.value == ':' {
        r := ReadRESPLine();
      } else {
        return Err(ProtocolError);
      }
    }

    method ReadRESPArray() returns (r: Result<seq<string>, Error>)
      requires Valid()
      modifies this
      ensures Valid() && Agrees(Array(old(Remaining())), r, Remaining())
    {
      var prefix := ReadByte();
      if prefix.Err? {
        return Err(prefix.error);
      }
      if prefix.value != '*' {
        return Err(ProtocolError);
      }
      var line := ReadRESPLine();
      if line.Err? {
        return Err(line.error);
      }
      var count := Atoi(line.value);
      if count.None? || count.value < 0 {
        return Err(ProtocolError);
      }
      r := ReadElements(count.value);
    }

    /** The loop over the elements of an array. */
    method ReadElements(count: nat) returns (r: Result<seq<string>, Error>)
      requires Valid()
      modifies this
      ensures Valid() && Agrees(Elements(count, old(Remaining())), r, Remaining())
    {
      ghost var input := Remaining();
      var args := [];
      for i := 0 to count
        invariant Valid() && Elements(i, input) == Ok(Parsed(args, Remaining()))
      {
        var value := ReadRESPString();
        if value.Err? {
          FailsLater(i + 1, count, input);
          return Err(value.error);
        }
        args := args + [value.value];
      }
      return Ok(args);
    }
  }

  /** An element that does not parse fails the whole array with the same error. */
  lemma {:induction false} FailsLater(i: nat, count: nat, input: string)
    requires i <= count && Elements(i, input).Err?
    ensures Elements(count, input) == Err(Elements(i, input).error)
  {
    if i < count {
      FailsLater(i, count - 1, input);
    }
  }

  class Writer {
    var out: string

    constructor ()
      ensures out == ""
    {
      out := "";
    }

    method WriteString(s: string)
      modifies this
      ensures out == old(out) + s
    {
      out := out + s;
    }

    method WriteBulkString(payload: Option<string>)
      modifies this
      ensures out == old(out) + WriteBulk(payload)
    {
      if payload.None? {
        WriteString("$-1\r\n");
        return;
      }
      WriteString("$" + Itoa(|payload.value|) + "\r\n");
      WriteString(payload.value);
      WriteString("\r\n");
    }

    method WriteArrayOfBulkStrings(items: seq<Option<string>>)
      modifies this
      ensures out == old(out) + WriteArray(items)
    {
      WriteString("*" + Itoa(|items|) + "\r\n");
      ghost var header := out;
      for i := 0 to |items|
        invariant out == header + WriteBulks(items[..i])
      {
        assert items[..i + 1][..i] == items[..i];
        WriteBulkString(items[i]);
        Assoc(header, WriteBulks(items[..i]), WriteBulk(items[i]));
      }
      assert items[..|items|] == items;
      Assoc(old(out), WriteHeader(|items|), WriteBulks(items));
    }

    static lemma Assoc(a: string, b: string, c: string)
      ensures (a + b) + c == a + (b + c)
    {
    }
  }

  /** What the writer emits, the reader gives back, leaving what follows. */
  method Exchange(items: seq<Option<string>>, rest: string) returns (args: Result<seq<string>, Error>, left: string)
    requires Representable(items)
    ensures args == Ok(ReadBack(items)) && left == rest
  {
    var writer := new Writer();
    writer.WriteArrayOfBulkStrings(items);
    var reader := new Reader(writer.out + rest);
    ArrayRoundTrip(items, rest);
    assert writer.out == WriteArray(items);
    args := reader.ReadRESPArray();
    left := reader.data[reader.pos..];
  }
}
