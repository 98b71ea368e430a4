/**
 The window before `initialize` in src/handshake.rs: answer or drop what comes
 first, then hand the stream on with every unread byte still in it. Parsing and
 encoding JSON text are parameters.
 */
module Handshake {
  import opened Wrappers
  import opened JsonValue

  type Byte = b: int | 0 <= b < 256

  const NEWLINE: Byte := 10
  /** Method not found: section 5.1 of the JSON-RPC 2.0 specification. */
  const METHOD_NOT_FOUND: int := -32601
  /** The most that one read of a buffered reader asks for. */
  const CAPACITY: nat := 8192

  // --- One message ----------------------------------------------------------

  datatype Probe = Serve | Answer(reply: Json) | Ignore

  function Reply(id: Json, field: string, value: Json): Json {
    Object(map["jsonrpc" := Str("2.0"), "id" := id, field := value])
  }

  /** The method of a message, if it has one. */
  function Method(message: Option<Json>): Option<string> {
    if message.None? then None
    else
      match Field(message.value, "method")
      case Some(Str(text)) => Some(text)
      case _ => None
  }

  /** The identifier of a message; null counts as none. */
  function Id(message: Json): Option<Json> {
    match Field(message, "id")
    case Some(id) => if id.Null? then None else Some(id)
    case None => None
  }

  /** What to do with one message that came before `initialize`. */
  function Classify(message: Option<Json>): Probe {
    match Method(message)
    case None => Serve
    case Some(name) =>
      var id := Id(message.value);
      if name == "initialize" then Serve
      else if id.None? then Ignore
      else if name == "ping" then Answer(Reply(id.value, "result", Object(map[])))
      else
        Answer(Reply(id.value, "error",
                     Object(map["code" := Num(METHOD_NOT_FOUND), "message" := Str("Method not found: " + name)])))
  }

  /** A response in the sense of section 5 of JSON-RPC 2.0: the version, the id, and either a result or an error. */
  predicate IsResponseTo(reply: Json, id: Json) {
    && Field(reply, "jsonrpc") == Some(Str("2.0")) && Field(reply, "id") == Some(id)
    && (Field(reply, "result").Some? <==> Field(reply, "error").None?)
  }

  /**
   A message is answered exactly when it is a request, other than `initialize`:
   it has a method and an identifier. The answer is a response to that identifier;
   a ping gets a result, and everything else the code for an unknown method.
   */
  lemma AnswersAreResponses(message: Option<Json>)
    ensures Classify(message).Answer? <==>
              Method(message).Some? && Method(message) != Some("initialize") && Id(message.value).Some?
    ensures Classify(message).Answer? ==>
              var reply := Classify(message).reply;
              && IsResponseTo(reply, Id(message.value).value)
              && (Field(reply, "result").Some? <==> Method(message) == Some("ping"))
              && (Field(reply, "error").Some? ==>
                    Field(Field(reply, "error").value, "code") == Some(Num(METHOD_NOT_FOUND)))
    ensures Classify(message).Ignore? <==>
              Method(message).Some? && Method(message) != Some("initialize") && Id(message.value).None?
  {
    if Classify(message).Answer? {
      assert "result" != "error" && "result" != "id" && "error" != "id" && "jsonrpc" != "id" && "jsonrpc" != "result"
          && "jsonrpc" != "error" by {
        assert |"result"| == 6 && |"error"| == 5 && |"id"| == 2 && |"jsonrpc"| == 7;
      }
      assert "code" != "message" by {
        assert |"code"| == 4 && |"message"| == 7;
      }
    }
  }

  /** The message is an object whose method is this text. */
  predicate Calls(message: Json, name: string) {
    message.Object? && "method" in message.fields && message.fields["method"] == Str(name)
  }

  predicate Asks(message: Json, id: Json) {
    message.Object? && "id" in message.fields && message.fields["id"] == id && id != Null
  }

  /**
   What each message gets, by its fields: whatever does not parse or names no
   method is served, and so is `initialize`; a notification is dropped; a ping is
   answered with an empty result, and any other request with the error that tells
   the client to fall back.
   */
  lemma EveryMessageDecides(message: Option<Json>, name: string, id: Json)
    ensures message.None? || (forall n :: !Calls(message.value, n)) ==> Classify(message) == Serve
    ensures message.Some? && Calls(message.value, "initialize") ==> Classify(message) == Serve
    ensures message.Some? && Calls(message.value, name) && name != "initialize" && (forall i :: !Asks(message.value, i)) ==>
              Classify(message) == Ignore
    ensures message.Some? && Calls(message.value, "ping") && Asks(message.value, id) ==>
              Classify(message) == Answer(Object(map["jsonrpc" := Str("2.0"), "id" := id, "result" := Object(map[])]))
    ensures message.Some? && Calls(message.value, name) && name != "initialize" && name != "ping" && Asks(message.value, id) ==>
              Classify(message) == Answer(Object(map["jsonrpc" := Str("2.0"), "id" := id, "error" := Object(map[
                "code" := Num(-32601), "message" := Str("Method not found: " + name)])]))
  {
    if message.Some? {
      if Method(message).Some? {
        assert Calls(message.value, Method(message).value);
      }
      if Id(message.value).Some? {
        assert Asks(message.value, Id(message.value).value);
      }
      assert |"initialize"| == 10 && |"ping"| == 4;
    }
  }

  // --- Lines ----------------------------------------------------------------

  /** Where the first line ends: behind its newline, or where the bytes end. */
  function LineEnd(bytes: seq<Byte>): (n: nat)
    ensures n <= |bytes| && (bytes != [] ==> n > 0)
  {
    if bytes == [] then 0
    else if bytes[0] == NEWLINE then 1
    else 1 + LineEnd(bytes[1..])
  }

  function FirstLine(bytes: seq<Byte>): seq<Byte> {
    bytes[..LineEnd(bytes)]
  }

  predicate NoNewline(bytes: seq<Byte>) {
    forall i | 0 <= i < |bytes| :: bytes[i] != NEWLINE
  }

  lemma {:induction false} LineEndSkips(head: seq<Byte>, tail: seq<Byte>)
    requires NoNewline(head)
    ensures LineEnd(head + tail) == |head| + LineEnd(tail)
  {
    if head == [] {
      assert head + tail == tail;
    } else {
      assert (head + tail)[1..] == head[1..] + tail;
      LineEndSkips(head[1..], tail);
    }
  }

  /** A line ends with the first line feed, or with the stream. */
  lemma {:induction false} LineEndsAtTheFirstNewline(bytes: seq<Byte>)
    ensures forall i | 0 <= i < LineEnd(bytes) - 1 :: bytes[i] != 10
    ensures LineEnd(bytes) == |bytes| || (0 < LineEnd(bytes) && bytes[LineEnd(bytes) - 1] == 10)
    ensures LineEnd(bytes) == 0 <==> bytes == []
  {
    if bytes != [] && bytes[0] != 10 {
      LineEndsAtTheFirstNewline(bytes[1..]);
      assert forall i | 0 < i < |bytes| :: bytes[i] == bytes[1..][i - 1];
    }
  }

  // --- The reader ------------------------------------------------------------

  /** A buffered reader over a stream that gives its bytes in pieces of any size. */
  class BufReader {
    var buffer: seq<Byte>
    var stream: seq<Byte>
    var fills: nat
    const sizes: nat -> nat

    constructor (stream: seq<Byte>, sizes: nat -> nat)
      ensures this.stream == stream && buffer == [] && this.sizes == sizes
    {
      this.stream, this.sizes := stream, sizes;
      buffer, fills := [], 0;
    }

    /** Everything not yet consumed. */
    function Remaining(): seq<Byte>
      reads this
    {
      buffer + stream
    }

    /** Read once if nothing is buffered; nothing buffered afterwards means the stream has ended. */
    method Fill()
      modifies this
      ensures Remaining() == old(Remaining())
      ensures buffer == [] <==> Remaining() == []
    {
      if buffer == [] {
        var n := if sizes(fills) == 0 then 1 else sizes(fills);
        var most := if n < CAPACITY then n else CAPACITY;
        var k := if most < |stream| then most else |stream|;
        buffer, stream, fills := stream[..k], stream[k..], fills + 1;
      }
    }

    method FindNewline() returns (n: Option<nat>)
      ensures n.None? ==> NoNewline(buffer)
      ensures n.Some? ==> n.value < |buffer| && buffer[n.value] == NEWLINE && NoNewline(buffer[..n.value])
    {
      for i := 0 to |buffer|
        invariant NoNewline(buffer[..i])
      {
        if buffer[i] == NEWLINE {
          return Some(i);
        }
        assert buffer[..i + 1] == buffer[..i] + [buffer[i]];
      }
      assert buffer[..|buffer|] == buffer;
      return None;
    }

    /** Take the first bytes out of the buffer. */
    method Consume(n: nat) returns (head: seq<Byte>)
      requires n <= |buffer|
      modifies this`buffer
      ensures head == old(buffer)[..n] && buffer == old(buffer)[n..]
      ensures head + Remaining() == old(Remaining())
    {
      head := buffer[..n];
      buffer := buffer[n..];
    }

    /** Read one line, or what is left of the stream. */
    method ReadLine() returns (line: seq<Byte>)
      modifies this
      ensures line == FirstLine(old(Remaining()))
      ensures line + Remaining() == old(Remaining())
    {
      line := [];
      ghost var all := Remaining();
      while true
        invariant line + Remaining() == all && NoNewline(line)
        decreases |Remaining()|
      {
        Fill();
        ghost var rest := Remaining();
        if buffer == [] {
          LineIsRest(line, rest);
          return;
        }
        var newline := FindNewline();
        var head := Consume(if newline.Some? then newline.value + 1 else |buffer|);
        JoinTwice(line, head, Remaining(), rest);
        if newline.Some? {
          LineIsComplete(line, head, Remaining());
          return line + head;
        }
        line := line + head;
      }
    }
  }

  lemma JoinTwice(a: seq<Byte>, b: seq<Byte>, c: seq<Byte>, bc: seq<Byte>)
    requires b + c == bc
    ensures a + bc == (a + b) + c
  {}

  lemma LineIsRest(line: seq<Byte>, rest: seq<Byte>)
    requires NoNewline(line) && rest == []
    ensures FirstLine(line + rest) == line && line + rest == line
  {
    LineEndSkips(line, rest);
  }

  lemma LineIsComplete(line: seq<Byte>, head: seq<Byte>, rest: seq<Byte>)
    requires NoNewline(line) && |head| > 0 && head[|head| - 1] == NEWLINE && NoNewline(head[..|head| - 1])
    ensures FirstLine((line + head) + rest) == line + head
  {
    var before := line + head[..|head| - 1];
    LineEndSkips(before, [NEWLINE] + rest);
    assert before + ([NEWLINE] + rest) == (line + head) + rest;
  }

  // --- The window ------------------------------------------------------------

  /** How bytes are read as JSON, and how JSON is written. */
  datatype Codec = Codec(parse: seq<Byte> -> Option<Json>, encode: Json -> seq<Byte>) {
    function Probe(line: seq<Byte>): Probe {
      Classify(parse(line))
    }
  }

  /** The lines taken before the first one to serve. */
  function TakenLines(codec: Codec, input: seq<Byte>): seq<seq<Byte>>
    decreases |input|
  {
    if input == [] || codec.Probe(FirstLine(input)).Serve? then []
    else [FirstLine(input)] + TakenLines(codec, input[LineEnd(input)..])
  }

  /** The bytes from the first line to serve on. */
  function Served(codec: Codec, input: seq<Byte>): seq<Byte>
    decreases |input|
  {
    if input == [] || codec.Probe(FirstLine(input)).Serve? then input
    else Served(codec, input[LineEnd(input)..])
  }

  /** What is written for a line. */
  function Written(codec: Codec, line: seq<Byte>): seq<Byte> {
    var probe := codec.Probe(line);
    if probe.Answer? then codec.encode(probe.reply) + [NEWLINE] else []
  }

  function AllWritten(codec: Codec, lines: seq<seq<Byte>>): seq<Byte> {
    if lines == [] then [] else Written(codec, lines[0]) + AllWritten(codec, lines[1..])
  }

  function Joined(lines: seq<seq<Byte>>): seq<Byte> {
    if lines == [] then [] else lines[0] + Joined(lines[1..])
  }

  /** Some lines of the input are answered, and what remains decides the rest. */
  ghost predicate Progress(codec: Codec, input: seq<Byte>, here: seq<Byte>, written: seq<Byte>) {
    && Served(codec, input) == Served(codec, here)
    && AllWritten(codec, TakenLines(codec, input)) == written + AllWritten(codec, TakenLines(codec, here))
  }

  ghost predicate Finished(codec: Codec, input: seq<Byte>, handedOn: seq<Byte>, written: seq<Byte>) {
    handedOn == Served(codec, input) && written == AllWritten(codec, TakenLines(codec, input))
  }

  lemma Begins(codec: Codec, input: seq<Byte>)
    ensures Progress(codec, input, input, [])
  {}

  lemma LineServed(codec: Codec, input: seq<Byte>, here: seq<Byte>, written: seq<Byte>)
    requires Progress(codec, input, here, written) && (here == [] || codec.Probe(FirstLine(here)).Serve?)
    ensures Finished(codec, input, here, written)
  {}

  /** Taking a line leaves the rest to the following ones. */
  lemma LineTaken(codec: Codec, input: seq<Byte>, here: seq<Byte>, line: seq<Byte>, rest: seq<Byte>, written: seq<Byte>)
    requires Progress(codec, input, here, written)
    requires line == FirstLine(here) && line + rest == here && here != [] && !codec.Probe(line).Serve?
    ensures Progress(codec, input, rest, written + Written(codec, line))
  {
    assert here[LineEnd(here)..] == rest;
    assert TakenLines(codec, here) == [line] + TakenLines(codec, rest);
    assert ([line] + TakenLines(codec, rest))[1..] == TakenLines(codec, rest);
  }

  /**
   Answer probes until the first message to serve. Whatever the pieces in which
   the bytes arrive, the stream handed on begins with that message, and the
   replies are those to the lines before it, in order.
   */
  method AnswerProbes(reader: BufReader, codec: Codec) returns (pending: seq<Byte>, written: seq<Byte>)
    modifies reader
    ensures Finished(codec, old(reader.Remaining()), pending + reader.stream, written)
  {
    pending, written := [], [];
    ghost var input := reader.Remaining();
    ghost var here := input;
    Begins(codec, input);
    while true
      invariant pending == [] && here == reader.Remaining() && Progress(codec, input, here, written)
      decreases |reader.Remaining()|
    {
      var line := reader.ReadLine();
      if line == [] {
        assert here == [];
        break;
      }
      var probe := codec.Probe(line);
      if probe.Serve? {
        pending := line;
        break;
      }
      LineTaken(codec, input, here, line, reader.Remaining(), written);
      if probe.Answer? {
        JoinTwice(written, codec.encode(probe.reply), [NEWLINE], codec.encode(probe.reply) + [NEWLINE]);
        written := written + codec.encode(probe.reply) + [NEWLINE];
      } else {
        assert written + [] == written;
      }
      here := reader.Remaining();
    }
    LineServed(codec, input, here, written);
    JoinTwice(pending, reader.buffer, reader.stream, reader.Remaining());
    pending := pending + reader.buffer;
  }

  // --- What the window promises -----------------------------------------------

  /**
   No byte is lost, changed or repeated: the lines taken and the stream handed on
   are the input; what is handed on begins with the first line to serve, or the
   stream ended first; and no line taken was one to serve.
   */
  lemma {:induction false} HandoverIsExact(codec: Codec, input: seq<Byte>)
    ensures Joined(TakenLines(codec, input)) + Served(codec, input) == input
    ensures Served(codec, input) == [] || codec.Probe(FirstLine(Served(codec, input))).Serve?
    ensures forall k | 0 <= k < |TakenLines(codec, input)| :: !codec.Probe(TakenLines(codec, input)[k]).Serve?
    decreases |input|
  {
    if input != [] && !codec.Probe(FirstLine(input)).Serve? {
      var line, rest := FirstLine(input), input[LineEnd(input)..];
      HandoverIsExact(codec, rest);
      JoinedTail(line, TakenLines(codec, rest));
      JoinTwice(line, Joined(TakenLines(codec, rest)), Served(codec, rest), rest);
    }
  }

  lemma JoinedTail(line: seq<Byte>, lines: seq<seq<Byte>>)
    ensures Joined([line] + lines) == line + Joined(lines)
  {
    assert ([line] + lines)[1..] == lines;
  }

  /** The replies that the taken lines get, in order. */
  function Replies(codec: Codec, lines: seq<seq<Byte>>): seq<Json> {
    if lines == [] then []
    else
      var probe := codec.Probe(lines[0]);
      (if probe.Answer? then [probe.reply] else []) + Replies(codec, lines[1..])
  }

  /** The requests among lines: what parses to a message with a method and an identifier. */
  function RequestIds(codec: Codec, lines: seq<seq<Byte>>): seq<Json> {
    if lines == [] then []
    else
      var message := codec.parse(lines[0]);
      (if Method(message).Some? && Id(message.value).Some? then [Id(message.value).value] else [])
      + RequestIds(codec, lines[1..])
  }

  function EncodedReplies(codec: Codec, replies: seq<Json>): seq<Byte> {
    if replies == [] then [] else codec.encode(replies[0]) + [NEWLINE] + EncodedReplies(codec, replies[1..])
  }

  /**
   There is one reply for each request among the lines taken, in their order, each
   a response to that request's identifier; and nothing else is written.
   */
  lemma {:induction false} OneReplyPerRequest(codec: Codec, lines: seq<seq<Byte>>)
    requires forall k | 0 <= k < |lines| :: !codec.Probe(lines[k]).Serve?
    ensures AllWritten(codec, lines) == EncodedReplies(codec, Replies(codec, lines))
    ensures |Replies(codec, lines)| == |RequestIds(codec, lines)|
    ensures forall k | 0 <= k < |Replies(codec, lines)| :: IsResponseTo(Replies(codec, lines)[k], RequestIds(codec, lines)[k])
  {
    if lines != [] {
      OneReplyPerRequest(codec, lines[1..]);
      AnswersAreResponses(codec.parse(lines[0]));
      var probe := codec.Probe(lines[0]);
      if probe.Answer? {
        assert Replies(codec, lines)[1..] == Replies(codec, lines[1..]);
        var reply, id := probe.reply, Id(codec.parse(lines[0]).value).value;
        assert Replies(codec, lines) == [reply] + Replies(codec, lines[1..]);
        assert RequestIds(codec, lines) == [id] + RequestIds(codec, lines[1..]);
      } else {
        assert Replies(codec, lines) == Replies(codec, lines[1..]);
        assert RequestIds(codec, lines) == RequestIds(codec, lines[1..]);
      }
    }
  }
}
