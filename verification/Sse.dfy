/**
 * Server-sent events (sections 9.2.5 and 9.2.6 of the WHATWG HTML standard) between `pipeToSse`,
 * which writes one frame an event, and `parseSseStream`, which reads them back from whatever pieces
 * the network delivers.
 */
module Sse {
  import opened Collections
  import opened Json
  import opened JsonReader
  import opened Utf8

  // ------------------------------------------------------------------ events and frames

  datatype AssistantEvent =
    | Token(text: Text)
    | ToolCall(name: Text, args: Json)
    | ToolResult(name: Text, result: Text)
    | ConfirmationRequired(tool: Text, description: Text, args: Json)
    | LocationRequired
    | Done
    | Failure(message: Text)
  {
    function TypeName(): string {
      match this
      case Token(_) => "token"
      case ToolCall(_, _) => "tool_call"
      case ToolResult(_, _) => "tool_result"
      case ConfirmationRequired(_, _, _) => "confirmation_required"
      case LocationRequired => "location_required"
      case Done => "done"
      case Failure(_) => "error"
    }

    function Fields(): seq<Member> {
      match this
      case Token(text) => [Member(Plain("text"), String(text))]
      case ToolCall(name, args) => [Member(Plain("name"), String(name)), Member(Plain("args"), args)]
      case ToolResult(name, result) => [Member(Plain("name"), String(name)), Member(Plain("result"), String(result))]
      case ConfirmationRequired(tool, description, args) =>
        [Member(Plain("tool"), String(tool)), Member(Plain("description"), String(description)),
         Member(Plain("args"), args)]
      case LocationRequired => []
      case Done => []
      case Failure(message) => [Member(Plain("message"), String(message))]
    }

    function ToJson(): Json {
      Object([Member(Plain("type"), String(Plain(TypeName())))] + Fields())
    }
  }

  const DATA := "data: "

  /** The two lines of a frame. */
  function FrameBody(e: AssistantEvent): string {
    "event: " + e.TypeName() + "\n" + DATA + Stringify(e.ToJson())
  }

  function Frame(e: AssistantEvent): string {
    FrameBody(e) + "\n\n"
  }

  function Stream(events: seq<AssistantEvent>): string {
    if events == [] then "" else Frame(events[0]) + Stream(events[1..])
  }

  /** `pipeToSse`: the client leaves after `open` writes, if that many events come. Text goes out as UTF-8. */
  method PipeToSse(events: seq<AssistantEvent>, open: nat) returns (written: seq<Byte>)
    ensures written == Encode(Stream(if open < |events| then events[..open] else events))
  {
    written := [];
    var i := 0;
    while i < |events|
      invariant 0 <= i <= |events| && i <= open
      invariant written == Encode(Stream(events[..i]))
    {
      if i == open {
        break;
      }
      FrameWritten(events, i);
      written := written + Encode(Frame(events[i]));
      i := i + 1;
    }
    TakeAll(events);
  }

  lemma FrameWritten(events: seq<AssistantEvent>, i: nat)
    requires i < |events|
    ensures Encode(Stream(events[..i + 1])) == Encode(Stream(events[..i])) + Encode(Frame(events[i]))
  {
    StreamSnoc(events[..i], events[i]);
    NextPrefix(events, i);
    EncodeJoin(Stream(events[..i]), Frame(events[i]));
  }

  lemma {:induction false} StreamSnoc(events: seq<AssistantEvent>, e: AssistantEvent)
    ensures Stream(events + [e]) == Stream(events) + Frame(e)
  {
    if events != [] {
      assert (events + [e])[1..] == events[1..] + [e];
      StreamSnoc(events[1..], e);
    }
  }

  // ------------------------------------------------------------------ splitting

  /** The leftmost blank line at or after nothing: where `split("\n\n")` cuts first; the length if nowhere. */
  function FirstBreak(s: string): (i: nat)
    ensures i <= |s|
    ensures i < |s| ==> i + 1 < |s| && s[i] == '\n' && s[i + 1] == '\n'
    ensures forall j :: 0 <= j < i && j + 1 < |s| ==> !(s[j] == '\n' && s[j + 1] == '\n')
  {
    if |s| < 2 then |s|
    else if s[0] == '\n' && s[1] == '\n' then 0
    else 1 + FirstBreak(s[1..])
  }

  // The finished blocks, and the unfinished text that stays in the buffer.
  datatype Pieces = Pieces(blocks: seq<string>, rest: string)

  function Split(s: string): Pieces
    decreases |s|
  {
    var i := FirstBreak(s);
    if i == |s| then Pieces([], s)
    else
      var tail := Split(s[i + 2..]);
      Pieces([s[..i]] + tail.blocks, tail.rest)
  }

  /** The first break of a text is where the text says it is. */
  lemma BreakIs(s: string, i: nat)
    requires i + 1 < |s| && s[i] == '\n' && s[i + 1] == '\n'
    requires forall j :: 0 <= j < i ==> !(s[j] == '\n' && s[j + 1] == '\n')
    ensures FirstBreak(s) == i
  {
  }

  lemma SplitHead(s: string, i: nat)
    requires i < |s| && FirstBreak(s) == i
    ensures Split(s) == Pieces([s[..i]] + Split(s[i + 2..]).blocks, Split(s[i + 2..]).rest)
  {
  }

  /** The pieces of `a`, continued by `b`. */
  function Continued(a: Pieces, b: string): Pieces {
    var q := Split(a.rest + b);
    Pieces(a.blocks + q.blocks, q.rest)
  }

  /** Splitting is online: what arrives later never changes a block that is already finished. */
  lemma {:induction false} SplitAppend(a: string, b: string)
    ensures Split(a + b) == Continued(Split(a), b)
    decreases |a|
  {
    var i := FirstBreak(a);
    if i < |a| {
      SplitAppend(a[i + 2..], b);
      FirstBlockStays(a, b, i);
    } else {
      NoBlockYet(a, b);
    }
  }

  lemma NoBlockYet(a: string, b: string)
    requires FirstBreak(a) == |a|
    ensures Split(a + b) == Continued(Split(a), b)
  {
    assert Split(a) == Pieces([], a);
  }

  lemma FirstBlockStays(a: string, b: string, i: nat)
    requires i < |a| && FirstBreak(a) == i
    requires Split(a[i + 2..] + b) == Continued(Split(a[i + 2..]), b)
    ensures Split(a + b) == Continued(Split(a), b)
  {
    var tail := Split(a[i + 2..]);
    SplitHead(a, i);
    BreakStays(a, b, i);
    SplitHead(a + b, i);
    JoinAssociates([a[..i]], tail.blocks, Split(tail.rest + b).blocks);
  }

  lemma BreakStays(a: string, b: string, i: nat)
    requires i < |a| && FirstBreak(a) == i
    ensures i + 1 < |a| && FirstBreak(a + b) == i && (a + b)[..i] == a[..i] && (a + b)[i + 2..] == a[i + 2..] + b
  {
    BreakIs(a + b, i);
    CutBeforeJoin(a, b, i);
    CutBeforeJoin(a, b, i + 2);
  }

  // ------------------------------------------------------------------ the data line of a block

  function FirstNewline(s: string): (i: nat)
    ensures i <= |s| && (i < |s| ==> s[i] == '\n')
    ensures forall j :: 0 <= j < i ==> s[j] != '\n'
  {
    if s == "" || s[0] == '\n' then 0 else 1 + FirstNewline(s[1..])
  }

  predicate StartsWith(s: string, prefix: string) {
    |prefix| <= |s| && s[..|prefix|] == prefix
  }

  /** The first line that starts with "data: ", without that prefix. */
  function DataLine(block: string): Option<string>
    decreases |block|
  {
    var i := FirstNewline(block);
    if StartsWith(block[..i], DATA) then Some(block[|DATA|..i])
    else if i == |block| then None
    else DataLine(block[i + 1..])
  }

  lemma {:induction false} FirstNewlineAfter(head: string, rest: string)
    requires forall i :: 0 <= i < |head| ==> head[i] != '\n'
    ensures FirstNewline(head) == |head| && FirstNewline(head + "\n" + rest) == |head|
  {
    if head == "" {
      assert head + "\n" + rest == "\n" + rest;
    } else {
      assert (head + "\n" + rest)[1..] == head[1..] + "\n" + rest;
      FirstNewlineAfter(head[1..], rest);
    }
  }

  /** Line by line: the first one that starts with "data: " counts, and only what is behind that. */
  lemma DataLineByLine(head: string, rest: string)
    requires forall i :: 0 <= i < |head| ==> head[i] != '\n'
    ensures DataLine("data: " + head + "\n" + rest) == Some(head) == DataLine("data: " + head)
    ensures !StartsWith(head, "data: ") ==> DataLine(head) == None && DataLine(head + "\n" + rest) == DataLine(rest)
  {
    var line := "data: " + head;
    FirstNewlineAfter(head, rest);
    FirstNewlineAfter(line, rest);
    assert line[..|line|] == line && line[|DATA|..] == head;
    assert (line + "\n" + rest)[..|line|] == line && (line + "\n" + rest)[|DATA|..|line|] == head;
    assert (head + "\n" + rest)[..|head|] == head && (head + "\n" + rest)[|head| + 1..] == rest;
  }

  // ------------------------------------------------------------------ the reader

  /**
   * What `JSON.parse` makes of the data line of one block; blocks without one, or with a malformed one,
   * give nothing.
   */
  function BlockEvents<E>(parse: string -> Option<E>, block: string): seq<E> {
    var line := DataLine(block);
    if line.None? then []
    else
      var parsed := parse(line.value);
      if parsed.None? then [] else [parsed.value]
  }

  function BlocksEvents<E>(parse: string -> Option<E>, blocks: seq<string>): seq<E> {
    if blocks == [] then []
    else BlocksEvents(parse, blocks[..|blocks| - 1]) + BlockEvents(parse, blocks[|blocks| - 1])
  }

  /** All events of a text that has arrived as a whole. */
  function EventsIn<E>(parse: string -> Option<E>, text: string): seq<E> {
    BlocksEvents(parse, Split(text).blocks)
  }

  function Concat<T>(chunks: seq<seq<T>>): seq<T> {
    if chunks == [] then [] else Concat(chunks[..|chunks| - 1]) + chunks[|chunks| - 1]
  }

  /** The text of all bytes that have arrived; an unfinished character is not in it yet. */
  function TextOf(bytes: seq<Byte>): string {
    DecodeChunk(NewDecoder(), bytes).text
  }

  /** Where the reader stands when these bytes have arrived. */
  ghost predicate HaveRead<E>(parse: string -> Option<E>, arrived: seq<Byte>, decoder: TextDecoder, buffer: string,
                              events: seq<E>)
  {
    && decoder == DecodeChunk(NewDecoder(), arrived).decoder && buffer == Split(TextOf(arrived)).rest
    && events == EventsIn(parse, TextOf(arrived))
  }

  /** `parseSseStream`: the events it yields, whatever the chunks of bytes, are those of the text as a whole. */
  method ParseSseStream<E>(parse: string -> Option<E>, chunks: seq<seq<Byte>>) returns (events: seq<E>)
    ensures events == EventsIn(parse, TextOf(Concat(chunks)))
  {
    events := [];
    var decoder := NewDecoder();
    var buffer := "";
    var n := 0;
    ghost var arrived: seq<Byte> := [];
    while n < |chunks|
      invariant 0 <= n <= |chunks|
      invariant arrived == Concat(chunks[..n]) && HaveRead(parse, arrived, decoder, buffer, events)
    {
      ReadChunk(parse, arrived, decoder, buffer, events, chunks[n]);
      ConcatNext(chunks, n);
      arrived := arrived + chunks[n];
      var decoded := DecodeChunk(decoder, chunks[n]);
      decoder := decoded.decoder;
      buffer := buffer + decoded.text;
      var pieces := Split(buffer);
      buffer := pieces.rest;
      var i := 0;
      ghost var before := events;
      while i < |pieces.blocks|
        invariant 0 <= i <= |pieces.blocks|
        invariant events == before + BlocksEvents(parse, pieces.blocks[..i])
      {
        NextBlock(parse, pieces.blocks, i);
        JoinAssociates(before, BlocksEvents(parse, pieces.blocks[..i]), BlockEvents(parse, pieces.blocks[i]));
        var dataLine := DataLine(pieces.blocks[i]);
        if dataLine.Some? {
          var parsed := parse(dataLine.value);
          if parsed.Some? {
            events := events + [parsed.value];
          }
        }
        i := i + 1;
      }
      TakeAll(pieces.blocks);
      n := n + 1;
    }
    TakeAll(chunks);
  }

  lemma NextBlock<E>(parse: string -> Option<E>, blocks: seq<string>, i: nat)
    requires i < |blocks|
    ensures BlocksEvents(parse, blocks[..i + 1]) == BlocksEvents(parse, blocks[..i]) + BlockEvents(parse, blocks[i])
  {
    assert blocks[..i + 1][..i] == blocks[..i];
  }

  lemma ConcatNext<T>(chunks: seq<seq<T>>, n: nat)
    requires n < |chunks|
    ensures Concat(chunks[..n + 1]) == Concat(chunks[..n]) + chunks[n]
  {
    NextPrefix(chunks, n);
  }

  lemma ReadChunk<E>(parse: string -> Option<E>, arrived: seq<Byte>, decoder: TextDecoder, buffer: string,
                     events: seq<E>, chunk: seq<Byte>)
    requires HaveRead(parse, arrived, decoder, buffer, events)
    ensures var decoded := DecodeChunk(decoder, chunk);
      var pieces := Split(buffer + decoded.text);
      HaveRead(parse, arrived + chunk, decoded.decoder, pieces.rest, events + BlocksEvents(parse, pieces.blocks))
  {
    var had := TextOf(arrived);
    var text := DecodeChunk(decoder, chunk).text;
    DecodeChunkJoin(NewDecoder(), arrived, chunk);
    SplitAppend(had, text);
    BlocksEventsJoin(parse, Split(had).blocks, Split(buffer + text).blocks);
  }

  lemma {:induction false} BlocksEventsJoin<E>(parse: string -> Option<E>, a: seq<string>, b: seq<string>)
    ensures BlocksEvents(parse, a + b) == BlocksEvents(parse, a) + BlocksEvents(parse, b)
    decreases |b|
  {
    if b == [] {
      assert a + b == a;
    } else {
      assert (a + b)[..|a + b| - 1] == a + b[..|b| - 1];
      BlocksEventsJoin(parse, a, b[..|b| - 1]);
    }
  }

  lemma PrefixOfText<E>(parse: string -> Option<E>, first: string, second: string)
    ensures EventsIn(parse, first) <= EventsIn(parse, first + second)
  {
    SplitAppend(first, second);
    BlocksEventsJoin(parse, Split(first).blocks, Split(Split(first).rest + second).blocks);
  }

  /** A prefix of any bytes, well-formed or not, yields a prefix of their events. */
  lemma PrefixYieldsPrefix<E>(parse: string -> Option<E>, bytes: seq<Byte>, n: nat)
    requires n <= |bytes|
    ensures EventsIn(parse, TextOf(bytes[..n])) <= EventsIn(parse, TextOf(bytes))
  {
    DecodeChunkJoin(NewDecoder(), bytes[..n], bytes[n..]);
    TakeAndDrop(bytes, n);
    PrefixOfText(parse, TextOf(bytes[..n]),
                 DecodeChunk(DecodeChunk(NewDecoder(), bytes[..n]).decoder, bytes[n..]).text);
  }

  // ------------------------------------------------------------------ round trip

  /** No blank line inside, none can form at its end. */
  predicate Solid(s: string) {
    s != "" && s[|s| - 1] != '\n' && forall j :: 0 <= j < |s| - 1 ==> !(s[j] == '\n' && s[j + 1] == '\n')
  }

  lemma FirstNewlineIs(s: string, i: nat)
    requires i <= |s| && (i < |s| ==> s[i] == '\n')
    requires forall j :: 0 <= j < i ==> s[j] != '\n'
    ensures FirstNewline(s) == i
  {
  }

  /** The data line of a block of two lines of which only the second starts with "data: ". */
  lemma DataOfTwoLines(head: string, tail: string)
    requires OneLine(head) && OneLine(tail) && !StartsWith(head, DATA) && StartsWith(tail, DATA)
    ensures DataLine(head + "\n" + tail) == Some(tail[|DATA|..])
  {
    var s := head + "\n" + tail;
    assert s[..|head|] == head && s[|head| + 1..] == tail && tail[..|tail|] == tail;
    FirstNewlineIs(s, |head|);
    FirstNewlineIs(tail, |tail|);
  }

  lemma TwoLinesAreSolid(head: string, tail: string)
    requires OneLine(head) && OneLine(tail) && tail != ""
    ensures Solid(head + "\n" + tail)
  {
    var s := head + "\n" + tail;
    forall j | 0 <= j < |s| - 1
      ensures !(s[j] == '\n' && s[j + 1] == '\n')
    {
      assert j < |head| ==> s[j] == head[j];
      assert j >= |head| ==> s[j + 1] == tail[j - |head|];
    }
    assert s[|s| - 1] == tail[|tail| - 1];
  }

  lemma TypeNameIsOneLine(e: AssistantEvent)
    ensures OneLine(e.TypeName())
  {
  }

  lemma HeadLine(typeName: string)
    requires OneLine(typeName)
    ensures OneLine("event: " + typeName) && !StartsWith("event: " + typeName, DATA)
  {
    OtherStart("event: " + typeName, DATA);
  }

  lemma OtherStart(s: string, prefix: string)
    requires s != "" && prefix != "" && s[0] != prefix[0]
    ensures !StartsWith(s, prefix)
  {
  }

  lemma FrameBodyIsSolid(e: AssistantEvent)
    ensures Solid(FrameBody(e))
    ensures DataLine(FrameBody(e)) == Some(Stringify(e.ToJson()))
  {
    var head, json := "event: " + e.TypeName(), Stringify(e.ToJson());
    TypeNameIsOneLine(e);
    HeadLine(e.TypeName());
    StringifyIsOneLine(e.ToJson());
    SecondLine(head, json);
  }

  lemma SecondLine(head: string, json: string)
    requires OneLine(head) && OneLine(json) && !StartsWith(head, DATA)
    ensures var body := head + "\n" + DATA + json;
      Solid(body) && DataLine(body) == Some(json)
  {
    var tail := DATA + json;
    assert tail[..|DATA|] == DATA && tail[|DATA|..] == json;
    assert head + "\n" + DATA + json == head + "\n" + tail;
    DataOfTwoLines(head, tail);
    TwoLinesAreSolid(head, tail);
  }

  function Bodies(events: seq<AssistantEvent>): seq<string> {
    Map(FrameBody, events)
  }

  /** A stream is cut exactly between its frames, and a started frame stays in the buffer. */
  lemma {:induction false} SplitStream(events: seq<AssistantEvent>, started: string)
    requires FirstBreak(started) == |started|
    ensures Split(Stream(events) + started) == Pieces(Bodies(events), started)
    decreases |events|
  {
    if events == [] {
      assert Stream(events) + started == started;
    } else {
      var body, later := FrameBody(events[0]), Stream(events[1..]) + started;
      FrameBodyIsSolid(events[0]);
      SplitFrame(body, later);
      SplitStream(events[1..], started);
      StreamHead(events, started);
      MapHead(FrameBody, events);
    }
  }

  lemma StreamHead(events: seq<AssistantEvent>, started: string)
    requires events != []
    ensures Stream(events) + started == FrameBody(events[0]) + "\n\n" + (Stream(events[1..]) + started)
  {
    JoinAssociates(Frame(events[0]), Stream(events[1..]), started);
  }

  lemma SplitFrame(body: string, later: string)
    requires Solid(body)
    ensures var tail := Split(later);
      Split(body + "\n\n" + later) == Pieces([body] + tail.blocks, tail.rest)
  {
    var s := body + "\n\n" + later;
    assert s[..|body|] == body && s[|body| + 2..] == later;
    forall j | 0 <= j < |body|
      ensures !(s[j] == '\n' && s[j + 1] == '\n')
    {
      assert s[j] == body[j];
      assert j + 1 < |body| ==> s[j + 1] == body[j + 1];
    }
    assert s[|body|] == '\n' && s[|body| + 1] == '\n';
    BreakIs(s, |body|);
    SplitHead(s, |body|);
  }

  /** `parse` reads back the serialization of each of the events. */
  ghost predicate ReadsBack(parse: string -> Option<AssistantEvent>, events: seq<AssistantEvent>) {
    forall e :: e in events ==> parse(Stringify(e.ToJson())) == Some(e)
  }

  lemma ReadsBackInit(parse: string -> Option<AssistantEvent>, events: seq<AssistantEvent>)
    requires events != [] && ReadsBack(parse, events)
    ensures ReadsBack(parse, events[..|events| - 1])
    ensures parse(Stringify(events[|events| - 1].ToJson())) == Some(events[|events| - 1])
  {
  }

  lemma {:induction false} BodiesGiveEvents(parse: string -> Option<AssistantEvent>, events: seq<AssistantEvent>)
    requires ReadsBack(parse, events)
    ensures BlocksEvents(parse, Bodies(events)) == events
    decreases |events|
  {
    if events != [] {
      var init, last := events[..|events| - 1], events[|events| - 1];
      MapLast(FrameBody, events);
      BlocksEventsJoin(parse, Bodies(init), [FrameBody(last)]);
      ReadsBackInit(parse, events);
      BodiesGiveEvents(parse, init);
      LastBlock(parse, last);
      InitAndLast(events);
    }
  }

  lemma LastBlock(parse: string -> Option<AssistantEvent>, e: AssistantEvent)
    requires parse(Stringify(e.ToJson())) == Some(e)
    ensures BlocksEvents(parse, [FrameBody(e)]) == [e]
  {
    FrameBodyIsSolid(e);
    var body := FrameBody(e);
    assert [body][..0] == [];
    assert BlockEvents(parse, body) == [e];
  }

  /** A proper beginning of a frame, possibly nothing. */
  predicate StartOf(e: AssistantEvent, started: string) {
    |started| < |Frame(e)| && started == Frame(e)[..|started|]
  }

  lemma StartedFrame(e: AssistantEvent, started: string)
    requires StartOf(e, started)
    ensures FirstBreak(started) == |started|
  {
    FrameBodyIsSolid(e);
    StartedBody(FrameBody(e), |started|);
  }

  lemma StartedBody(body: string, n: nat)
    requires Solid(body) && n < |body| + 2
    ensures FirstBreak((body + "\n\n")[..n]) == n
  {
    var started := (body + "\n\n")[..n];
    forall j | 0 <= j < n - 1
      ensures !(started[j] == '\n' && started[j + 1] == '\n')
    {
      assert started[j] == body[j];
      assert j + 1 < |body| ==> started[j + 1] == body[j + 1];
    }
  }

  /** The text of a started frame is itself a start of the frame, wherever its bytes break off. */
  lemma StartedBytes(e: AssistantEvent, bytes: seq<Byte>)
    requires |bytes| < |Encode(Frame(e))| && bytes == Encode(Frame(e))[..|bytes|]
    ensures StartOf(e, Decode(Ready, bytes).text)
  {
    JoinAssociates(FrameBody(e), "\n", "\n");
    assert "\n\n" == "\n" + "\n";
    StartedText(FrameBody(e) + "\n", bytes);
  }

  lemma StartedText(text: string, bytes: seq<Byte>)
    requires |bytes| < |Encode(text + "\n")| && bytes == Encode(text + "\n")[..|bytes|]
    ensures var read := Decode(Ready, bytes).text;
      |read| <= |text| && read == (text + "\n")[..|read|]
  {
    var most := Encode(text);
    EncodeJoin(text, "\n");
    NewlineByte();
    assert bytes == most[..|bytes|];
    DecodeJoin(Ready, bytes, most[|bytes|..]);
    TakeAndDrop(most, |bytes|);
    DecodeEncoded(text);
    PrefixOfPrefix(text, Decode(Ready, bytes).text, Decode(Decode(Ready, bytes).state, most[|bytes|..]).text);
  }

  lemma NewlineByte()
    ensures |Encode("\n")| == 1
  {
    assert "\n"[1..] == "";
  }

  lemma PrefixOfPrefix(text: string, a: string, b: string)
    requires a + b == text
    ensures |a| <= |text| && a == (text + "\n")[..|a|]
  {
    assert a == text[..|a|];
  }

  /** The bytes of a stream of frames decode to the frames, and to the text of what has been started. */
  lemma StreamText(events: seq<AssistantEvent>, bytes: seq<Byte>)
    ensures TextOf(Encode(Stream(events)) + bytes) == DropMark(false, Stream(events) + Decode(Ready, bytes).text)
  {
    DecodeEncoded(Stream(events));
    DecodeJoin(Ready, Encode(Stream(events)), bytes);
  }

  lemma NoMark(events: seq<AssistantEvent>, e: AssistantEvent, started: string)
    requires StartOf(e, started)
    ensures DropMark(false, Stream(events) + started) == Stream(events) + started
  {
    if events != [] {
      assert Stream(events)[0] == Frame(events[0])[0] == 'e';
    } else if started != "" {
      assert started[0] == Frame(e)[0] == 'e';
    }
  }

  lemma StreamYields(parse: string -> Option<AssistantEvent>, events: seq<AssistantEvent>, next: AssistantEvent,
                     started: seq<Byte>)
    requires ReadsBack(parse, events)
    requires |started| < |Encode(Frame(next))| && started == Encode(Frame(next))[..|started|]
    ensures EventsIn(parse, TextOf(Encode(Stream(events)) + started)) == events
  {
    var text := Decode(Ready, started).text;
    StartedBytes(next, started);
    StreamText(events, started);
    NoMark(events, next, text);
    StartedFrame(next, text);
    SplitStream(events, text);
    BodiesGiveEvents(parse, events);
  }

  // ------------------------------------------------------------------ what the frontend makes of a value

  /** `value[key]`: the last member of that name counts. */
  function Property(value: Json, key: string): Option<Json> {
    if value.Object? then LastNamed(value.members, Plain(key)) else None
  }

  function LastNamed(members: seq<Member>, name: Text): Option<Json> {
    if members == [] then None
    else
      var later := LastNamed(members[1..], name);
      if later.Some? then later else if members[0].name == name then Some(members[0].value) else None
  }

  function TextProperty(value: Json, key: string): Option<Text> {
    var property := Property(value, key);
    if property.Some? && property.value.String? then Some(property.value.text) else None
  }

  /** The discriminated union of types.ts, told apart by `type`. */
  function EventOf(value: Json): Option<AssistantEvent> {
    var kind := TextProperty(value, "type");
    if kind == Some(Plain("token")) then
      var text := TextProperty(value, "text");
      if text.Some? then Some(Token(text.value)) else None
    else if kind == Some(Plain("tool_call")) then
      var name, args := TextProperty(value, "name"), Property(value, "args");
      if name.Some? && args.Some? then Some(ToolCall(name.value, args.value)) else None
    else if kind == Some(Plain("tool_result")) then
      var name, result := TextProperty(value, "name"), TextProperty(value, "result");
      if name.Some? && result.Some? then Some(ToolResult(name.value, result.value)) else None
    else if kind == Some(Plain("confirmation_required")) then
      var tool, description := TextProperty(value, "tool"), TextProperty(value, "description");
      var args := Property(value, "args");
      if tool.Some? && description.Some? && args.Some?
      then Some(ConfirmationRequired(tool.value, description.value, args.value)) else None
    else if kind == Some(Plain("location_required")) then Some(LocationRequired)
    else if kind == Some(Plain("done")) then Some(Done)
    else if kind == Some(Plain("error")) then
      var message := TextProperty(value, "message");
      if message.Some? then Some(Failure(message.value)) else None
    else None
  }

  function ReadEvent(json: string): Option<AssistantEvent> {
    var value := ParseJson(json);
    if value.Some? then EventOf(value.value) else None
  }

  /** The properties that a client finds in the value sent for an event. */
  ghost predicate Carries(value: Json, e: AssistantEvent) {
    match e
    case Token(text) =>
      Property(value, "type") == Some(String(Plain("token"))) && Property(value, "text") == Some(String(text))
    case ToolCall(name, args) =>
      Property(value, "type") == Some(String(Plain("tool_call")))
      && Property(value, "name") == Some(String(name)) && Property(value, "args") == Some(args)
    case ToolResult(name, result) =>
      Property(value, "type") == Some(String(Plain("tool_result")))
      && Property(value, "name") == Some(String(name)) && Property(value, "result") == Some(String(result))
    case ConfirmationRequired(tool, description, args) =>
      Property(value, "type") == Some(String(Plain("confirmation_required")))
      && Property(value, "tool") == Some(String(tool)) && Property(value, "description") == Some(String(description))
      && Property(value, "args") == Some(args)
    case LocationRequired => Property(value, "type") == Some(String(Plain("location_required")))
    case Done => Property(value, "type") == Some(String(Plain("done")))
    case Failure(message) =>
      Property(value, "type") == Some(String(Plain("error"))) && Property(value, "message") == Some(String(message))
  }

  lemma PlainInjective(s: string, t: string)
    requires Plain(s) == Plain(t)
    ensures s == t
  {
    assert forall i :: 0 <= i < |s| ==> Plain(s)[i] == Scalar(s[i]);
    assert forall i :: 0 <= i < |t| ==> Plain(t)[i] == Scalar(t[i]);
    assert |s| == |Plain(s)| == |t|;
  }

  lemma Keys(s: string, t: string)
    ensures Plain(s) == Plain(t) <==> s == t
  {
    if Plain(s) == Plain(t) {
      PlainInjective(s, t);
    }
  }

  /** Looking up a key behind or at a first member. */
  lemma LookUp(first: string, value: Json, fields: seq<Member>, key: string)
    ensures LastNamed([Member(Plain(first), value)] + fields, Plain(key)) ==
      var later := LastNamed(fields, Plain(key));
      if later.Some? then later else if first == key then Some(value) else None
  {
    Keys(first, key);
    assert ([Member(Plain(first), value)] + fields)[1..] == fields;
  }

  lemma LookUpOne(first: string, value: Json, key: string)
    ensures LastNamed([Member(Plain(first), value)], Plain(key)) == if first == key then Some(value) else None
  {
    LookUp(first, value, [], key);
    assert [Member(Plain(first), value)] + [] == [Member(Plain(first), value)];
  }

  lemma LookUpTwo(first: string, v: Json, second: string, w: Json, key: string)
    ensures LastNamed([Member(Plain(first), v), Member(Plain(second), w)], Plain(key)) ==
      if second == key then Some(w) else if first == key then Some(v) else None
  {
    LookUp(first, v, [Member(Plain(second), w)], key);
    LookUpOne(second, w, key);
    assert [Member(Plain(first), v)] + [Member(Plain(second), w)]
        == [Member(Plain(first), v), Member(Plain(second), w)];
  }

  lemma LookUpThree(first: string, v: Json, second: string, w: Json, third: string, u: Json, key: string)
    ensures LastNamed([Member(Plain(first), v), Member(Plain(second), w), Member(Plain(third), u)], Plain(key)) ==
      if third == key then Some(u) else if second == key then Some(w) else if first == key then Some(v) else None
  {
    LookUp(first, v, [Member(Plain(second), w), Member(Plain(third), u)], key);
    LookUpTwo(second, w, third, u, key);
    assert [Member(Plain(first), v)] + [Member(Plain(second), w), Member(Plain(third), u)]
        == [Member(Plain(first), v), Member(Plain(second), w), Member(Plain(third), u)];
  }

  lemma FieldLookUp(e: AssistantEvent, key: string)
    ensures Property(e.ToJson(), key) ==
      var field := LastNamed(e.Fields(), Plain(key));
      if field.Some? then field else if key == "type" then Some(String(Plain(e.TypeName()))) else None
  {
    LookUp("type", String(Plain(e.TypeName())), e.Fields(), key);
  }

  /** The value sent for an event has the properties of that event, each under its own key. */
  lemma SentCarries(e: AssistantEvent)
    ensures Carries(e.ToJson(), e)
  {
    FieldLookUp(e, "type");
    match e
    case Token(text) =>
      LookUpOne("text", String(text), "type");
      LookUpOne("text", String(text), "text");
      FieldLookUp(e, "text");
    case ToolCall(name, args) => ToolCallCarries(e, name, args);
    case ToolResult(name, result) => ToolResultCarries(e, name, result);
    case ConfirmationRequired(tool, description, args) => ConfirmationCarries(e, tool, description, args);
    case LocationRequired =>
    case Done =>
    case Failure(message) =>
      LookUpOne("message", String(message), "type");
      LookUpOne("message", String(message), "message");
      FieldLookUp(e, "message");
  }

  lemma ToolCallCarries(e: AssistantEvent, name: Text, args: Json)
    requires e == ToolCall(name, args)
    ensures Carries(e.ToJson(), e)
  {
    FieldLookUp(e, "type");
    FieldLookUp(e, "name");
    FieldLookUp(e, "args");
    LookUpTwo("name", String(name), "args", args, "type");
    LookUpTwo("name", String(name), "args", args, "name");
    LookUpTwo("name", String(name), "args", args, "args");
  }

  lemma ToolResultCarries(e: AssistantEvent, name: Text, result: Text)
    requires e == ToolResult(name, result)
    ensures Carries(e.ToJson(), e)
  {
    FieldLookUp(e, "type");
    FieldLookUp(e, "name");
    FieldLookUp(e, "result");
    LookUpTwo("name", String(name), "result", String(result), "type");
    LookUpTwo("name", String(name), "result", String(result), "name");
    LookUpTwo("name", String(name), "result", String(result), "result");
  }

  lemma ConfirmationCarries(e: AssistantEvent, tool: Text, description: Text, args: Json)
    requires e == ConfirmationRequired(tool, description, args)
    ensures Carries(e.ToJson(), e)
  {
    FieldLookUp(e, "type");
    FieldLookUp(e, "tool");
    FieldLookUp(e, "description");
    FieldLookUp(e, "args");
    LookUpThree("tool", String(tool), "description", String(description), "args", args, "type");
    LookUpThree("tool", String(tool), "description", String(description), "args", args, "tool");
    LookUpThree("tool", String(tool), "description", String(description), "args", args, "description");
    LookUpThree("tool", String(tool), "description", String(description), "args", args, "args");
  }

  /** What a client finds under the keys of types.ts in the data line of the frame that is written. */
  lemma FrameCarries(e: AssistantEvent)
    ensures var line := DataLine(FrameBody(e));
      line.Some? && ParseJson(line.value) == Some(e.ToJson()) && Carries(e.ToJson(), e)
  {
    FrameBodyIsSolid(e);
    ParseReadsBack(e.ToJson());
    SentCarries(e);
  }

  /** The event line of the frame names the type of the value sent. */
  lemma FrameNamesType(e: AssistantEvent)
    ensures Property(e.ToJson(), "type") == Some(String(Plain(EventName(FrameBody(e)))))
  {
    TypeNameIsOneLine(e);
    NameOfFrame(e.TypeName(), DATA + Stringify(e.ToJson()));
    FrameSplit(e);
    SentType(e);
  }

  lemma FrameSplit(e: AssistantEvent)
    ensures FrameBody(e) == "event: " + e.TypeName() + "\n" + (DATA + Stringify(e.ToJson()))
  {
    var head, json := "event: " + e.TypeName() + "\n", Stringify(e.ToJson());
    JoinAssociates(head, DATA, json);
  }

  /** The text of the first line behind "event: ". */
  function EventName(body: string): string {
    var line := body[..FirstNewline(body)];
    if StartsWith(line, "event: ") then line[|"event: "|..] else ""
  }

  lemma NameOfFrame(name: string, rest: string)
    requires OneLine(name)
    ensures EventName("event: " + name + "\n" + rest) == name
  {
    var head := "event: " + name;
    assert (head + "\n" + rest)[..|head|] == head;
    FirstNewlineIs(head + "\n" + rest, |head|);
  }

  lemma SentType(e: AssistantEvent)
    ensures Property(e.ToJson(), "type") == Some(String(Plain(e.TypeName())))
  {
    SentCarries(e);
  }

  /** A value that carries an event is read as that event. */
  lemma CarriedEvent(value: Json, e: AssistantEvent)
    requires Carries(value, e)
    ensures EventOf(value) == Some(e)
  {
    match e
    case Token(_) => TypesDiffer("token");
    case ToolCall(_, _) => CarriedCall(value, e);
    case ToolResult(_, _) => CarriedResult(value, e);
    case ConfirmationRequired(_, _, _) => CarriedConfirmation(value, e);
    case LocationRequired => TypesDiffer("location_required");
    case Done => TypesDiffer("done");
    case Failure(_) => TypesDiffer("error");
  }

  lemma CarriedCall(value: Json, e: AssistantEvent)
    requires e.ToolCall? && Carries(value, e)
    ensures EventOf(value) == Some(e)
  {
    TypesDiffer("tool_call");
  }

  lemma CarriedResult(value: Json, e: AssistantEvent)
    requires e.ToolResult? && Carries(value, e)
    ensures EventOf(value) == Some(e)
  {
    TypesDiffer("tool_result");
  }

  lemma CarriedConfirmation(value: Json, e: AssistantEvent)
    requires e.ConfirmationRequired? && Carries(value, e)
    ensures EventOf(value) == Some(e)
  {
    TypesDiffer("confirmation_required");
  }

  /** The seven type names are told apart by what the union tests first. */
  lemma TypesDiffer(name: string)
    ensures Plain(name) == Plain("token") <==> name == "token"
    ensures Plain(name) == Plain("tool_call") <==> name == "tool_call"
    ensures Plain(name) == Plain("tool_result") <==> name == "tool_result"
    ensures Plain(name) == Plain("confirmation_required") <==> name == "confirmation_required"
    ensures Plain(name) == Plain("location_required") <==> name == "location_required"
    ensures Plain(name) == Plain("done") <==> name == "done"
    ensures Plain(name) == Plain("error") <==> name == "error"
  {
    Keys(name, "token");
    Keys(name, "tool_call");
    Keys(name, "tool_result");
    Keys(name, "confirmation_required");
    Keys(name, "location_required");
    Keys(name, "done");
    Keys(name, "error");
  }

  lemma EventReadsBack(e: AssistantEvent)
    ensures ReadEvent(Stringify(e.ToJson())) == Some(e)
  {
    ParseReadsBack(e.ToJson());
    SentCarries(e);
    CarriedEvent(e.ToJson(), e);
  }

  // ------------------------------------------------------------------ from end to end

  /**
   * However the bytes of the printed stream are cut into reads, inside a character or not, the frontend
   * gets exactly the events written; and if they break off inside a frame, exactly the events before it.
   */
  lemma RoundTrip(events: seq<AssistantEvent>, next: AssistantEvent, started: seq<Byte>, chunks: seq<seq<Byte>>)
    requires |started| < |Encode(Frame(next))| && started == Encode(Frame(next))[..|started|]
    requires Concat(chunks) == Encode(Stream(events)) + started
    ensures EventsIn(ReadEvent, TextOf(Concat(chunks))) == events
  {
    forall e | e in events
      ensures ReadEvent(Stringify(e.ToJson())) == Some(e)
    {
      EventReadsBack(e);
    }
    StreamYields(ReadEvent, events, next, started);
  }

  /** Two lists of events that give the same stream are the same list. */
  lemma StreamUnambiguous(events: seq<AssistantEvent>, others: seq<AssistantEvent>)
    requires Stream(events) == Stream(others)
    ensures events == others
  {
    YieldsBack(events);
    YieldsBack(others);
  }

  lemma YieldsBack(events: seq<AssistantEvent>)
    ensures EventsIn(ReadEvent, TextOf(Encode(Stream(events)))) == events
  {
    var chunks := [Encode(Stream(events))];
    assert chunks[..0] == [] && Concat(chunks) == [] + chunks[0] == chunks[0];
    assert chunks[0] + [] == chunks[0];
    SomeBytes(Done);
    RoundTrip(events, Done, [], chunks);
  }

  lemma SomeBytes(e: AssistantEvent)
    ensures Encode(Frame(e)) != []
  {
    assert Frame(e)[0] == 'e';
  }
}
