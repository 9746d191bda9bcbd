/**
 The event-stream printer of scripts/mcp_conformance/server.py (`_encode_sse_messages`)
 and a reader written from sections 9.2.5 (parsing) and 9.2.6 (interpreting an event
 stream) of the WHATWG HTML Living Standard.

 Both work on decoded text; a message is given by its JSON text.
 */
module ServerSentEvents {

  // ------------------------------------------------------------------------ printer

  datatype Profile = SseCommentFlood | SseCrComments | OtherProfile

  const COMMENT := ": reviewer keepalive"
  const COMMENT_PREFIX := ": reviewer keepalive "
  const COMMENT_LINE_BYTES: nat := 2048
  const EVENT_LIMIT_BYTES: nat := 8 * 1024 * 1024
  const COMMENT_LINE_COUNT: nat := EVENT_LIMIT_BYTES / COMMENT_LINE_BYTES + 1

  function Repeat(s: string, n: nat): string {
    if n == 0 then "" else s + Repeat(s, n - 1)
  }

  function FloodLine(): string {
    COMMENT_PREFIX + Repeat("x", COMMENT_LINE_BYTES - |COMMENT_PREFIX| - 1) + "\r"
  }

  function Prefix(profile: Profile): string {
    match profile
    case SseCommentFlood => Repeat(FloodLine(), COMMENT_LINE_COUNT)
    case SseCrComments => COMMENT + "\r"
    case OtherProfile => ""
  }

  function Separator(profile: Profile): string {
    if profile.OtherProfile? then "\n\n" else "\r\r"
  }

  function EncodeMessages(payloads: seq<string>, separator: string): string {
    if payloads == [] then "" else "data: " + payloads[0] + separator + EncodeMessages(payloads[1..], separator)
  }

  function Encode(payloads: seq<string>, profile: Profile): string {
    Prefix(profile) + EncodeMessages(payloads, Separator(profile))
  }

  // ------------------------------------------------------------------------- reader

  datatype Event = Event(kind: string, data: string)

  // The line being read, whether an LF would belong to the CR just read, and the buffers
  // of the interpretation.
  datatype Reader = Reader(line: string, afterCr: bool, kind: string, data: string, lastId: string, events: seq<Event>)

  const START := Reader("", false, "", "", "", [])

  function FirstColon(line: string): (i: nat)
    ensures i <= |line|
    ensures ':' !in line[..i]
    ensures i < |line| ==> line[i] == ':'
  {
    if line == "" || line[0] == ':' then 0 else 1 + FirstColon(line[1..])
  }

  function WithoutSpace(value: string): string {
    if value != "" && value[0] == ' ' then value[1..] else value
  }

  function ProcessField(r: Reader, field: string, value: string): Reader {
    if field == "event" then r.(kind := value)
    else if field == "data" then r.(data := r.data + value + "\n")
    else if field == "id" && '\0' !in value then r.(lastId := value)
    else r
  }

  function Dispatch(r: Reader): Reader {
    if r.data == "" then r.(kind := "")
    else
      var data := if r.data[|r.data| - 1] == '\n' then r.data[..|r.data| - 1] else r.data;
      r.(kind := "", data := "", events := r.events + [Event(if r.kind == "" then "message" else r.kind, data)])
  }

  function ProcessLine(r: Reader, line: string): Reader {
    if line == "" then Dispatch(r)
    else if line[0] == ':' then r
    else
      var i := FirstColon(line);
      if i < |line| then ProcessField(r, line[..i], WithoutSpace(line[i + 1..])) else ProcessField(r, line, "")
  }

  function EndLine(r: Reader, cr: bool): Reader {
    ProcessLine(r.(line := "", afterCr := cr), r.line)
  }

  // Lines end at CRLF, at an LF not after a CR, and at a CR not before an LF.
  function ReadChar(r: Reader, c: char): Reader {
    if c == '\n' && r.afterCr then r.(afterCr := false)
    else if c == '\n' || c == '\r' then EndLine(r, c == '\r')
    else r.(line := r.line + [c], afterCr := false)
  }

  function Read(r: Reader, s: string): Reader
    decreases |s|
  {
    if s == "" then r else Read(ReadChar(r, s[0]), s[1..])
  }

  // One leading byte order mark is ignored; what no blank line ends is discarded.
  function Events(stream: string): seq<Event> {
    Read(START, if stream != "" && stream[0] == '\U{FEFF}' then stream[1..] else stream).events
  }

  // ---------------------------------------------------------------------- round trip

  predicate OneLine(s: string) {
    '\r' !in s && '\n' !in s
  }

  lemma {:induction false} ReadAppend(r: Reader, a: string, b: string)
    ensures Read(r, a + b) == Read(Read(r, a), b)
    decreases |a|
  {
    hide ReadChar;
    if a == "" {
      assert a + b == b;
    } else {
      assert (a + b)[0] == a[0] && (a + b)[1..] == a[1..] + b;
      ReadAppend(ReadChar(r, a[0]), a[1..], b);
    }
  }

  lemma {:induction false} ReadText(r: Reader, s: string)
    requires OneLine(s)
    ensures Read(r, s) == if s == "" then r else r.(line := r.line + s, afterCr := false)
    decreases |s|
  {
    hide EndLine;
    if s != "" {
      ReadText(ReadChar(r, s[0]), s[1..]);
      assert r.line + [s[0]] + s[1..] == r.line + s;
    }
  }

  // Between events: nothing is pending.
  ghost predicate Clean(r: Reader, events: seq<Event>) {
    r.line == "" && r.kind == "" && r.data == "" && r.events == events
  }

  lemma ReadComment(r: Reader, comment: string, events: seq<Event>)
    requires Clean(r, events) && OneLine(comment) && comment != "" && comment[0] == ':'
    ensures Clean(Read(r, comment + "\r"), events)
  {
    ReadAppend(r, comment, "\r");
    ReadText(r, comment);
    assert "" + comment == comment;
    ReadOne(Read(r, comment), '\r');
  }

  lemma ReadOne(r: Reader, c: char)
    ensures Read(r, [c]) == ReadChar(r, c)
  {
    assert [c][1..] == "";
  }

  lemma {:induction false} ReadComments(r: Reader, comment: string, n: nat, events: seq<Event>)
    requires Clean(r, events) && OneLine(comment) && comment != "" && comment[0] == ':'
    ensures Clean(Read(r, Repeat(comment + "\r", n)), events)
    decreases n
  {
    if n > 0 {
      ReadComment(r, comment, events);
      ReadAppend(r, comment + "\r", Repeat(comment + "\r", n - 1));
      ReadComments(Read(r, comment + "\r"), comment, n - 1, events);
    }
  }

  lemma DataLine(r: Reader, payload: string)
    ensures ProcessLine(r, "data: " + payload) == r.(data := r.data + payload + "\n")
  {
    var line := "data: " + payload;
    var i := FirstColon(line);
    assert line[4] == ':' && line[..4] == "data";
    assert i == 4;
    assert line[5..] == " " + payload && (" " + payload)[1..] == payload;
  }

  lemma ReadMessage(r: Reader, payload: string, c: char, events: seq<Event>)
    requires Clean(r, events) && OneLine(payload) && (c == '\n' || c == '\r')
    ensures Clean(Read(r, "data: " + payload + [c, c]), events + [Event("message", payload)])
  {
    hide ProcessLine;
    var text := "data: " + payload;
    assert OneLine("data: ");
    assert OneLine(text);
    ReadAppend(r, text, [c, c]);
    ReadText(r, text);
    assert "" + text == text;
    var r1 := Read(r, text);
    assert [c, c] == [c] + [c];
    ReadAppend(r1, [c], [c]);
    ReadOne(r1, c);
    DataLine(r1.(line := "", afterCr := c == '\r'), payload);
    var r2 := ReadChar(r1, c);
    assert r2.data == "" + payload + "\n" == payload + "\n";
    ReadOne(r2, c);
    BlankLine(r2, c, payload, events);
  }

  lemma BlankLine(r: Reader, c: char, payload: string, events: seq<Event>)
    requires c == '\n' || c == '\r'
    requires r.line == "" && r.kind == "" && r.data == payload + "\n" && r.events == events
    requires r.afterCr ==> c == '\r'
    ensures Clean(ReadChar(r, c), events + [Event("message", payload)])
  {
    assert (payload + "\n")[..|payload|] == payload;
  }

  ghost function AsEvents(payloads: seq<string>): seq<Event> {
    seq(|payloads|, i requires 0 <= i < |payloads| => Event("message", payloads[i]))
  }

  lemma {:induction false} ReadMessages(r: Reader, payloads: seq<string>, c: char, events: seq<Event>)
    requires Clean(r, events) && (c == '\n' || c == '\r')
    requires forall p :: p in payloads ==> OneLine(p)
    ensures Clean(Read(r, EncodeMessages(payloads, [c, c])), events + AsEvents(payloads))
    decreases |payloads|
  {
    if payloads == [] {
      assert events + AsEvents(payloads) == events;
    } else {
      var first, rest := "data: " + payloads[0] + [c, c], payloads[1..];
      ReadMessage(r, payloads[0], c, events);
      ReadAppend(r, first, EncodeMessages(rest, [c, c]));
      ReadMessages(Read(r, first), rest, c, events + [Event("message", payloads[0])]);
      assert AsEvents(payloads) == [Event("message", payloads[0])] + AsEvents(rest);
      assert events + [Event("message", payloads[0])] + AsEvents(rest) == events + AsEvents(payloads);
    }
  }

  lemma {:induction false} OneLineRepeat(n: nat)
    ensures OneLine(Repeat("x", n))
  {
    if n > 0 {
      OneLineRepeat(n - 1);
    }
  }

  lemma PrefixRead(profile: Profile)
    ensures Clean(Read(START, Prefix(profile)), [])
  {
    hide Read;
    match profile {
      case OtherProfile =>
        NothingRead(START);
      case SseCrComments =>
        assert OneLine(COMMENT);
        ReadComment(START, COMMENT, []);
      case SseCommentFlood =>
        var xs := Repeat("x", COMMENT_LINE_BYTES - |COMMENT_PREFIX| - 1);
        OneLineRepeat(COMMENT_LINE_BYTES - |COMMENT_PREFIX| - 1);
        assert OneLine(COMMENT_PREFIX);
        assert OneLine(COMMENT_PREFIX + xs);
        ReadComments(START, COMMENT_PREFIX + xs, COMMENT_LINE_COUNT, []);
    }
  }

  lemma NothingRead(r: Reader)
    ensures Read(r, "") == r
  {
  }

  lemma FirstChar(payloads: seq<string>, profile: Profile)
    ensures var s := Encode(payloads, profile); s != "" ==> s[0] == ':' || s[0] == 'd'
  {
    if profile.SseCommentFlood? {
      assert Prefix(profile) == FloodLine() + Repeat(FloodLine(), COMMENT_LINE_COUNT - 1);
      assert Prefix(profile)[0] == COMMENT_PREFIX[0];
    }
  }

  // Whatever the framing and however many comments come first, the stream dispatches
  // exactly the payloads, in order, as plain messages.
  lemma EncodedStreamReadsBack(payloads: seq<string>, profile: Profile)
    requires forall p :: p in payloads ==> OneLine(p)
    ensures Events(Encode(payloads, profile)) == AsEvents(payloads)
  {
    hide Read, Prefix, EncodeMessages;
    var c := if profile.OtherProfile? then '\n' else '\r';
    assert Separator(profile) == [c, c];
    FirstChar(payloads, profile);
    PrefixRead(profile);
    ReadAppend(START, Prefix(profile), EncodeMessages(payloads, [c, c]));
    ReadMessages(Read(START, Prefix(profile)), payloads, c, []);
    assert [] + AsEvents(payloads) == AsEvents(payloads);
  }

  // The flood is longer than the event limit it is meant to exceed.
  lemma {:induction false} RepeatLength(s: string, n: nat)
    ensures |Repeat(s, n)| == n * |s|
  {
    if n > 0 {
      RepeatLength(s, n - 1);
    }
  }

  lemma FloodExceedsLimit()
    ensures |FloodLine()| == COMMENT_LINE_BYTES && |Prefix(SseCommentFlood)| > EVENT_LIMIT_BYTES
  {
    RepeatLength("x", COMMENT_LINE_BYTES - |COMMENT_PREFIX| - 1);
    RepeatLength(FloodLine(), COMMENT_LINE_COUNT);
  }
}
