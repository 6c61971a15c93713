/** The streamed answer of the fast HTTP server: server-sent events inside a chunked body
  (_stream_fast_chat and the byte builders around it in src/torchinferno/openai_http.py).
  Bytes are characters here; JSON texts are opaque and hold no raw line feed. */
module SseStream {
  import opened Options

  type Bytes = string
  type Token = int

  // ----- what is written -----

  function HexDigit(d: nat): char
    requires d < 16
  {
    "0123456789abcdef"[d]
  }

  /** The length as Python formats it with :x. */
  function Hex(n: nat): (s: Bytes)
    ensures s != ""
  {
    if n < 16 then [HexDigit(n)] else Hex(n / 16) + [HexDigit(n % 16)]
  }

  /** One chunk of a chunked body, or the payload itself. */
  function SseBytes(payload: Bytes, chunked: bool): Bytes {
    if chunked then Hex(|payload|) + "\r\n" + payload + "\r\n" else payload
  }

  /** What the stream is made with: the common start of every event, and the decoder and JSON encoder. */
  datatype Chat = Chat(prefix: Bytes, decode: Token -> string, json: string -> Bytes) {
    ghost predicate Valid() {
      prefix != "" && NoLineFeed(prefix) && forall s :: NoLineFeed(json(s))
    }

    function Event(delta: Bytes, finish: Bytes): Bytes {
      prefix + delta + ",\"finish_reason\":" + finish + "}]}"
    }

    function RoleEvent(): Bytes {
      Event("{\"role\":\"assistant\"}", "null")
    }

    function ContentEvent(token: Token): Bytes {
      Event("{\"content\":" + json(decode(token)) + "}", "null")
    }

    function StopEvent(): Bytes {
      Event("{}", "\"stop\"")
    }
  }

  const DONE_EVENT := "data: [DONE]"

  predicate NoLineFeed(s: Bytes) {
    forall i :: 0 <= i < |s| ==> s[i] != '\n'
  }

  function Terminated(e: Bytes): Bytes {
    e + "\n\n"
  }

  const STATUS := "HTTP/1.1 200 OK"

  function HeaderLine(name: Bytes, value: Bytes): Bytes {
    name + ": " + value + "\r\n"
  }

  function Headers(chunked: bool, close: bool): Bytes {
    STATUS + "\r\n" + HeaderLine("Server", "TorchInfernoOpenAI/0.1") + HeaderLine("Content-Type", "text/event-stream")
    + (if chunked then HeaderLine("Transfer-Encoding", "chunked") else "")
    + HeaderLine("Cache-Control", "no-cache")
    + HeaderLine("Connection", if close then "close" else "keep-alive") + "\r\n"
  }

  function StartBytes(chat: Chat, chunked: bool, close: bool): Bytes {
    Headers(chunked, close) + SseBytes(Terminated(chat.RoleEvent()), chunked)
  }

  function EndBytes(chat: Chat, chunked: bool): Bytes {
    SseBytes(Terminated(chat.StopEvent()), chunked) + SseBytes(Terminated(DONE_EVENT), chunked)
    + if chunked then "0\r\n\r\n" else ""
  }

  // ----- the events of a stream -----

  /** The tokens that decode to some text. */
  function Visible(chat: Chat, tokens: seq<Token>): (r: seq<Token>)
    ensures |r| <= |tokens|
  {
    if tokens == [] then []
    else
      var t := tokens[|tokens| - 1];
      Visible(chat, tokens[..|tokens| - 1]) + if chat.decode(t) == "" then [] else [t]
  }

  function ContentEvents(chat: Chat, tokens: seq<Token>): seq<Bytes> {
    if tokens == [] then []
    else ContentEvents(chat, tokens[..|tokens| - 1]) + [chat.ContentEvent(tokens[|tokens| - 1])]
  }

  function Body(events: seq<Bytes>): Bytes {
    if events == [] then "" else Body(events[..|events| - 1]) + Terminated(events[|events| - 1])
  }

  function Flatten(batches: seq<seq<Token>>): seq<Token> {
    if batches == [] then [] else Flatten(batches[..|batches| - 1]) + batches[|batches| - 1]
  }

  /** The payloads sent for the batches: one per batch with some visible token. */
  function Payloads(chat: Chat, batches: seq<seq<Token>>): seq<Bytes> {
    if batches == [] then []
    else
      var vis := Visible(chat, batches[|batches| - 1]);
      Payloads(chat, batches[..|batches| - 1]) + if vis == [] then [] else [Body(ContentEvents(chat, vis))]
  }

  function Sent(payloads: seq<Bytes>, chunked: bool): Bytes {
    if payloads == [] then "" else Sent(payloads[..|payloads| - 1], chunked) + SseBytes(payloads[|payloads| - 1], chunked)
  }

  /** Everything a completed stream puts on the wire behind its headers. */
  function WireBody(chat: Chat, batches: seq<seq<Token>>, chunked: bool): Bytes {
    SseBytes(Terminated(chat.RoleEvent()), chunked) + Sent(Payloads(chat, batches), chunked) + EndBytes(chat, chunked)
  }

  function AllEvents(chat: Chat, tokens: seq<Token>): seq<Bytes> {
    [chat.RoleEvent()] + ContentEvents(chat, Visible(chat, tokens)) + [chat.StopEvent(), DONE_EVENT]
  }

  // ----- reading a chunked body (section 7.1 of RFC 9112) -----

  function HexValue(c: char): Option<nat> {
    if '0' <= c <= '9' then Some(c as int - '0' as int)
    else if 'a' <= c <= 'f' then Some(c as int - 'a' as int + 10)
    else if 'A' <= c <= 'F' then Some(c as int - 'A' as int + 10)
    else None
  }

  function SizeDigits(s: Bytes): (k: nat)
    ensures k <= |s|
    ensures forall i :: 0 <= i < k ==> HexValue(s[i]).Some?
    ensures k < |s| ==> HexValue(s[k]).None?
  {
    if s == "" || HexValue(s[0]).None? then 0 else 1 + SizeDigits(s[1..])
  }

  function Size(s: Bytes): nat
    requires forall i :: 0 <= i < |s| ==> HexValue(s[i]).Some?
  {
    if s == "" then 0 else 16 * Size(s[..|s| - 1]) + HexValue(s[|s| - 1]).value
  }

  /** The content of a chunked body; None unless the whole text is one, closed by its only zero chunk. */
  function Dechunk(s: Bytes): Option<Bytes>
    decreases |s|, 1
  {
    var k := SizeDigits(s);
    if k == 0 || !("\r\n" <= s[k..]) then None else DechunkData(Size(s[..k]), s[k + 2..])
  }

  function DechunkData(n: nat, data: Bytes): Option<Bytes>
    decreases |data|, 2
  {
    if n == 0 then (if data == "\r\n" then Some("") else None)
    else if |data| < n + 2 || data[n..n + 2] != "\r\n" then None
    else Prepend(data[..n], Dechunk(data[n + 2..]))
  }

  function Prepend(p: Bytes, rest: Option<Bytes>): Option<Bytes> {
    match rest case None => None case Some(u) => Some(p + u)
  }

  /** The events of an event stream, each ended by an empty line; what is left over comes last. */
  function Events(s: Bytes, event: Bytes): seq<Bytes>
    decreases |s|
  {
    if s == "" then (if event == "" then [] else [event])
    else if "\n\n" <= s then [event] + Events(s[2..], "")
    else Events(s[1..], event + [s[0]])
  }

  // ----- round trips -----

  lemma {:induction false} HexRoundTrip(n: nat)
    ensures forall i :: 0 <= i < |Hex(n)| ==> HexValue(Hex(n)[i]).Some?
    ensures Size(Hex(n)) == n
  {
    if n >= 16 {
      HexRoundTrip(n / 16);
      assert Hex(n)[..|Hex(n)| - 1] == Hex(n / 16);
    }
  }

  lemma {:induction false} SizeDigitsOf(d: Bytes, t: Bytes)
    requires forall i :: 0 <= i < |d| ==> HexValue(d[i]).Some?
    requires t != "" && HexValue(t[0]).None?
    ensures SizeDigits(d + t) == |d|
  {
    if d != "" {
      assert (d + t)[1..] == d[1..] + t && (d + t)[0] == d[0];
      SizeDigitsOf(d[1..], t);
    } else {
      assert d + t == t;
    }
  }

  lemma DechunkSize(n: nat, data: Bytes)
    ensures Dechunk(Hex(n) + "\r\n" + data) == DechunkData(n, data)
  {
    hide Hex, DechunkData;
    var h, tail := Hex(n), "\r\n" + data;
    var s := h + "\r\n" + data;
    assert s == h + tail;
    HexRoundTrip(n);
    SizeDigitsOf(h, tail);
    assert s[..|h|] == h && s[|h|..] == tail && s[|h| + 2..] == data;
  }

  /** A chunk with a payload, in front of a chunked body. */
  lemma DechunkOne(p: Bytes, t: Bytes)
    requires p != ""
    ensures Dechunk(SseBytes(p, true) + t) == Prepend(p, Dechunk(t))
  {
    hide Dechunk, Hex;
    var data := p + "\r\n" + t;
    assert SseBytes(p, true) + t == Hex(|p|) + "\r\n" + data;
    DechunkSize(|p|, data);
    assert data[..|p|] == p && data[|p|..|p| + 2] == "\r\n" && data[|p| + 2..] == t;
  }

  lemma {:induction false} DechunkSent(payloads: seq<Bytes>, t: Bytes)
    requires forall i :: 0 <= i < |payloads| ==> payloads[i] != ""
    ensures Dechunk(Sent(payloads, true) + t) == Prepend(Sent(payloads, false), Dechunk(t))
    decreases |payloads|
  {
    hide Dechunk, SseBytes;
    if payloads == [] {
      assert Sent(payloads, true) + t == t && forall u: Bytes :: "" + u == u;
    } else {
      var init, p := payloads[..|payloads| - 1], payloads[|payloads| - 1];
      assert Sent(payloads, true) + t == Sent(init, true) + (SseBytes(p, true) + t);
      DechunkSent(init, SseBytes(p, true) + t);
      DechunkOne(p, t);
      PlainBytes(p);
      PrependTwice(Sent(init, false), p, Dechunk(t));
    }
  }

  lemma PlainBytes(p: Bytes)
    ensures SseBytes(p, false) == p
  {
  }

  lemma PrependTwice(a: Bytes, b: Bytes, rest: Option<Bytes>)
    ensures Prepend(a, Prepend(b, rest)) == Prepend(a + b, rest)
  {
    if rest.Some? {
      assert a + (b + rest.value) == a + b + rest.value;
    }
  }

  lemma DechunkEnd(chat: Chat)
    ensures Dechunk(EndBytes(chat, true)) == Some(Terminated(chat.StopEvent()) + Terminated(DONE_EVENT))
  {
    hide Dechunk, Hex, Chat.StopEvent, SseBytes;
    var stop, done := Terminated(chat.StopEvent()), Terminated(DONE_EVENT);
    var zero := "0\r\n\r\n";
    ZeroChunk();
    DechunkOne(done, zero);
    DechunkOne(stop, SseBytes(done, true) + zero);
    assert EndBytes(chat, true) == SseBytes(stop, true) + (SseBytes(done, true) + zero);
    assert done + "" == done;
  }

  lemma ZeroChunk()
    ensures Dechunk("0\r\n\r\n") == Some("")
  {
    DechunkSize(0, "\r\n");
    assert Hex(0) + "\r\n" + "\r\n" == "0\r\n\r\n";
  }

  // ----- the body a client sees -----

  lemma {:induction false} FlattenVisible(chat: Chat, a: seq<Token>, b: seq<Token>)
    ensures Visible(chat, a + b) == Visible(chat, a) + Visible(chat, b)
  {
    if b == [] {
      assert a + b == a;
    } else {
      assert (a + b)[..|a + b| - 1] == a + b[..|b| - 1];
      FlattenVisible(chat, a, b[..|b| - 1]);
    }
  }

  lemma {:induction false} EventsAppend(chat: Chat, a: seq<Token>, b: seq<Token>)
    ensures ContentEvents(chat, a + b) == ContentEvents(chat, a) + ContentEvents(chat, b)
  {
    if b == [] {
      assert a + b == a;
    } else {
      assert (a + b)[..|a + b| - 1] == a + b[..|b| - 1];
      EventsAppend(chat, a, b[..|b| - 1]);
    }
  }

  lemma {:induction false} BodyAppend(a: seq<Bytes>, b: seq<Bytes>)
    ensures Body(a + b) == Body(a) + Body(b)
  {
    if b == [] {
      assert a + b == a;
    } else {
      assert (a + b)[..|a + b| - 1] == a + b[..|b| - 1];
      BodyAppend(a, b[..|b| - 1]);
    }
  }

  /** How the tokens were grouped into batches is no longer visible in the payloads' bytes. */
  lemma {:induction false} PayloadBytes(chat: Chat, batches: seq<seq<Token>>)
    requires chat.prefix != ""
    ensures Sent(Payloads(chat, batches), false) == Body(ContentEvents(chat, Visible(chat, Flatten(batches))))
    ensures forall i :: 0 <= i < |Payloads(chat, batches)| ==> Payloads(chat, batches)[i] != ""
  {
    hide Visible, ContentEvents;
    if batches == [] {
      NoTokens(chat);
    } else {
      var init, last := batches[..|batches| - 1], batches[|batches| - 1];
      PayloadBytes(chat, init);
      var vis := Visible(chat, last);
      FlattenVisible(chat, Flatten(init), last);
      EventsAppend(chat, Visible(chat, Flatten(init)), vis);
      BodyAppend(ContentEvents(chat, Visible(chat, Flatten(init))), ContentEvents(chat, vis));
      NoTokens(chat);
      var p := Payloads(chat, init);
      if vis == [] {
        assert p + [] == p && forall u: Bytes :: u + "" == u;
      } else {
        SomeTokens(chat, vis);
        assert (p + [Body(ContentEvents(chat, vis))])[..|p|] == p;
      }
    }
  }

  lemma NoTokens(chat: Chat)
    ensures Visible(chat, []) == [] && ContentEvents(chat, []) == [] && Body([]) == ""
  {
  }

  lemma SomeTokens(chat: Chat, tokens: seq<Token>)
    requires tokens != []
    ensures Body(ContentEvents(chat, tokens)) != ""
  {
  }

  /** The chunked body of a completed stream is valid, its zero chunk is the last thing in it, and it
      decodes to the events of all tokens in order, however they were grouped. */
  lemma WireBodyDecodes(chat: Chat, batches: seq<seq<Token>>)
    requires chat.prefix != ""
    ensures Dechunk(WireBody(chat, batches, true)) == Some(Body(AllEvents(chat, Flatten(batches))))
    ensures WireBody(chat, batches, false) == Body(AllEvents(chat, Flatten(batches)))
  {
    hide Dechunk, SseBytes, Body, Chat.RoleEvent, Chat.StopEvent, ContentEvents, Visible, Payloads, Sent;
    var role, mid := chat.RoleEvent(), ContentEvents(chat, Visible(chat, Flatten(batches)));
    var payloads := Payloads(chat, batches);
    PayloadBytes(chat, batches);
    DechunkEnd(chat);
    DechunkSent(payloads, EndBytes(chat, true));
    DechunkOne(Terminated(role), Sent(payloads, true) + EndBytes(chat, true));
    assert WireBody(chat, batches, true) == SseBytes(Terminated(role), true) + (Sent(payloads, true) + EndBytes(chat, true));
    PlainBytes(Terminated(role));
    PlainBytes(Terminated(chat.StopEvent()));
    PlainBytes(Terminated(DONE_EVENT));
    BodyOfAll(role, mid, chat.StopEvent(), DONE_EVENT);
  }

  lemma BodyOfAll(first: Bytes, mid: seq<Bytes>, stop: Bytes, done: Bytes)
    ensures Body([first] + mid + [stop, done])
         == Terminated(first) + (Body(mid) + (Terminated(stop) + Terminated(done)))
    ensures Body([first] + mid + [stop, done])
         == Terminated(first) + Body(mid) + (Terminated(stop) + Terminated(done) + "")
  {
    hide Body, Terminated;
    BodyAppend([first] + mid, [stop, done]);
    BodyAppend([first], mid);
    assert [stop, done] == [stop] + [done];
    BodyAppend([stop], [done]);
    BodyOne(first);
    BodyOne(stop);
    BodyOne(done);
    Associate(Terminated(first), Body(mid), Terminated(stop) + Terminated(done));
  }

  lemma Associate(a: Bytes, b: Bytes, c: Bytes)
    ensures (a + b) + c == a + (b + c) && a + b + (c + "") == a + b + c
  {
  }

  lemma BodyOne(e: Bytes)
    ensures Body([e]) == Terminated(e)
  {
    assert [e][..0] == [] && Body([]) == "";
    assert "" + Terminated(e) == Terminated(e);
  }

  // ----- the events a client sees -----

  lemma {:induction false} EventsTakeOne(e: Bytes, t: Bytes, cur: Bytes)
    requires NoLineFeed(e)
    ensures Events(e + "\n\n" + t, cur) == [cur + e] + Events(t, "")
    decreases |e|
  {
    var s := e + "\n\n" + t;
    if e == "" {
      assert s == "\n\n" + t && s[2..] == t && cur + e == cur;
    } else {
      assert s[1..] == e[1..] + "\n\n" + t && s[0] == e[0];
      EventsTakeOne(e[1..], t, cur + [e[0]]);
      assert cur + [e[0]] + e[1..] == cur + e;
    }
  }

  lemma {:induction false} EventsOfBody(events: seq<Bytes>, t: Bytes)
    requires forall i :: 0 <= i < |events| ==> NoLineFeed(events[i])
    ensures Events(Body(events) + t, "") == events + Events(t, "")
    decreases |events|
  {
    hide Events;
    if events == [] {
      assert Body(events) + t == t;
    } else {
      var init, e := events[..|events| - 1], events[|events| - 1];
      assert Body(events) + t == Body(init) + (e + "\n\n" + t);
      EventsOfBody(init, e + "\n\n" + t);
      EventsTakeOne(e, t, "");
      assert "" + e == e && init + ([e] + Events(t, "")) == events + Events(t, "");
    }
  }

  lemma EventsAreLines(chat: Chat, tokens: seq<Token>)
    requires chat.Valid()
    ensures forall i :: 0 <= i < |AllEvents(chat, tokens)| ==> NoLineFeed(AllEvents(chat, tokens)[i])
  {
    SingleEventsAreLines(chat);
    hide NoLineFeed, Chat.RoleEvent, Chat.StopEvent, ContentEvents, Visible;
    ContentEventsAreLines(chat, Visible(chat, tokens));
  }

  lemma SingleEventsAreLines(chat: Chat)
    requires chat.Valid()
    ensures NoLineFeed(chat.RoleEvent()) && NoLineFeed(chat.StopEvent()) && NoLineFeed(DONE_EVENT)
  {
  }

  lemma ContentEventIsLine(chat: Chat, token: Token)
    requires chat.Valid()
    ensures NoLineFeed(chat.ContentEvent(token))
  {
    assert NoLineFeed(chat.json(chat.decode(token)));
  }

  lemma {:induction false} ContentEventsAreLines(chat: Chat, tokens: seq<Token>)
    requires chat.Valid()
    ensures forall i :: 0 <= i < |ContentEvents(chat, tokens)| ==> NoLineFeed(ContentEvents(chat, tokens)[i])
  {
    if tokens != [] {
      ContentEventsAreLines(chat, tokens[..|tokens| - 1]);
      ContentEventIsLine(chat, tokens[|tokens| - 1]);
    }
  }

  /** A client that decodes the chunks and splits the events gets the role event, one event per
      visible token in order, the stop event and the end marker. */
  lemma ClientSees(chat: Chat, batches: seq<seq<Token>>)
    requires chat.Valid()
    ensures Dechunk(WireBody(chat, batches, true)).Some?
    ensures Events(Dechunk(WireBody(chat, batches, true)).value, "") == AllEvents(chat, Flatten(batches))
  {
    hide Dechunk, WireBody, AllEvents, Body, Chat.Valid;
    ValidPrefix(chat);
    WireBodyDecodes(chat, batches);
    var events := AllEvents(chat, Flatten(batches));
    EventsAreLines(chat, Flatten(batches));
    EventsOfBody(events, "");
    assert Body(events) + "" == Body(events) && events + [] == events;
  }

  // ----- what the client makes of the events -----

  /** An event as a client that knows the common start of the stream reads it. */
  datatype Reading = Chunk(delta: Bytes, finish: Option<string>) | Other

  const GOING_ON := ",\"finish_reason\":null}]}"
  const STOPPED := ",\"finish_reason\":\"stop\"}]}"
  const CONTENT := "{\"content\":"
  const ROLE := "{\"role\":\"assistant\"}"

  predicate EndsWith(s: Bytes, t: Bytes) {
    |t| <= |s| && s[|s| - |t|..] == t
  }

  function ReadEvent(prefix: Bytes, e: Bytes): Reading {
    if !(prefix <= e) then Other
    else
      var s := e[|prefix|..];
      if EndsWith(s, GOING_ON) then Chunk(s[..|s| - |GOING_ON|], None)
      else if EndsWith(s, STOPPED) then Chunk(s[..|s| - |STOPPED|], Some("stop"))
      else Other
  }

  /** The text in a delta, given a reader of JSON strings. */
  function TextOf(unjson: Bytes -> string, delta: Bytes): Option<string> {
    if CONTENT <= delta && |CONTENT| < |delta| && delta[|delta| - 1] == '}' then
      Some(unjson(delta[|CONTENT|..|delta| - 1]))
    else None
  }

  /** The texts of the events, in order. */
  function Texts(prefix: Bytes, unjson: Bytes -> string, events: seq<Bytes>): seq<string> {
    if events == [] then []
    else
      var r := ReadEvent(prefix, events[|events| - 1]);
      Texts(prefix, unjson, events[..|events| - 1]) +
      if r.Chunk? then (match TextOf(unjson, r.delta) case Some(t) => [t] case None => []) else []
  }

  /** What the tokens decode to, where that is not empty. */
  function Spoken(decode: Token -> string, tokens: seq<Token>): seq<string> {
    if tokens == [] then []
    else
      var t := decode(tokens[|tokens| - 1]);
      Spoken(decode, tokens[..|tokens| - 1]) + if t == "" then [] else [t]
  }

  function Concat(texts: seq<string>): string {
    if texts == [] then "" else Concat(texts[..|texts| - 1]) + texts[|texts| - 1]
  }

  /** What all the tokens decode to. */
  function FullText(decode: Token -> string, tokens: seq<Token>): string {
    if tokens == [] then "" else FullText(decode, tokens[..|tokens| - 1]) + decode(tokens[|tokens| - 1])
  }

  lemma {:induction false} SpokenIsAll(decode: Token -> string, tokens: seq<Token>)
    ensures Concat(Spoken(decode, tokens)) == FullText(decode, tokens)
  {
    if tokens != [] {
      SpokenIsAll(decode, tokens[..|tokens| - 1]);
      var s, t := Spoken(decode, tokens[..|tokens| - 1]), decode(tokens[|tokens| - 1]);
      assert (s + [t])[..|s|] == s;
      assert s + [] == s;
    }
  }

  lemma Prefixed(prefix: Bytes, delta: Bytes, end: Bytes)
    ensures var e := prefix + delta + end;
      prefix <= e && e[|prefix|..] == delta + end && EndsWith(delta + end, end) && (delta + end)[..|delta|] == delta
  {
    assert prefix + delta + end == prefix + (delta + end);
  }

  lemma ReadGoingOn(prefix: Bytes, delta: Bytes)
    ensures ReadEvent(prefix, prefix + delta + GOING_ON) == Chunk(delta, None)
  {
    Prefixed(prefix, delta, GOING_ON);
  }

  lemma DifferAt(s: Bytes, t: Bytes, i: nat)
    requires 0 < i <= |t| <= |s| && s[|s| - i] != t[|t| - i]
    ensures !EndsWith(s, t)
  {
    assert s[|s| - |t|..][|t| - i] == s[|s| - i];
  }

  lemma ReadStopped(prefix: Bytes, delta: Bytes)
    ensures ReadEvent(prefix, prefix + delta + STOPPED) == Chunk(delta, Some("stop"))
  {
    Prefixed(prefix, delta, STOPPED);
    var s := delta + STOPPED;
    assert s[|s| - 4] == '"' && GOING_ON[|GOING_ON| - 4] == 'l';
    DifferAt(s, GOING_ON, 4);
  }

  lemma EventParts(chat: Chat, delta: Bytes)
    ensures chat.Event(delta, "null") == chat.prefix + delta + GOING_ON
    ensures chat.Event(delta, "\"stop\"") == chat.prefix + delta + STOPPED
  {
    assert ",\"finish_reason\":" + "null" + "}]}" == GOING_ON;
    assert ",\"finish_reason\":" + "\"stop\"" + "}]}" == STOPPED;
  }

  lemma ContentRead(chat: Chat, unjson: Bytes -> string, token: Token)
    requires forall s :: unjson(chat.json(s)) == s
    ensures var r := ReadEvent(chat.prefix, chat.ContentEvent(token));
      r.Chunk? && r.finish == None && TextOf(unjson, r.delta) == Some(chat.decode(token))
  {
    var j := chat.json(chat.decode(token));
    var delta := CONTENT + j + "}";
    EventParts(chat, delta);
    ReadGoingOn(chat.prefix, delta);
    assert delta[|CONTENT|..|delta| - 1] == j;
  }

  lemma {:induction false} TextsAppend(prefix: Bytes, unjson: Bytes -> string, a: seq<Bytes>, b: seq<Bytes>)
    ensures Texts(prefix, unjson, a + b) == Texts(prefix, unjson, a) + Texts(prefix, unjson, b)
  {
    if b == [] {
      assert a + b == a;
    } else {
      assert (a + b)[..|a + b| - 1] == a + b[..|b| - 1];
      TextsAppend(prefix, unjson, a, b[..|b| - 1]);
    }
  }

  lemma {:induction false} ContentTexts(chat: Chat, unjson: Bytes -> string, tokens: seq<Token>)
    requires forall s :: unjson(chat.json(s)) == s
    ensures Texts(chat.prefix, unjson, ContentEvents(chat, Visible(chat, tokens))) == Spoken(chat.decode, tokens)
  {
    if tokens != [] {
      var init, t := tokens[..|tokens| - 1], tokens[|tokens| - 1];
      ContentTexts(chat, unjson, init);
      VisibleNext(chat, tokens);
      SpokenNext(chat.decode, tokens);
      hide *;
      if chat.decode(t) != "" {
        OneMoreText(chat, unjson, Visible(chat, init), t);
      }
    }
  }

  lemma VisibleNext(chat: Chat, tokens: seq<Token>)
    requires tokens != []
    ensures var init, t := tokens[..|tokens| - 1], tokens[|tokens| - 1];
      Visible(chat, tokens) == if chat.decode(t) == "" then Visible(chat, init) else Visible(chat, init) + [t]
  {
  }

  lemma SpokenNext(decode: Token -> string, tokens: seq<Token>)
    requires tokens != []
    ensures var init, t := tokens[..|tokens| - 1], decode(tokens[|tokens| - 1]);
      Spoken(decode, tokens) == if t == "" then Spoken(decode, init) else Spoken(decode, init) + [t]
  {
  }

  lemma OneMoreText(chat: Chat, unjson: Bytes -> string, vis: seq<Token>, token: Token)
    requires forall s :: unjson(chat.json(s)) == s
    ensures Texts(chat.prefix, unjson, ContentEvents(chat, vis + [token]))
         == Texts(chat.prefix, unjson, ContentEvents(chat, vis)) + [chat.decode(token)]
  {
    OneEvent(chat, vis, token);
    hide *;
    TextsAppend(chat.prefix, unjson, ContentEvents(chat, vis), [chat.ContentEvent(token)]);
    OneText(chat, unjson, token);
  }

  lemma OneEvent(chat: Chat, vis: seq<Token>, token: Token)
    ensures ContentEvents(chat, vis + [token]) == ContentEvents(chat, vis) + [chat.ContentEvent(token)]
  {
    hide Chat.ContentEvent;
    assert (vis + [token])[..|vis|] == vis;
  }

  lemma OneText(chat: Chat, unjson: Bytes -> string, token: Token)
    requires forall s :: unjson(chat.json(s)) == s
    ensures Texts(chat.prefix, unjson, [chat.ContentEvent(token)]) == [chat.decode(token)]
  {
    hide Chat.ContentEvent, ReadEvent, TextOf;
    ContentRead(chat, unjson, token);
    assert [chat.ContentEvent(token)][..0] == [];
    assert Texts(chat.prefix, unjson, []) == [];
  }

  /** The events of a chunked body; none if it is not one. */
  function Taken(body: Bytes): seq<Bytes> {
    match Dechunk(body) case None => [] case Some(b) => Events(b, "")
  }

  /** One event carries the role, every one but the first and the last two carries text, the one before
      the last says why the stream ends, and the last is the end mark. */
  ghost predicate WellFormed(prefix: Bytes, unjson: Bytes -> string, events: seq<Bytes>) {
    && |events| >= 3
    && ReadEvent(prefix, events[0]) == Chunk(ROLE, None)
    && (forall i :: 1 <= i < |events| - 2 ==> CarriesText(prefix, unjson, events[i]))
    && ReadEvent(prefix, events[|events| - 2]) == Chunk("{}", Some("stop"))
    && events[|events| - 1] == "data: [DONE]"
  }

  ghost predicate CarriesText(prefix: Bytes, unjson: Bytes -> string, e: Bytes) {
    var r := ReadEvent(prefix, e);
    r.Chunk? && r.finish == None && TextOf(unjson, r.delta).Some?
  }

  lemma {:induction false} AllCarryText(chat: Chat, unjson: Bytes -> string, tokens: seq<Token>)
    requires forall s :: unjson(chat.json(s)) == s
    ensures forall i :: 0 <= i < |ContentEvents(chat, tokens)| ==>
      CarriesText(chat.prefix, unjson, ContentEvents(chat, tokens)[i])
  {
    if tokens != [] {
      hide CarriesText, Chat.ContentEvent;
      AllCarryText(chat, unjson, tokens[..|tokens| - 1]);
      var token := tokens[|tokens| - 1];
      assert CarriesText(chat.prefix, unjson, chat.ContentEvent(token)) by {
        ContentCarries(chat, unjson, token);
      }
    }
  }

  lemma ContentCarries(chat: Chat, unjson: Bytes -> string, token: Token)
    requires forall s :: unjson(chat.json(s)) == s
    ensures CarriesText(chat.prefix, unjson, chat.ContentEvent(token))
  {
    hide Chat.ContentEvent, ReadEvent, TextOf;
    ContentRead(chat, unjson, token);
  }

  lemma RoleAndStop(chat: Chat, unjson: Bytes -> string)
    ensures ReadEvent(chat.prefix, chat.RoleEvent()) == Chunk(ROLE, None) && TextOf(unjson, ROLE) == None
    ensures ReadEvent(chat.prefix, chat.StopEvent()) == Chunk("{}", Some("stop")) && TextOf(unjson, "{}") == None
  {
    hide ReadEvent;
    EventParts(chat, ROLE);
    ReadGoingOn(chat.prefix, ROLE);
    EventParts(chat, "{}");
    ReadStopped(chat.prefix, "{}");
    assert ROLE[2] == 'r' && CONTENT[2] == 'c';
  }

  lemma DoneHasNoText(chat: Chat, unjson: Bytes -> string)
    ensures ReadEvent(chat.prefix, DONE_EVENT) == Other
  {
    assert DONE_EVENT[|DONE_EVENT| - 1] == ']' && GOING_ON[|GOING_ON| - 1] == '}' && STOPPED[|STOPPED| - 1] == '}';
    if chat.prefix <= DONE_EVENT {
      var s := DONE_EVENT[|chat.prefix|..];
      assert s != "" ==> s[|s| - 1] == ']';
    }
  }

  /** For every token sequence and batching, a client that takes the body apart gets the role, then the
      text of each token that has any, in order, then the reason and the end mark; put together the
      texts are what all the tokens decode to. */
  lemma ClientReads(chat: Chat, unjson: Bytes -> string, batches: seq<seq<Token>>, events: seq<Bytes>)
    requires chat.Valid() && (forall s :: unjson(chat.json(s)) == s)
    requires events == Taken(WireBody(chat, batches, true))
    ensures WellFormed(chat.prefix, unjson, events)
    ensures Texts(chat.prefix, unjson, events) == Spoken(chat.decode, Flatten(batches))
    ensures Concat(Texts(chat.prefix, unjson, events)) == FullText(chat.decode, Flatten(batches))
  {
    ClientSees(chat, batches);
    assert events == AllEvents(chat, Flatten(batches));
    hide *;
    var tokens := Flatten(batches);
    EventsRead(chat, unjson, tokens);
    SpokenIsAll(chat.decode, tokens);
  }

  lemma EventsRead(chat: Chat, unjson: Bytes -> string, tokens: seq<Token>)
    requires forall s :: unjson(chat.json(s)) == s
    ensures WellFormed(chat.prefix, unjson, AllEvents(chat, tokens))
    ensures Texts(chat.prefix, unjson, AllEvents(chat, tokens)) == Spoken(chat.decode, tokens)
  {
    hide ReadEvent, TextOf, Chat.RoleEvent, Chat.StopEvent, CarriesText, ContentEvents, Visible, Spoken;
    RoleAndStop(chat, unjson);
    DoneHasNoText(chat, unjson);
    var mid := ContentEvents(chat, Visible(chat, tokens));
    AllCarryText(chat, unjson, Visible(chat, tokens));
    ContentTexts(chat, unjson, tokens);
    var ends := [chat.StopEvent(), DONE_EVENT];
    TextsAppend(chat.prefix, unjson, [chat.RoleEvent()] + mid, ends);
    TextsAppend(chat.prefix, unjson, [chat.RoleEvent()], mid);
    assert [chat.RoleEvent()][..0] == [] && ends[..1] == [chat.StopEvent()] && ends[..1][..0] == [];
    assert Texts(chat.prefix, unjson, [chat.RoleEvent()]) == [];
    assert Texts(chat.prefix, unjson, ends[..1]) == [];
    assert Texts(chat.prefix, unjson, ends) == [];
  }

  lemma ValidPrefix(chat: Chat)
    requires chat.Valid()
    ensures chat.prefix != ""
  {
  }

  // ----- the writer -----

  class Wire {
    var sent: Bytes

    constructor ()
      ensures sent == ""
    {
      sent := "";
    }

    /** sendall: all bytes, or a failure after some of them. */
    method SendAll(b: Bytes) returns (ok: bool)
      modifies this
      ensures ok ==> sent == old(sent) + b
      ensures old(sent) <= sent <= old(sent) + b
    {
      ok := *;
      var k: nat :| k <= |b|;
      k := if ok then |b| else k;
      sent := sent + b[..k];
    }
  }

  /** The events of one batch, and how many of its tokens decode to nothing. */
  method BatchPayload(chat: Chat, batch: seq<Token>) returns (payload: Bytes, shown: nat, empty: nat)
    ensures payload == Body(ContentEvents(chat, Visible(chat, batch)))
    ensures shown == |Visible(chat, batch)| && empty == |batch| - shown
  {
    payload, shown, empty := "", 0, 0;
    for i := 0 to |batch|
      invariant payload == Body(ContentEvents(chat, Visible(chat, batch[..i])))
      invariant shown == |Visible(chat, batch[..i])| && empty == i - shown
    {
      assert batch[..i + 1][..i] == batch[..i];
      ghost var vis := Visible(chat, batch[..i]);
      var content := chat.decode(batch[i]);
      if content == "" {
        assert Visible(chat, batch[..i + 1]) == vis;
        empty := empty + 1;
      } else {
        OneMoreEvent(chat, vis, batch[i]);
        payload := payload + Terminated(chat.ContentEvent(batch[i]));
        shown := shown + 1;
      }
    }
    assert batch[..|batch|] == batch;
  }

  lemma OneMoreEvent(chat: Chat, vis: seq<Token>, t: Token)
    ensures Body(ContentEvents(chat, vis + [t])) == Body(ContentEvents(chat, vis)) + Terminated(chat.ContentEvent(t))
  {
    hide Chat.ContentEvent, Terminated;
    assert (vis + [t])[..|vis|] == vis;
    var ev := ContentEvents(chat, vis);
    assert (ev + [chat.ContentEvent(t)])[..|ev|] == ev;
  }

  /** What the stream has put on the wire before batch i, if every send went through. */
  ghost function SentBefore(chat: Chat, batches: seq<seq<Token>>, i: nat, chunked: bool): Bytes
    requires i <= |batches|
  {
    StartBytes(chat, chunked, !chunked) + Sent(Payloads(chat, batches[..i]), chunked)
  }

  lemma OneMoreBatch(chat: Chat, batches: seq<seq<Token>>, i: nat, chunked: bool)
    requires i < |batches|
    ensures var vis := Visible(chat, batches[i]);
      SentBefore(chat, batches, i + 1, chunked) == SentBefore(chat, batches, i, chunked)
        + (if vis == [] then "" else SseBytes(Body(ContentEvents(chat, vis)), chunked))
    ensures Flatten(batches[..i + 1]) == Flatten(batches[..i]) + batches[i]
    ensures |Visible(chat, Flatten(batches[..i + 1]))| == |Visible(chat, Flatten(batches[..i]))| + |Visible(chat, batches[i])|
  {
    hide Body, ContentEvents, SseBytes, StartBytes, Visible;
    assert batches[..i + 1][..i] == batches[..i];
    FlattenVisible(chat, Flatten(batches[..i]), batches[i]);
    var p, vis := Payloads(chat, batches[..i]), Visible(chat, batches[i]);
    var more := Body(ContentEvents(chat, vis));
    assert Payloads(chat, batches[..i + 1]) == p + if vis == [] then [] else [more];
    assert (p + [more])[..|p|] == p && p + [] == p;
  }

  lemma EmptyPayload(chat: Chat, vis: seq<Token>)
    requires chat.prefix != ""
    ensures Body(ContentEvents(chat, vis)) == "" <==> vis == []
  {
    if vis != [] {
      SomeTokens(chat, vis);
    }
  }

  /** Streams all batches. While every send goes through, exactly the bytes of the completed stream
      appear; after a failed send nothing more is written, but the engine is still drained. */
  method StreamFastChat(wire: Wire, chat: Chat, batches: seq<seq<Token>>, keepAlive: bool)
    returns (raised: bool, clientOpen: bool, engineTokens: nat, contentChunks: nat, emptyTokens: nat)
    requires wire.sent == "" && chat.prefix != ""
    modifies wire
    ensures wire.sent <= Headers(keepAlive, !keepAlive) + WireBody(chat, batches, keepAlive)
    ensures !raised && clientOpen ==>
      && wire.sent == Headers(keepAlive, !keepAlive) + WireBody(chat, batches, keepAlive)
      && contentChunks == |Visible(chat, Flatten(batches))| && contentChunks + emptyTokens == engineTokens
    ensures !raised ==> engineTokens == |Flatten(batches)|
  {
    hide StartBytes, EndBytes, Sent, Payloads, Visible, SentBefore, Body, ContentEvents, WireBody, Headers, SseBytes;
    raised, clientOpen, engineTokens, contentChunks, emptyTokens := false, true, 0, 0, 0;
    WireBodyParts(chat, batches, keepAlive);
    SentAtStart(chat, batches, keepAlive);
    assert "" + StartBytes(chat, keepAlive, !keepAlive) == StartBytes(chat, keepAlive, !keepAlive);
    var started := wire.SendAll(StartBytes(chat, keepAlive, !keepAlive));
    if !started {
      SentBeforeEnd(chat, batches, 0, keepAlive, wire.sent);
      return true, false, 0, 0, 0;
    }
    for i := 0 to |batches|
      invariant wire.sent <= SentBefore(chat, batches, i, keepAlive)
      invariant clientOpen ==> wire.sent == SentBefore(chat, batches, i, keepAlive)
      invariant engineTokens == |Flatten(batches[..i])|
      invariant clientOpen ==> contentChunks == |Visible(chat, Flatten(batches[..i]))|
      invariant clientOpen ==> contentChunks + emptyTokens == engineTokens
    {
      OneMoreBatch(chat, batches, i, keepAlive);
      var batch := batches[i];
      if batch == [] {
        assert Visible(chat, batch) == [] && Flatten(batches[..i]) + [] == Flatten(batches[..i]);
      }
      if batch != [] {
        engineTokens := engineTokens + |batch|;
        if clientOpen {
          var payload, shown, empty := BatchPayload(chat, batch);
          contentChunks, emptyTokens := contentChunks + shown, emptyTokens + empty;
          EmptyPayload(chat, Visible(chat, batch));
          if payload != "" {
            clientOpen := wire.SendAll(SseBytes(payload, keepAlive));
          }
        }
      }
    }
    assert batches[..|batches|] == batches;
    if clientOpen {
      clientOpen := wire.SendAll(EndBytes(chat, keepAlive));
    } else {
      SentBeforeEnd(chat, batches, |batches|, keepAlive, wire.sent);
    }
  }

  lemma WireBodyParts(chat: Chat, batches: seq<seq<Token>>, chunked: bool)
    ensures Headers(chunked, !chunked) + WireBody(chat, batches, chunked)
         == SentBefore(chat, batches, |batches|, chunked) + EndBytes(chat, chunked)
  {
    hide Headers, SseBytes, Payloads, EndBytes, Sent;
    assert batches[..|batches|] == batches;
    Regroup(Headers(chunked, !chunked), SseBytes(Terminated(chat.RoleEvent()), chunked),
            Sent(Payloads(chat, batches), chunked), EndBytes(chat, chunked));
  }

  lemma Regroup(a: Bytes, b: Bytes, c: Bytes, d: Bytes)
    ensures a + (b + c + d) == a + b + c + d
  {
  }

  lemma SentAtStart(chat: Chat, batches: seq<seq<Token>>, chunked: bool)
    ensures SentBefore(chat, batches, 0, chunked) == StartBytes(chat, chunked, !chunked)
  {
    hide StartBytes, Payloads;
    assert batches[..0] == [];
    NoPayloads(chat);
  }

  lemma NoPayloads(chat: Chat)
    ensures Payloads(chat, []) == []
  {
  }

  lemma {:induction false} SentBeforeEnd(chat: Chat, batches: seq<seq<Token>>, i: nat, chunked: bool, b: Bytes)
    requires i <= |batches| && b <= SentBefore(chat, batches, i, chunked)
    ensures b <= Headers(chunked, !chunked) + WireBody(chat, batches, chunked)
    decreases |batches| - i
  {
    hide *;
    if i < |batches| {
      OneMoreBatch(chat, batches, i, chunked);
      SentBeforeEnd(chat, batches, i + 1, chunked, b);
    } else {
      WireBodyParts(chat, batches, chunked);
    }
  }
}
