/** The response head of a stream (_fast_response_headers in src/torchinferno/openai_http.py), as a
  client reads it. */
module SseHead {
  import opened HttpHead
  import opened HttpReader
  import opened HttpPipeline
  import SseStream

  function Plain(name: string, value: string): Field {
    Field(name, " ", value, "")
  }

  function ResponseFields(chunked: bool, close: bool): seq<Field> {
    [Plain("Server", "TorchInfernoOpenAI/0.1"), Plain("Content-Type", "text/event-stream")]
    + (if chunked then [Plain("Transfer-Encoding", "chunked")] else [])
    + [Plain("Cache-Control", "no-cache"), Plain("Connection", if close then "close" else "keep-alive")]
  }

  lemma JoinEnded(line: string, rest: seq<string>)
    requires rest != []
    ensures Join([line] + rest) == line + "\r\n" + Join(rest)
  {
    assert ([line] + rest)[1..] == rest;
  }

  lemma LineIs(name: string, value: string)
    ensures SseStream.HeaderLine(name, value) == FieldLine(Plain(name, value)) + "\r\n"
  {
  }

  lemma {:induction false} FieldLinesAppend(a: seq<Field>, b: seq<Field>)
    ensures FieldLines(a + b) == FieldLines(a) + FieldLines(b)
  {
  }

  /** The lines of the head, each ended by CR LF. */
  function Ended(fields: seq<Field>): string {
    if fields == [] then "" else FieldLine(fields[0]) + "\r\n" + Ended(fields[1..])
  }

  lemma {:induction false} EndedAppend(a: seq<Field>, b: seq<Field>)
    ensures Ended(a + b) == Ended(a) + Ended(b)
  {
    hide FieldLine;
    if a == [] {
      assert a + b == b;
    } else {
      EndedAppend(a[1..], b);
      assert (a + b)[1..] == a[1..] + b;
      assert (a + b)[0] == a[0];
      Grouped(FieldLine(a[0]) + "\r\n", Ended(a[1..]), Ended(b));
    }
  }

  lemma Grouped(a: string, b: string, c: string)
    ensures a + (b + c) == a + b + c
  {
  }

  lemma {:induction false} JoinIsEnded(line: string, fields: seq<Field>)
    ensures Join([line] + FieldLines(fields)) + "\r\n" == line + "\r\n" + Ended(fields)
    decreases |fields|
  {
    if fields == [] {
      assert [line] + FieldLines(fields) == [line];
    } else {
      hide FieldLine;
      JoinEnded(line, FieldLines(fields));
      JoinIsEnded(FieldLine(fields[0]), fields[1..]);
      assert FieldLines(fields) == [FieldLine(fields[0])] + FieldLines(fields[1..]);
    }
  }

  lemma OneEnded(f: Field)
    ensures Ended([f]) == FieldLine(f) + "\r\n"
  {
    assert [f][1..] == [];
  }

  lemma Assembled(head: string, a: string, b: string, o: string, c: string, d: string, end: string)
    ensures head + a + b + o + c + d + end == head + ((a + b) + o + (c + d)) + end
  {
  }

  lemma BlankLine(j: string)
    ensures j + "\r\n\r\n" == j + "\r\n" + "\r\n"
  {
  }

  lemma FieldsEnded(s: Field, c: Field, o: seq<Field>, n: Field, k: Field)
    ensures Ended([s, c] + o + [n, k])
         == (FieldLine(s) + "\r\n" + (FieldLine(c) + "\r\n")) + Ended(o)
          + (FieldLine(n) + "\r\n" + (FieldLine(k) + "\r\n"))
  {
    hide FieldLine;
    OneEnded(s);
    OneEnded(c);
    OneEnded(n);
    OneEnded(k);
    EndedAppend([s], [c]);
    EndedAppend([n], [k]);
    assert [s] + [c] == [s, c] && [n] + [k] == [n, k];
    hide Ended;
    EndedAppend([s, c], o);
    EndedAppend([s, c] + o, [n, k]);
  }

  lemma HeadersAre(chunked: bool, close: bool)
    ensures SseStream.Headers(chunked, close)
         == Join([SseStream.STATUS] + FieldLines(ResponseFields(chunked, close))) + "\r\n\r\n"
  {
    hide FieldLine, Plain, SseStream.HeaderLine, FieldLines, Join;
    var s, c, t := Plain("Server", "TorchInfernoOpenAI/0.1"), Plain("Content-Type", "text/event-stream"), Plain("Transfer-Encoding", "chunked");
    var n, k := Plain("Cache-Control", "no-cache"), Plain("Connection", if close then "close" else "keep-alive");
    LineIs("Server", "TorchInfernoOpenAI/0.1");
    LineIs("Content-Type", "text/event-stream");
    LineIs("Transfer-Encoding", "chunked");
    LineIs("Cache-Control", "no-cache");
    LineIs("Connection", if close then "close" else "keep-alive");
    var fs, o := ResponseFields(chunked, close), if chunked then [t] else [];
    assert fs == [s, c] + o + [n, k];
    JoinIsEnded(SseStream.STATUS, fs);
    BlankLine(Join([SseStream.STATUS] + FieldLines(fs)));
    FieldsEnded(s, c, o, n, k);
    OneEnded(t);
    var crlf := "\r\n";
    Assembled(SseStream.STATUS + crlf, FieldLine(s) + crlf, FieldLine(c) + crlf, Ended(o), FieldLine(n) + crlf,
              FieldLine(k) + crlf, crlf);
  }

  predicate NameOk(n: string) {
    n != "" && NoSpace(n) && forall i :: 0 <= i < |n| ==> n[i] != ':'
  }

  predicate ValueOk(v: string) {
    NoCr(v) && Trimmed(v)
  }

  lemma PlainOk(n: string, v: string)
    requires NameOk(n) && ValueOk(v)
    ensures FieldOk(Plain(n, v))
  {
  }

  lemma ShortNamesOk()
    ensures NameOk("Server") && NameOk("Connection")
  {
  }

  lemma TypeOk()
    ensures NameOk("Content-Type")
  {
  }

  lemma CacheOk()
    ensures NameOk("Cache-Control")
  {
  }

  lemma TransferOk()
    ensures NameOk("Transfer-Encoding")
  {
  }

  lemma ValuesOk()
    ensures ValueOk("chunked") && ValueOk("no-cache") && ValueOk("close") && ValueOk("keep-alive")
  {
  }

  lemma ServerValueOk()
    ensures ValueOk("TorchInfernoOpenAI/0.1")
  {
  }

  lemma TypeValueOk()
    ensures ValueOk("text/event-stream")
  {
  }

  lemma FieldsOk(chunked: bool, close: bool)
    ensures forall i :: 0 <= i < |ResponseFields(chunked, close)| ==> FieldOk(ResponseFields(chunked, close)[i])
  {
    ShortNamesOk();
    TypeOk();
    CacheOk();
    TransferOk();
    ValuesOk();
    ServerValueOk();
    TypeValueOk();
    hide NameOk, ValueOk, FieldOk, Plain;
    PlainOk("Server", "TorchInfernoOpenAI/0.1");
    PlainOk("Content-Type", "text/event-stream");
    PlainOk("Transfer-Encoding", "chunked");
    PlainOk("Cache-Control", "no-cache");
    PlainOk("Connection", if close then "close" else "keep-alive");
  }

  /** A client that reads the head finds the status line, says how the body is delimited exactly when it is
      chunked, and how the connection goes on. */
  lemma HeadIsRead(chunked: bool, close: bool, body: string)
    ensures var s := SseStream.Headers(chunked, close) + body;
      && HasHead(s) && s[HeadEnd(s)..] == body
      && var lines := Lines(s[..HeadEnd(s) - 4]);
      && lines[0] == "HTTP/1.1 200 OK"
      && Fields(map[], lines[1..]) == FieldMap(map[], ResponseFields(chunked, close))
  {
    hide FieldLine, FieldOk, Plain, HasHead, HeadEnd, Join, Lines, Fields, FieldMap, NoCr, ResponseFields;
    var fs := ResponseFields(chunked, close);
    var lines := [SseStream.STATUS] + FieldLines(fs);
    HeadersAre(chunked, close);
    FieldsOk(chunked, close);
    StatusOk();
    FieldLinesOk(fs);
    LinesAreOk(SseStream.STATUS, FieldLines(fs));
    assert SseStream.Headers(chunked, close) + body == Join(lines) + "\r\n\r\n" + body;
    HeadFound(lines, body);
    LinesOfJoin(lines);
    FieldsOfLines(map[], fs);
    assert lines[1..] == FieldLines(fs);
  }

  lemma FieldLinesOk(fs: seq<Field>)
    requires forall i :: 0 <= i < |fs| ==> FieldOk(fs[i])
    ensures forall i :: 0 <= i < |FieldLines(fs)| ==> FieldLines(fs)[i] != "" && NoCr(FieldLines(fs)[i])
  {
    hide FieldOk, FieldLine, NoCr, FieldLines;
    var lines := FieldLines(fs);
    forall i | 0 <= i < |lines| ensures lines[i] != "" && NoCr(lines[i]) {
      assert lines[i] == FieldLine(fs[i]);
      FieldLineOk(fs[i]);
    }
  }

  lemma LinesAreOk(status: string, lines: seq<string>)
    requires status != "" && NoCr(status) && forall i :: 0 <= i < |lines| ==> lines[i] != "" && NoCr(lines[i])
    ensures LinesOk([status] + lines)
  {
    hide NoCr;
  }

  lemma StatusOk()
    ensures SseStream.STATUS != "" && NoCr(SseStream.STATUS)
  {
  }

  lemma Names(chunked: bool, close: bool)
    ensures var fs := ResponseFields(chunked, close);
      && |fs| == (if chunked then 5 else 4)
      && fs[0].name == "Server" && fs[1].name == "Content-Type" && fs[|fs| - 2].name == "Cache-Control"
      && fs[|fs| - 1].name == "Connection" && (chunked ==> fs[2].name == "Transfer-Encoding" && fs[2].value == "chunked")
      && fs[1].value == "text/event-stream" && fs[|fs| - 1].value == (if close then "close" else "keep-alive")
  {
  }

  lemma LastOnes(chunked: bool, close: bool)
    ensures var fs := ResponseFields(chunked, close);
      && |fs| == (if chunked then 5 else 4)
      && LastNamed(fs, "connection", |fs| - 1) && LastNamed(fs, "content-type", 1)
      && (if chunked then LastNamed(fs, "transfer-encoding", 2) else Unnamed(fs, "transfer-encoding"))
  {
    NamesDiffer();
    Names(chunked, close);
    hide SameLetters, ResponseFields;
  }

  /** The fields a client relies on: the encoding is announced exactly when the body is chunked. */
  lemma HeadSays(chunked: bool, close: bool)
    ensures var h := FieldMap(map[], ResponseFields(chunked, close));
      && ("transfer-encoding" in h <==> chunked) && (chunked ==> h["transfer-encoding"] == "chunked")
      && "connection" in h && h["connection"] == (if close then "close" else "keep-alive")
      && "content-type" in h && h["content-type"] == "text/event-stream"
  {
    KeysLower();
    LastOnes(chunked, close);
    Names(chunked, close);
    hide *;
    var fs := ResponseFields(chunked, close);
    FieldMapAt(map[], fs, "transfer-encoding");
    FieldMapAt(map[], fs, "connection");
    FieldMapAt(map[], fs, "content-type");
  }

  lemma KeysLower()
    ensures LowerAscii("transfer-encoding") && LowerAscii("connection") && LowerAscii("content-type")
  {
  }

  lemma NamesDiffer()
    ensures SameLetters("Transfer-Encoding", "transfer-encoding") && SameLetters("Connection", "connection")
    ensures SameLetters("Content-Type", "content-type")
    ensures forall n :: n in ["Server", "Content-Type", "Cache-Control", "Connection"] ==> !SameLetters(n, "transfer-encoding")
    ensures forall n :: n in ["Transfer-Encoding", "Cache-Control", "Connection"] ==> !SameLetters(n, "content-type")
  {
  }
}
