/** What a well-behaved client sends is what the fast HTTP server reads back, request after request,
  for every delivery of the bytes (sections 2.1, 5 and 6.2 of RFC 9112). */
module HttpPipeline {
  import opened Options
  import opened HttpHead
  import opened HttpReader

  /** A header field, with the blanks a client may put around its value. */
  datatype Field = Field(name: string, before: string, value: string, after: string)

  /** A request as a client has it, its fields in order. */
  datatype Message = Message(verb: string, path: string, fields: seq<Field>, body: string)

  predicate NoSpace(s: string) {
    forall i :: 0 <= i < |s| ==> !IsSpace(s[i])
  }

  predicate NoCr(s: string) {
    forall i :: 0 <= i < |s| ==> s[i] != '\r'
  }

  predicate Blank(s: string) {
    forall i :: 0 <= i < |s| ==> s[i] == ' ' || s[i] == '\t'
  }

  /** No white space at either end. */
  predicate Trimmed(s: string) {
    s == "" || (!IsSpace(s[0]) && !IsSpace(s[|s| - 1]))
  }

  predicate FieldOk(f: Field) {
    f.name != "" && NoSpace(f.name) && (forall i :: 0 <= i < |f.name| ==> f.name[i] != ':')
    && NoCr(f.value) && Trimmed(f.value) && Blank(f.before) && Blank(f.after)
  }

  function FieldMap(headers: map<string, string>, fields: seq<Field>): map<string, string>
    decreases |fields|
  {
    if fields == [] then headers
    else FieldMap(headers[Lower(fields[0].name) := fields[0].value], fields[1..])
  }

  /** The declared length, in decimal, is that of the body; without a declaration there is no body. */
  ghost predicate LengthDeclared(m: Message) {
    if Unnamed(m.fields, "content-length") then m.body == ""
    else exists i :: LastNamed(m.fields, "content-length", i) && IsDecimal(m.fields[i].value, |m.body|)
  }

  ghost predicate Sendable(m: Message) {
    && m.verb != "" && NoSpace(m.verb) && m.path != "" && NoSpace(m.path)
    && (forall i :: 0 <= i < |m.fields| ==> FieldOk(m.fields[i]))
    && LengthDeclared(m) && |HeadText(m)| + 4 <= LIMIT + 1
  }

  function FieldLine(f: Field): string {
    f.name + ":" + f.before + f.value + f.after
  }

  function FieldLines(fields: seq<Field>): (r: seq<string>)
    ensures |r| == |fields|
    ensures forall i :: 0 <= i < |r| ==> r[i] == FieldLine(fields[i])
  {
    if fields == [] then [] else [FieldLine(fields[0])] + FieldLines(fields[1..])
  }

  // ----- names in any capitalisation, and decimal numbers -----

  /** name is key up to the case of ASCII letters, for a key in lower case. */
  predicate SameLetters(name: string, key: string) {
    |name| == |key| &&
    forall i :: 0 <= i < |key| ==> name[i] == key[i] || ('a' <= key[i] <= 'z' && name[i] as int + 32 == key[i] as int)
  }

  predicate LowerAscii(key: string) {
    forall i :: 0 <= i < |key| ==> key[i] as int < 128 && !('A' <= key[i] <= 'Z')
  }

  /** Field i is the last one of that name. */
  predicate LastNamed(fields: seq<Field>, key: string, i: int) {
    0 <= i < |fields| && SameLetters(fields[i].name, key)
    && forall j :: i < j < |fields| ==> !SameLetters(fields[j].name, key)
  }

  predicate Unnamed(fields: seq<Field>, key: string) {
    forall j :: 0 <= j < |fields| ==> !SameLetters(fields[j].name, key)
  }

  lemma {:induction false} LowerAt(s: string, i: nat)
    requires i < |s|
    ensures Lower(s)[i] == LowerChar(s[i])
  {
    if i > 0 {
      LowerAt(s[1..], i - 1);
    }
  }

  /** Exactly the capitalisations of a key are found under it. */
  lemma LowerIff(name: string, key: string)
    requires LowerAscii(key)
    ensures Lower(name) == key <==> SameLetters(name, key)
  {
    forall i | 0 <= i < |name| ensures Lower(name)[i] == LowerChar(name[i]) {
      LowerAt(name, i);
    }
    hide Lower;
    if SameLetters(name, key) {
      forall i | 0 <= i < |name| ensures Lower(name)[i] == key[i] {
      }
    }
    if Lower(name) == key {
      forall i | 0 <= i < |name|
        ensures name[i] == key[i] || ('a' <= key[i] <= 'z' && name[i] as int + 32 == key[i] as int)
      {
        assert LowerChar(name[i]) == key[i];
      }
    }
  }

  /** A key is mapped to the value of the last field of that name, and otherwise as before. */
  lemma {:induction false} FieldMapAt(headers: map<string, string>, fields: seq<Field>, key: string)
    requires LowerAscii(key)
    ensures forall i :: LastNamed(fields, key, i) ==>
      key in FieldMap(headers, fields) && FieldMap(headers, fields)[key] == fields[i].value
    ensures Unnamed(fields, key) ==> (key in FieldMap(headers, fields) <==> key in headers)
    ensures Unnamed(fields, key) && key in headers ==> FieldMap(headers, fields)[key] == headers[key]
    decreases |fields|
  {
    if fields != [] {
      var rest, h := fields[1..], headers[Lower(fields[0].name) := fields[0].value];
      LowerIff(fields[0].name, key);
      FieldMapAt(h, rest, key);
      FirstOrLater(fields, key);
      hide SameLetters, Lower;
      forall i | LastNamed(fields, key, i)
        ensures key in FieldMap(headers, fields) && FieldMap(headers, fields)[key] == fields[i].value
      {
        if i > 0 {
          assert LastNamed(rest, key, i - 1);
        }
      }
    }
  }

  lemma FirstOrLater(fields: seq<Field>, key: string)
    requires fields != []
    ensures forall i :: i > 0 && LastNamed(fields, key, i) ==> LastNamed(fields[1..], key, i - 1)
    ensures LastNamed(fields, key, 0) ==> Unnamed(fields[1..], key) && SameLetters(fields[0].name, key)
    ensures Unnamed(fields, key) ==> Unnamed(fields[1..], key) && !SameLetters(fields[0].name, key)
  {
    hide SameLetters;
  }

  /** n in decimal. */
  function Decimal(n: nat): (s: string)
    ensures s != ""
  {
    if n < 10 then [(n + '0' as int) as char] else Decimal(n / 10) + [(n % 10 + '0' as int) as char]
  }

  /** The decimal digits of n, as many as int() takes. */
  predicate IsDecimal(s: string, n: nat) {
    s == Decimal(n) && |s| <= MAX_DIGITS
  }

  predicate AllDigits(s: string) {
    forall i :: 0 <= i < |s| ==> IsDigit(s[i])
  }

  /** One digit more, read after any others. */
  lemma {:induction false} DigitsMore(s: string, d: char, acc: nat)
    requires s != "" && AllDigits(s) && IsDigit(d)
    ensures Digits(s, acc).Some? && Digits(s, acc).value >= 0
    ensures Digits(s + [d], acc) == Some(10 * Digits(s, acc).value + (d as int - '0' as int))
    decreases |s|
  {
    assert IsDigit(s[0]);
    var n := 10 * acc + (s[0] as int - '0' as int);
    assert (s + [d])[1..] == s[1..] + [d];
    if |s| > 1 {
      DigitsMore(s[1..], d, n);
    } else {
      assert s[1..] + [d] == [d];
    }
  }

  lemma {:induction false} DigitsOfDecimal(n: nat)
    ensures AllDigits(Decimal(n)) && Digits(Decimal(n), 0) == Some(n)
    ensures CountDigits(Decimal(n)) == |Decimal(n)|
  {
    if n >= 10 {
      DigitsOfDecimal(n / 10);
      DigitsMore(Decimal(n / 10), (n % 10 + '0' as int) as char, 0);
    }
    AllCounted(Decimal(n));
  }

  lemma {:induction false} AllCounted(s: string)
    requires AllDigits(s)
    ensures CountDigits(s) == |s|
  {
    if s != "" {
      AllCounted(s[1..]);
    }
  }

  lemma {:induction false} StripLeftBlank(a: string, s: string)
    requires (forall i :: 0 <= i < |a| ==> IsSpace(a[i])) && (s == "" || !IsSpace(s[0]))
    ensures StripLeft(a + s) == s
  {
    if a == "" {
      assert a + s == s;
    } else {
      assert (a + s)[1..] == a[1..] + s;
      StripLeftBlank(a[1..], s);
    }
  }

  lemma {:induction false} StripRightBlank(s: string, b: string)
    requires (forall i :: 0 <= i < |b| ==> IsSpace(b[i])) && (s == "" || !IsSpace(s[|s| - 1]))
    ensures StripRight(s + b) == s
  {
    if b == "" {
      assert s + b == s;
    } else {
      assert (s + b)[..|s + b| - 1] == s + b[..|b| - 1];
      StripRightBlank(s, b[..|b| - 1]);
    }
  }

  /** Stripping takes off the white space around, and nothing else. */
  lemma StripBlank(a: string, s: string, b: string)
    requires (forall i :: 0 <= i < |a| ==> IsSpace(a[i])) && (forall i :: 0 <= i < |b| ==> IsSpace(b[i]))
    requires Trimmed(s)
    ensures Strip(a + s + b) == s
  {
    hide StripLeft, StripRight;
    if s == "" {
      assert a + s + b == (a + b) + "";
      StripLeftBlank(a + b, "");
      assert "" + "" == "";
      StripRightBlank("", "");
    } else {
      assert a + s + b == a + (s + b);
      StripLeftBlank(a, s + b);
      StripRightBlank(s, b);
    }
  }

  /** int() reads back what is written in decimal, with white space around it and with a sign, up to
      its limit of digits. */
  lemma DecimalIsRead(a: string, n: nat, b: string)
    requires (forall i :: 0 <= i < |a| ==> IsSpace(a[i])) && (forall i :: 0 <= i < |b| ==> IsSpace(b[i]))
    ensures var fits, m: int := |Decimal(n)| <= MAX_DIGITS, n;
      && ToInt(a + Decimal(n) + b) == (if fits then Some(n) else None)
      && ToInt(a + ("-" + Decimal(n)) + b) == (if fits then Some(-m) else None)
      && ToInt(a + ("+" + Decimal(n)) + b) == (if fits then Some(n) else None)
  {
    hide Strip, Digits, CountDigits, Decimal;
    DigitsOfDecimal(n);
    var d := Decimal(n);
    assert IsDigit(d[0]) && IsDigit(d[|d| - 1]);
    StripBlank(a, d, b);
    StripBlank(a, "-" + d, b);
    StripBlank(a, "+" + d, b);
    SignNotCounted("-", d);
    SignNotCounted("+", d);
    assert ("-" + d)[1..] == d && ("+" + d)[1..] == d;
  }

  lemma SignNotCounted(sign: string, d: string)
    requires |sign| == 1 && !IsDigit(sign[0])
    ensures CountDigits(sign + d) == CountDigits(d)
  {
    assert (sign + d)[1..] == d;
  }

  /** One underscore between digits is passed over; at the end or before anything else it is an error. */
  lemma {:induction false} UnderscorePassed(s: string, t: string, acc: nat)
    requires s != "" && AllDigits(s)
    ensures Digits(s + "_" + t, acc) == if t != "" && IsDigit(t[0]) then Digits(s + t, acc) else None
    decreases |s|
  {
    assert IsDigit(s[0]) && s + "_" + t == s + ("_" + t);
    if |s| == 1 {
      assert (s + "_" + t)[2..] == t && (s + t)[1..] == t;
    } else {
      var rest := s[1..];
      assert (s + "_" + t)[1..] == rest + "_" + t && (s + t)[1..] == rest + t;
      assert s[1] == rest[0] && IsDigit(rest[0]);
      UnderscorePassed(rest, t, 10 * acc + (s[0] as int - '0' as int));
    }
  }

  /** Anything but digits, underscores, a sign and white space is refused. */
  lemma OnlyNumbersRead(s: string, i: nat)
    requires i < |s| && !IsDigit(s[i]) && s[i] != '_' && s[i] != '-' && s[i] != '+' && !IsSpace(s[i])
    ensures ToInt(s) == None
  {
    hide Strip, Digits;
    var t := Strip(s);
    var j := StripKeeps(s, i);
    var signed := t != "" && (t[0] == '-' || t[0] == '+');
    if signed {
      assert t[1..][j - 1] == t[j];
      DigitsRefuse(t[1..], j - 1, 0);
    } else {
      DigitsRefuse(t, j, 0);
    }
  }

  lemma {:induction false} DigitsRefuse(s: string, i: nat, acc: nat)
    requires i < |s| && !IsDigit(s[i]) && s[i] != '_'
    ensures Digits(s, acc) == None
    decreases |s|
  {
    if IsDigit(s[0]) && |s| > 1 {
      var n := 10 * acc + (s[0] as int - '0' as int);
      if s[1] == '_' {
        if |s| > 2 {
          DigitsRefuse(s[2..], i - 2, n);
        }
      } else {
        DigitsRefuse(s[1..], i - 1, n);
      }
    }
  }

  /** A character that is not white space survives stripping. */
  lemma StripKeeps(s: string, i: nat) returns (j: nat)
    requires i < |s| && !IsSpace(s[i])
    ensures j < |Strip(s)| && Strip(s)[j] == s[i]
  {
    j := StripLeftKeeps(s, i);
    StripRightKeeps(StripLeft(s), j);
  }

  lemma {:induction false} StripLeftKeeps(s: string, i: nat) returns (j: nat)
    requires i < |s| && !IsSpace(s[i])
    ensures j < |StripLeft(s)| && StripLeft(s)[j] == s[i]
  {
    if IsSpace(s[0]) {
      j := StripLeftKeeps(s[1..], i - 1);
    } else {
      j := i;
    }
  }

  lemma {:induction false} StripRightKeeps(s: string, i: nat)
    requires i < |s| && !IsSpace(s[i])
    ensures i < |StripRight(s)| && StripRight(s)[i] == s[i]
  {
    if IsSpace(s[|s| - 1]) {
      StripRightKeeps(s[..|s| - 1], i);
    }
  }

  function HeadLines(m: Message): seq<string> {
    [m.verb + " " + m.path + " HTTP/1.1"] + FieldLines(m.fields)
  }

  function Join(lines: seq<string>): string
    requires lines != []
  {
    if |lines| == 1 then lines[0] else lines[0] + "\r\n" + Join(lines[1..])
  }

  function HeadText(m: Message): string {
    Join(HeadLines(m))
  }

  function Send(m: Message): string {
    HeadText(m) + "\r\n\r\n" + m.body
  }

  // ----- the blank line is where the head ends -----

  ghost predicate LinesOk(lines: seq<string>) {
    lines != [] && forall i :: 0 <= i < |lines| ==> lines[i] != "" && NoCr(lines[i])
  }

  /** A blank line cannot begin in the first line, nor at its end when another line follows. */
  lemma NotInFirstLine(line: string, rest: string, j: nat)
    requires NoCr(line) && rest != "" && rest[0] != '\r' && j < |line| + 2
    ensures !EndsAt(line + "\r\n" + rest, j)
  {
    var s, n := line + "\r\n" + rest, |line|;
    if j < n {
      assert s[j] == line[j];
    } else {
      assert s[n] == '\r' && s[n + 1] == '\n' && s[n + 2] == rest[0];
    }
  }

  lemma BehindFirstLine(line: string, rest: string, j: nat)
    requires |line| + 2 <= j && !EndsAt(rest, j - |line| - 2)
    ensures !EndsAt(line + "\r\n" + rest, j)
  {
    var s, d := line + "\r\n" + rest, |line| + 2;
    assert s[d..] == rest;
    assert forall k :: 0 <= k < |rest| ==> s[d + k] == rest[k];
  }

  lemma InOnlyLine(line: string, tail: string, j: nat)
    requires NoCr(line) && j < |line|
    ensures !EndsAt(line + "\r\n\r\n" + tail, j)
  {
    assert (line + "\r\n\r\n" + tail)[j] == line[j];
  }

  lemma {:induction false} NoBlankLineBefore(lines: seq<string>, tail: string, j: nat)
    requires LinesOk(lines) && j < |Join(lines)|
    ensures !EndsAt(Join(lines) + "\r\n\r\n" + tail, j)
  {
    hide EndsAt;
    if |lines| == 1 {
      InOnlyLine(lines[0], tail, j);
    } else {
      var rest := Join(lines[1..]) + "\r\n\r\n" + tail;
      assert Join(lines) + "\r\n\r\n" + tail == lines[0] + "\r\n" + rest;
      JoinStarts(lines[1..]);
      assert lines[1..][0] == lines[1];
      if j < |lines[0]| + 2 {
        NotInFirstLine(lines[0], rest, j);
      } else {
        NoBlankLineBefore(lines[1..], tail, j - |lines[0]| - 2);
        BehindFirstLine(lines[0], rest, j);
      }
    }
  }

  lemma JoinStarts(lines: seq<string>)
    requires lines != [] && lines[0] != ""
    ensures Join(lines) != "" && Join(lines)[0] == lines[0][0]
  {
  }

  lemma HeadFound(lines: seq<string>, tail: string)
    requires LinesOk(lines)
    ensures var s := Join(lines) + "\r\n\r\n" + tail;
      HasHead(s) && HeadEnd(s) == |Join(lines)| + 4 && s[..HeadEnd(s) - 4] == Join(lines) && s[HeadEnd(s)..] == tail
  {
    var s := Join(lines) + "\r\n\r\n" + tail;
    var n := |Join(lines)|;
    assert EndsAt(s, n);
    forall j: nat | j < n ensures !EndsAt(s, j) {
      NoBlankLineBefore(lines, tail, j);
    }
    assert Find(s, 0) == n;
  }

  // ----- the lines of the head -----

  lemma {:induction false} LinesTakeOne(line: string, rest: string)
    requires NoCr(line)
    ensures Lines(line + "\r\n" + rest) == [line] + Lines(rest)
  {
    var s := line + "\r\n" + rest;
    if line == "" {
      assert s[2..] == rest;
    } else {
      assert s[1..] == line[1..] + "\r\n" + rest;
      LinesTakeOne(line[1..], rest);
      assert s[0] == line[0] && [line[0]] + line[1..] == line;
    }
  }

  lemma {:induction false} LinesOfLine(line: string)
    requires NoCr(line)
    ensures Lines(line) == [line]
  {
    if line != "" {
      LinesOfLine(line[1..]);
      assert [line[0]] + line[1..] == line;
    }
  }

  lemma {:induction false} LinesOfJoin(lines: seq<string>)
    requires LinesOk(lines)
    ensures Lines(Join(lines)) == lines
  {
    if |lines| == 1 {
      LinesOfLine(lines[0]);
    } else {
      LinesOfJoin(lines[1..]);
      LinesTakeOne(lines[0], Join(lines[1..]));
      assert lines[0] + "\r\n" + Join(lines[1..]) == Join(lines);
      assert [lines[0]] + lines[1..] == lines;
    }
  }

  // ----- the request line -----

  lemma {:induction false} WordsTakeOne(word: string, rest: string, acc: string)
    requires NoSpace(word)
    ensures Words(word + rest, acc) == Words(rest, acc + word)
  {
    if word == "" {
      assert word + rest == rest && acc + word == acc;
    } else {
      assert (word + rest)[0] == word[0] && (word + rest)[1..] == word[1..] + rest;
      WordsTakeOne(word[1..], rest, acc + [word[0]]);
      assert acc + [word[0]] + word[1..] == acc + word;
    }
  }

  lemma WordThenSpace(word: string, rest: string)
    requires word != "" && NoSpace(word)
    ensures Words(word + " " + rest, "") == [word] + Words(rest, "")
  {
    assert word + " " + rest == word + (" " + rest);
    WordsTakeOne(word, " " + rest, "");
    assert "" + word == word && (" " + rest)[1..] == rest;
  }

  lemma RequestLineWords(verb: string, path: string)
    requires verb != "" && NoSpace(verb) && path != "" && NoSpace(path)
    ensures Words(verb + " " + path + " HTTP/1.1", "") == [verb, path, "HTTP/1.1"]
  {
    assert verb + " " + path + " HTTP/1.1" == verb + " " + (path + " " + "HTTP/1.1");
    WordThenSpace(verb, path + " " + "HTTP/1.1");
    WordThenSpace(path, "HTTP/1.1");
    WordsTakeOne("HTTP/1.1", "", "");
    assert "HTTP/1.1" + "" == "HTTP/1.1" && "" + "HTTP/1.1" == "HTTP/1.1";
  }

  // ----- the fields -----

  lemma {:induction false} PartitionField(name: string, rest: string)
    requires forall i :: 0 <= i < |name| ==> name[i] != ':'
    ensures Partition(name + ":" + rest) == Some((name, rest))
  {
    var s := name + ":" + rest;
    if name == "" {
      assert s[1..] == rest;
    } else {
      assert s[1..] == name[1..] + ":" + rest && s[0] == name[0];
      PartitionField(name[1..], rest);
      assert [name[0]] + name[1..] == name;
    }
  }

  lemma AddsField(headers: map<string, string>, f: Field)
    requires FieldOk(f)
    ensures AddField(headers, FieldLine(f)) == headers[Lower(f.name) := f.value]
  {
    hide Strip, Lower, Partition;
    assert FieldLine(f) == f.name + ":" + (f.before + f.value + f.after);
    PartitionField(f.name, f.before + f.value + f.after);
    StripBlank(f.before, f.value, f.after);
    assert "" + f.name + "" == f.name;
    StripBlank("", f.name, "");
  }

  lemma {:induction false} FieldsOfLines(headers: map<string, string>, fields: seq<Field>)
    requires forall i :: 0 <= i < |fields| ==> FieldOk(fields[i])
    ensures Fields(headers, FieldLines(fields)) == FieldMap(headers, fields)
    decreases |fields|
  {
    if fields != [] {
      hide FieldOk, AddField, Lower;
      AddsField(headers, fields[0]);
      assert FieldLines(fields)[1..] == FieldLines(fields[1..]);
      FieldsOfLines(headers[Lower(fields[0].name) := fields[0].value], fields[1..]);
    }
  }

  /** The parsed content length is the length of the body. */
  lemma LengthRead(m: Message)
    requires LengthDeclared(m)
    ensures var h := FieldMap(map[], m.fields);
      ToInt(if "content-length" in h then h["content-length"] else "0") == Some(|m.body|)
  {
    hide ToInt, FieldMap, SameLetters;
    FieldMapAt(map[], m.fields, "content-length");
    if Unnamed(m.fields, "content-length") {
      DecimalIsRead("", 0, "");
      assert Decimal(0) == "0" && "" + "0" + "" == "0";
    } else {
      var i :| LastNamed(m.fields, "content-length", i) && IsDecimal(m.fields[i].value, |m.body|);
      var d := Decimal(|m.body|);
      DecimalIsRead("", |m.body|, "");
      assert "" + d + "" == d;
    }
  }

  // ----- one request, and many -----

  function Received(m: Message): Outcome {
    Request(m.verb, m.path, FieldMap(map[], m.fields), m.body)
  }

  lemma HeadLinesOk(m: Message)
    requires Sendable(m)
    ensures LinesOk(HeadLines(m))
  {
    hide LengthDeclared;
    forall i | 0 <= i < |HeadLines(m)| ensures HeadLines(m)[i] != "" && NoCr(HeadLines(m)[i]) {
      if i > 0 {
        FieldLineOk(m.fields[i - 1]);
      }
    }
  }

  lemma FieldLineOk(f: Field)
    requires FieldOk(f)
    ensures FieldLine(f) != "" && NoCr(FieldLine(f))
  {
  }

  lemma HeadParses(m: Message)
    requires Sendable(m)
    ensures ParseHead(HeadText(m)) == Parsed(Head(m.verb, m.path, FieldMap(map[], m.fields), |m.body|))
  {
    hide Words, Fields, FieldMap, ToInt, Join, LengthDeclared, FieldOk;
    HeadLinesOk(m);
    LinesOfJoin(HeadLines(m));
    RequestLineWords(m.verb, m.path);
    FieldsOfLines(map[], m.fields);
    LengthRead(m);
    assert HeadLines(m)[1..] == FieldLines(m.fields);
  }

  /** A received request has, under every key in lower case, the value of the last field sent under any
      capitalisation of it, and nothing else. */
  lemma HeaderFound(m: Message, key: string)
    requires Sendable(m) && LowerAscii(key)
    ensures key in Received(m).headers <==> !Unnamed(m.fields, key)
    ensures forall i :: LastNamed(m.fields, key, i) ==>
      key in Received(m).headers && Received(m).headers[key] == m.fields[i].value
  {
    hide LengthDeclared, FieldMap, SameLetters, FieldOk;
    FieldMapAt(map[], m.fields, key);
    if !Unnamed(m.fields, key) {
      var i := LastOne(m.fields, key);
    }
  }

  lemma {:induction false} LastOne(fields: seq<Field>, key: string) returns (i: int)
    requires !Unnamed(fields, key)
    ensures LastNamed(fields, key, i)
  {
    hide SameLetters;
    var n := |fields| - 1;
    if SameLetters(fields[n].name, key) {
      i := n;
    } else {
      assert !Unnamed(fields[..n], key);
      i := LastOne(fields[..n], key);
    }
  }

  function JoinBlank(ws: seq<string>): string {
    if ws == [] then "" else if |ws| == 1 then ws[0] else ws[0] + " " + JoinBlank(ws[1..])
  }

  lemma {:induction false} WordsOfAll(ws: seq<string>)
    requires forall i :: 0 <= i < |ws| ==> ws[i] != "" && NoSpace(ws[i])
    ensures Words(JoinBlank(ws), "") == ws
  {
    if |ws| == 1 {
      WordsTakeOne(ws[0], "", "");
      assert ws[0] + "" == ws[0] && "" + ws[0] == ws[0];
    } else if |ws| > 1 {
      WordThenSpace(ws[0], JoinBlank(ws[1..]));
      WordsOfAll(ws[1..]);
    }
  }

  /** A request line of any number of words but three is refused. */
  lemma WrongRequestLine(ws: seq<string>, text: string)
    requires forall i :: 0 <= i < |ws| ==> ws[i] != "" && NoSpace(ws[i])
    requires Lines(text)[0] == JoinBlank(ws)
    ensures ParseHead(text) == Rejected(MalformedRequestLine) <==> |ws| != 3
  {
    hide Words, Fields, ToInt, Lines;
    WordsOfAll(ws);
  }

  /** A sent request followed by anything is read back, and what follows is left. */
  lemma FirstOfSent(m: Message, rest: string)
    requires Sendable(m)
    ensures HeadInReach(Send(m) + rest) && LengthFits(Send(m) + rest)
    ensures First(Send(m) + rest) == Result(Received(m), rest)
  {
    hide HasHead, ParseHead, Join, FieldMap, LengthDeclared;
    assert Send(m) + rest == HeadText(m) + "\r\n\r\n" + (m.body + rest);
    HeadLinesOk(m);
    HeadFound(HeadLines(m), m.body + rest);
    HeadParses(m);
    assert (m.body + rest)[..|m.body|] == m.body && (m.body + rest)[|m.body|..] == rest;
  }

  function SendAll(ms: seq<Message>): string {
    if ms == [] then "" else Send(ms[0]) + SendAll(ms[1..])
  }

  /** The messages up to the first after which the connection is not kept, or all and the close. */
  function ReceivedUntil(ms: seq<Message>, keep: Outcome -> bool): seq<Outcome> {
    if ms == [] then [Closed]
    else [Received(ms[0])] + if keep(Received(ms[0])) then ReceivedUntil(ms[1..], keep) else []
  }

  /** A pipeline is read back message by message, whatever decides to keep the connection. */
  lemma {:induction false} PipelineIsRead(ms: seq<Message>, keep: Outcome -> bool)
    requires forall i :: 0 <= i < |ms| ==> Sendable(ms[i])
    ensures AllFit(SendAll(ms), keep) && Served(SendAll(ms), keep) == ReceivedUntil(ms, keep)
  {
    hide First, HasHead, LengthFits, HeadInReach, Sendable, Received;
    if ms == [] {
      NothingToRead();
    } else {
      FirstOfSent(ms[0], SendAll(ms[1..]));
      PipelineIsRead(ms[1..], keep);
      ReceivedIsRequest(ms[0]);
    }
  }

  lemma ReceivedIsRequest(m: Message)
    ensures Received(m).Request?
  {
  }

  lemma NothingToRead()
    ensures HeadInReach("") && LengthFits("") && First("") == Result(Closed, "")
  {
    NoHeadInNothing();
  }
}
