/** The head of a request as the fast HTTP server parses it
  (_read_fast_http_request in src/torchinferno/openai_http.py). The head is decoded as ISO-8859-1,
  so a byte is the character of the same number and a byte string is a string here. */
module HttpHead {
  import opened Options

  datatype Head = Head(verb: string, path: string, headers: map<string, string>, length: int)
  datatype HeadError = MalformedRequestLine | BadContentLength
  datatype HeadResult = Parsed(head: Head) | Rejected(error: HeadError)

  predicate IsSpace(c: char) {
    '\t' <= c <= '\r' || (28 as char) <= c <= ' ' || c == (133 as char) || c == (160 as char)
  }

  function LowerChar(c: char): char {
    if 'A' <= c <= 'Z' || ((192 as char) <= c <= (222 as char) && c != (215 as char)) then (c as int + 32) as char
    else c
  }

  function Lower(s: string): (r: string)
    ensures |r| == |s|
  {
    if s == "" then "" else [LowerChar(s[0])] + Lower(s[1..])
  }

  function StripLeft(s: string): string {
    if s != "" && IsSpace(s[0]) then StripLeft(s[1..]) else s
  }

  function StripRight(s: string): string {
    if s != "" && IsSpace(s[|s| - 1]) then StripRight(s[..|s| - 1]) else s
  }

  function Strip(s: string): string {
    StripRight(StripLeft(s))
  }

  /** Splits at every CR LF. */
  function Lines(s: string): (r: seq<string>)
    ensures |r| > 0
  {
    if |s| >= 2 && s[0] == '\r' && s[1] == '\n' then [""] + Lines(s[2..])
    else if s == "" then [""]
    else
      var r := Lines(s[1..]);
      [[s[0]] + r[0]] + r[1..]
  }

  /** The words between runs of white space; `word` is the one being read. */
  function Words(s: string, word: string): seq<string> {
    if s == "" then (if word == "" then [] else [word])
    else if IsSpace(s[0]) then (if word == "" then [] else [word]) + Words(s[1..], "")
    else Words(s[1..], word + [s[0]])
  }

  /** Splits at the first colon; None if there is none. */
  function Partition(s: string): Option<(string, string)> {
    if s == "" then None
    else if s[0] == ':' then Some(("", s[1..]))
    else match Partition(s[1..])
      case None => None
      case Some(p) => Some(([s[0]] + p.0, p.1))
  }

  function AddField(headers: map<string, string>, line: string): map<string, string> {
    match Partition(line)
    case None => headers
    case Some(p) => headers[Lower(Strip(p.0)) := Strip(p.1)]
  }

  /** The header fields in order; a later field of the same name replaces an earlier one. */
  function Fields(headers: map<string, string>, lines: seq<string>): map<string, string>
    decreases |lines|
  {
    if lines == [] then headers else Fields(AddField(headers, lines[0]), lines[1..])
  }

  predicate IsDigit(c: char) {
    '0' <= c <= '9'
  }

  /** Decimal digits with single underscores between them, as Python's int() reads them. */
  function Digits(s: string, acc: nat): Option<int> {
    if s == "" || !IsDigit(s[0]) then None
    else
      var n := 10 * acc + (s[0] as int - '0' as int);
      if |s| == 1 then Some(n)
      else Digits(if s[1] == '_' then s[2..] else s[1..], n)
  }

  function CountDigits(s: string): nat {
    if s == "" then 0 else (if IsDigit(s[0]) then 1 else 0) + CountDigits(s[1..])
  }

  /** The conversion int() gives up on more digits than this. */
  const MAX_DIGITS := 4300

  function ToInt(s: string): Option<int> {
    var t := Strip(s);
    var signed := t != "" && (t[0] == '-' || t[0] == '+');
    match Digits(if signed then t[1..] else t, 0)
    case None => None
    case Some(n) => if CountDigits(t) > MAX_DIGITS then None else if signed && t[0] == '-' then Some(-n) else Some(n)
  }

  function ParseHead(bytes: string): HeadResult {
    var lines := Lines(bytes);
    var words := Words(lines[0], "");
    if |words| != 3 then Rejected(MalformedRequestLine)
    else
      var headers := Fields(map[], lines[1..]);
      match ToInt(if "content-length" in headers then headers["content-length"] else "0")
      case None => Rejected(BadContentLength)
      case Some(n) => Parsed(Head(words[0], words[1], headers, n))
  }
}
