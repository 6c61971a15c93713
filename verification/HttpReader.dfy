/** The incremental request reader of the fast HTTP server (_read_fast_http_request and the loop of
  _handle_connection in src/torchinferno/openai_http.py).

  A connection delivers a byte stream in pieces whose sizes the reader does not control: `cuts` lists
  the sizes the network would like to deliver, and each recv gets at least one byte and at most what
  it asked for. */
module HttpReader {
  import opened HttpHead

  type Bytes = string

  const LIMIT := 65536

  datatype Outcome =
    | Request(verb: string, path: string, headers: map<string, string>, body: Bytes)
    | Closed                       // end of stream before a complete head: the reader returns None
    | HeadTooLarge
    | BadHead(error: HeadError)
    | Disconnected                 // end of stream inside the body

  /** What a read leaves: the buffer, the bytes not yet received, and the cuts not yet used. */
  datatype Reading = Reading(outcome: Outcome, buffer: Bytes, unread: Bytes, cuts: seq<nat>)

  // ----- the end of the head -----

  predicate EndsAt(s: Bytes, i: nat) {
    i + 4 <= |s| && s[i] == '\r' && s[i + 1] == '\n' && s[i + 2] == '\r' && s[i + 3] == '\n'
  }

  /** The first blank line from position i on; |s| if there is none. */
  function Find(s: Bytes, i: nat): (r: nat)
    requires i <= |s|
    ensures i <= r <= |s| && (r < |s| ==> EndsAt(s, r)) && forall j: nat :: i <= j < r ==> !EndsAt(s, j)
    decreases |s| - i
  {
    if i == |s| || EndsAt(s, i) then i else Find(s, i + 1)
  }

  predicate HasHead(s: Bytes) {
    Find(s, 0) < |s|
  }

  /** The position behind the blank line. */
  function HeadEnd(s: Bytes): (e: nat)
    requires HasHead(s)
    ensures 4 <= e <= |s|
  {
    Find(s, 0) + 4
  }

  /** A longer stream has the same head, and a prefix has it as soon as it reaches behind it. */
  lemma HeadOfPrefix(a: Bytes, b: Bytes)
    ensures HasHead(a) ==> HasHead(a + b) && HeadEnd(a + b) == HeadEnd(a)
    ensures HasHead(a + b) && HeadEnd(a + b) <= |a| ==> HasHead(a)
    ensures HasHead(a) ==> HasHead(a + b) && (a + b)[..HeadEnd(a) - 4] == a[..HeadEnd(a) - 4]
  {
    assert forall j: nat :: j + 4 <= |a| ==> EndsAt(a, j) == EndsAt(a + b, j);
    if HasHead(a) {
      assert EndsAt(a + b, Find(a, 0));
    }
    if HasHead(a + b) && HeadEnd(a + b) <= |a| {
      assert EndsAt(a, Find(a + b, 0));
    }
  }

  // ----- reading -----

  /** The size of the next piece: at least one byte, at most n and what is left. */
  function Piece(cuts: seq<nat>, n: nat, left: nat): (k: nat)
    requires n > 0 && left > 0
    ensures 1 <= k <= n && k <= left
  {
    var most := if n < left then n else left;
    if cuts == [] || cuts[0] > most then most else if cuts[0] == 0 then 1 else cuts[0]
  }

  function Later(cuts: seq<nat>): seq<nat> {
    if cuts == [] then [] else cuts[1..]
  }

  function ReadHead(buffer: Bytes, unread: Bytes, cuts: seq<nat>): (r: Reading)
    decreases |unread|
  {
    if HasHead(buffer) then Reading(Request("", "", map[], ""), buffer, unread, cuts)
    else if unread == "" then Reading(Closed, buffer, unread, cuts)
    else
      var k := Piece(cuts, 65536, |unread|);
      var b := buffer + unread[..k];
      if |b| > LIMIT && !HasHead(b) then Reading(HeadTooLarge, b, unread[k..], Later(cuts))
      else ReadHead(b, unread[k..], Later(cuts))
  }

  /** Receives until the buffer holds the body; never more than is missing. */
  function ReadBody(buffer: Bytes, unread: Bytes, cuts: seq<nat>, length: int): (r: Reading)
    decreases |unread|
  {
    if |buffer| >= length then Reading(Request("", "", map[], ""), buffer, unread, cuts)
    else if unread == "" then Reading(Disconnected, buffer, unread, cuts)
    else
      var missing := length - |buffer|;
      var k := Piece(cuts, if missing < 65536 then missing else 65536, |unread|);
      ReadBody(buffer + unread[..k], unread[k..], Later(cuts), length)
  }

  /** The slices b[:n] and b[n:] of Python: a negative n counts from the end. */
  function Cut(b: Bytes, n: int): (k: nat)
    ensures k <= |b| && (0 <= n <= |b| ==> k == n)
  {
    if n > |b| then |b| else if n >= 0 then n else if -n > |b| then 0 else |b| + n
  }

  /** The rest of a read, once the buffer holds the head: parse it, take the body. */
  function ReadRest(h: Reading): (r: Reading)
    requires HasHead(h.buffer)
  {
    var e := HeadEnd(h.buffer);
    match ParseHead(h.buffer[..e - 4])
    case Rejected(error) => Reading(BadHead(error), h.buffer[e..], h.unread, h.cuts)
    case Parsed(head) => TakeBody(head, ReadBody(h.buffer[e..], h.unread, h.cuts, head.length))
  }

  function TakeBody(head: Head, b: Reading): (r: Reading) {
    if !b.outcome.Request? then b
    else
      var k := Cut(b.buffer, head.length);
      Reading(Request(head.verb, head.path, head.headers, b.buffer[..k]), b.buffer[k..], b.unread, b.cuts)
  }

  function Read(buffer: Bytes, unread: Bytes, cuts: seq<nat>): (r: Reading) {
    var h := ReadHead(buffer, unread, cuts);
    if h.outcome.Request? && HasHead(h.buffer) then ReadRest(h) else h
  }

  // ----- what is read, as a function of the stream alone -----

  datatype Result = Result(outcome: Outcome, rest: Bytes)

  function Whole(r: Reading): Result {
    Result(r.outcome, if r.outcome.Request? then r.buffer + r.unread else "")
  }

  /** The first request of a stream, without any cuts. */
  function First(s: Bytes): Result {
    if !HasHead(s) then Result(if |s| > LIMIT then HeadTooLarge else Closed, "")
    else if HeadEnd(s) > LIMIT + 1 then Result(HeadTooLarge, "")
    else
      var e := HeadEnd(s);
      FirstRest(ParseHead(s[..e - 4]), s[e..])
  }

  function FirstRest(head: HeadResult, s: Bytes): Result {
    match head
    case Rejected(error) => Result(BadHead(error), "")
    case Parsed(head) =>
      if head.length < 0 then Result(Request(head.verb, head.path, head.headers, ""), s)
      else if |s| < head.length then Result(Disconnected, "")
      else Result(Request(head.verb, head.path, head.headers, s[..head.length]), s[head.length..])
  }

  /** The head ends where every delivery lets the reader see it in time, or none does. */
  predicate HeadInReach(s: Bytes) {
    HasHead(s) ==> HeadEnd(s) <= LIMIT + 1
  }

  predicate LengthFits(s: Bytes) {
    HasHead(s) && HeadEnd(s) <= LIMIT + 1 ==>
      match ParseHead(s[..HeadEnd(s) - 4])
      case Rejected(_) => true
      case Parsed(head) => head.length >= 0
  }

  lemma {:induction false} ReadHeadIs(buffer: Bytes, unread: Bytes, cuts: seq<nat>)
    requires |buffer| <= LIMIT && HeadInReach(buffer + unread)
    ensures var r := ReadHead(buffer, unread, cuts);
      var s := buffer + unread;
      if HasHead(s) then
        && r.outcome.Request? && r.buffer + r.unread == s && HasHead(r.buffer)
        && HeadEnd(r.buffer) == HeadEnd(s) && r.buffer[..HeadEnd(s) - 4] == s[..HeadEnd(s) - 4]
        && |r.buffer| - HeadEnd(s) <= LIMIT
      else r.outcome == if |s| > LIMIT then HeadTooLarge else Closed
    decreases |unread|
  {
    var s := buffer + unread;
    HeadOfPrefix(buffer, unread);
    if !HasHead(buffer) {
      if unread == "" {
        assert s == buffer;
      } else {
        var k := Piece(cuts, 65536, |unread|);
        var b := buffer + unread[..k];
        assert b + unread[k..] == s;
        HeadOfPrefix(b, unread[k..]);
        HeadOfPrefix(buffer, unread[..k]);
        if |b| <= LIMIT {
          ReadHeadIs(b, unread[k..], Later(cuts));
        }
      }
    }
  }

  lemma {:induction false} ReadBodyIs(buffer: Bytes, unread: Bytes, cuts: seq<nat>, length: int)
    ensures var r := ReadBody(buffer, unread, cuts, length);
      var s := buffer + unread;
      if |s| < length then r.outcome == Disconnected
      else
        && r.outcome.Request? && r.buffer + r.unread == s && |r.buffer| >= length
        && (|buffer| >= length ==> r.buffer == buffer) && (|buffer| < length ==> |r.buffer| == length)
    decreases |unread|
  {
    var s := buffer + unread;
    if |buffer| < length && unread != "" {
      var missing := length - |buffer|;
      var k := Piece(cuts, if missing < 65536 then missing else 65536, |unread|);
      assert (buffer + unread[..k]) + unread[k..] == s;
      ReadBodyIs(buffer + unread[..k], unread[k..], Later(cuts), length);
    }
  }

  lemma TakeBodyIs(head: Head, buffer: Bytes, unread: Bytes, cuts: seq<nat>)
    requires head.length >= 0 && |buffer| <= LIMIT
    ensures var r := TakeBody(head, ReadBody(buffer, unread, cuts, head.length));
      && Whole(r) == FirstRest(Parsed(head), buffer + unread)
      && (r.outcome.Request? ==> |r.buffer| <= LIMIT)
  {
    hide ReadBody;
    ReadBodyIs(buffer, unread, cuts, head.length);
    var b := ReadBody(buffer, unread, cuts, head.length);
    if b.outcome.Request? {
      BodySplit(buffer + unread, b.buffer, b.unread, head.length);
    }
  }

  lemma ReadRestIs(h: Reading, s: Bytes)
    requires h.buffer + h.unread == s && HasHead(h.buffer) && HasHead(s)
    requires HeadEnd(h.buffer) == HeadEnd(s) <= LIMIT + 1 && h.buffer[..HeadEnd(s) - 4] == s[..HeadEnd(s) - 4]
    requires |h.buffer| - HeadEnd(s) <= LIMIT && LengthFits(s)
    ensures Whole(ReadRest(h)) == First(s)
    ensures ReadRest(h).outcome.Request? ==> |ReadRest(h).buffer| <= LIMIT
  {
    hide ParseHead, ReadBody, HasHead, TakeBody;
    var e := HeadEnd(s);
    assert h.buffer[e..] + h.unread == s[e..];
    if ParseHead(s[..e - 4]).Parsed? {
      TakeBodyIs(ParseHead(s[..e - 4]).head, h.buffer[e..], h.unread, h.cuts);
    }
  }

  /** However the stream is delivered, the reader returns the first request of the stream, and the
      buffer and the unread bytes together are exactly what follows that request. */
  lemma ReadIsFirst(buffer: Bytes, unread: Bytes, cuts: seq<nat>)
    requires |buffer| <= LIMIT && HeadInReach(buffer + unread) && LengthFits(buffer + unread)
    ensures Whole(Read(buffer, unread, cuts)) == First(buffer + unread)
    ensures Read(buffer, unread, cuts).outcome.Request? ==> |Read(buffer, unread, cuts).buffer| <= LIMIT
  {
    hide ReadHead, ReadRest, HasHead, FirstRest;
    var s := buffer + unread;
    ReadHeadIs(buffer, unread, cuts);
    if HasHead(s) {
      ReadRestIs(ReadHead(buffer, unread, cuts), s);
    }
  }

  lemma BodySplit(s: Bytes, b: Bytes, u: Bytes, n: nat)
    requires b + u == s && n <= |b|
    ensures b[..n] == s[..n] && b[n..] + u == s[n..]
  {
  }

  // ----- exactly when the delivery does not matter -----

  /** On a new connection every delivery of s gives the same result. */
  ghost predicate Independent(s: Bytes) {
    forall c, d :: Whole(Read("", s, c)) == Whole(Read("", s, d))
  }

  /** No blank line; or one too far for any delivery to show in time; or one in reach, with a length
      that is not negative or counts back over everything a delivery can have put in the buffer. */
  predicate DeliveryProof(s: Bytes) {
    !HasHead(s) || HeadEnd(s) > 2 * LIMIT ||
    (HeadEnd(s) <= LIMIT + 1 &&
     match ParseHead(s[..HeadEnd(s) - 4])
     case Rejected(_) => true
     case Parsed(head) => head.length >= 0 || |s| - HeadEnd(s) <= -head.length || LIMIT - 1 <= -head.length)
  }

  lemma {:induction false} FarHeadIsTooLarge(buffer: Bytes, unread: Bytes, cuts: seq<nat>)
    requires HasHead(buffer + unread) && HeadEnd(buffer + unread) > 2 * LIMIT && |buffer| <= LIMIT
    ensures ReadHead(buffer, unread, cuts).outcome == HeadTooLarge
    decreases |unread|
  {
    HeadOfPrefix(buffer, unread);
    if unread != "" {
      var k := Piece(cuts, 65536, |unread|);
      var b := buffer + unread[..k];
      assert b + unread[k..] == buffer + unread;
      HeadOfPrefix(b, unread[k..]);
      if |b| <= LIMIT {
        FarHeadIsTooLarge(b, unread[k..], Later(cuts));
      }
    }
  }

  /** The buffer never holds more than 65535 bytes beyond the head when the head arrives. */
  lemma {:induction false} HeadArrives(buffer: Bytes, unread: Bytes, cuts: seq<nat>)
    requires !HasHead(buffer) && |buffer| <= LIMIT
    ensures var r := ReadHead(buffer, unread, cuts);
      r.outcome.Request? ==> HasHead(r.buffer) && |r.buffer| - HeadEnd(r.buffer) < LIMIT
    decreases |unread|
  {
    if unread != "" {
      var k := Piece(cuts, 65536, |unread|);
      var b := buffer + unread[..k];
      HeadOfPrefix(buffer, unread[..k]);
      if !HasHead(b) && |b| <= LIMIT {
        HeadArrives(b, unread[k..], Later(cuts));
      }
    }
  }

  lemma NegativeRest(h: Reading, head: Head)
    requires HasHead(h.buffer) && ParseHead(h.buffer[..HeadEnd(h.buffer) - 4]) == Parsed(head)
    requires head.length < 0
    ensures var b := h.buffer[HeadEnd(h.buffer)..];
      Whole(ReadRest(h)) == Result(Request(head.verb, head.path, head.headers, b[..Cut(b, head.length)]),
                                   b[Cut(b, head.length)..] + h.unread)
  {
    hide HasHead, ParseHead, Cut;
  }

  lemma FirstNegative(s: Bytes, head: Head)
    requires HasHead(s) && HeadEnd(s) <= LIMIT + 1 && ParseHead(s[..HeadEnd(s) - 4]) == Parsed(head)
    requires head.length < 0
    ensures First(s) == Result(Request(head.verb, head.path, head.headers, ""), s[HeadEnd(s)..])
  {
    hide ParseHead, HasHead;
  }

  lemma NothingCut(b: Bytes, n: int)
    requires n < 0 && |b| <= -n
    ensures Cut(b, n) == 0 && b[..0] == "" && b[0..] == b
  {
  }

  lemma NegativeLengthReadsNothing(s: Bytes, cuts: seq<nat>, head: Head)
    requires HasHead(s) && HeadEnd(s) <= LIMIT + 1 && ParseHead(s[..HeadEnd(s) - 4]) == Parsed(head)
    requires head.length < 0 && (|s| - HeadEnd(s) <= -head.length || LIMIT - 1 <= -head.length)
    ensures Whole(Read("", s, cuts)) == First(s)
  {
    hide ParseHead, HasHead, ReadHead, ReadRest, First, Cut;
    assert "" + s == s;
    NoHeadInNothing();
    FirstNegative(s, head);
    ReadHeadIs("", s, cuts);
    HeadArrives("", s, cuts);
    var h := ReadHead("", s, cuts);
    var e := HeadEnd(s);
    assert |h.buffer| + |h.unread| == |s|;
    NegativeRest(h, head);
    NothingCut(h.buffer[e..], head.length);
    assert h.buffer[e..] + h.unread == s[e..];
  }

  lemma NoHeadInNothing()
    ensures !HasHead("")
  {
  }

  lemma DeliveryProofSuffices(s: Bytes, cuts: seq<nat>)
    requires DeliveryProof(s)
    ensures Whole(Read("", s, cuts)) == First(s)
  {
    hide ReadRest, ReadHead, HasHead, ParseHead, First;
    assert "" + s == s;
    if HasHead(s) && HeadEnd(s) > 2 * LIMIT {
      FarHeadIsTooLarge("", s, cuts);
      FarFirst(s);
    } else if LengthFits(s) {
      ReadIsFirst("", s, cuts);
    } else {
      NegativeLengthReadsNothing(s, cuts, ParseHead(s[..HeadEnd(s) - 4]).head);
    }
  }

  lemma FarFirst(s: Bytes)
    requires HasHead(s) && HeadEnd(s) > LIMIT + 1
    ensures First(s) == Result(HeadTooLarge, "")
  {
  }

  /** One more piece, from p to q bytes. */
  lemma OnePiece(s: Bytes, p: nat, q: nat, cuts: seq<nat>)
    requires p < q <= |s| && !HasHead(s[..p]) && Piece(cuts, 65536, |s| - p) == q - p
    ensures ReadHead(s[..p], s[p..], cuts) ==
      if q > LIMIT && !HasHead(s[..q]) then Reading(HeadTooLarge, s[..q], s[q..], Later(cuts))
      else ReadHead(s[..q], s[q..], Later(cuts))
  {
    hide HasHead;
    assert s[..p] + s[p..][..q - p] == s[..q] && s[p..][q - p..] == s[q..];
  }

  lemma PrefixHead(s: Bytes, n: nat)
    requires HasHead(s) && n <= |s|
    ensures HasHead(s[..n]) <==> HeadEnd(s) <= n
    ensures HasHead(s[..n]) ==> HeadEnd(s[..n]) == HeadEnd(s)
  {
    assert s[..n] + s[n..] == s;
    HeadOfPrefix(s[..n], s[n..]);
  }

  /** Two pieces, a and then b bytes, of which only the second can show the blank line. */
  lemma TwoPieces(s: Bytes, a: nat, b: nat)
    requires 1 <= a <= LIMIT && 1 <= b <= 65536 && HasHead(s) && a < HeadEnd(s)
    requires a + b > LIMIT || HeadEnd(s) <= a + b
    ensures var n := if a + b < |s| then a + b else |s|;
      ReadHead("", s, [a, b]) ==
        if HeadEnd(s) <= n then Reading(Request("", "", map[], ""), s[..n], s[n..], [])
        else Reading(HeadTooLarge, s[..n], s[n..], [])
    ensures HeadEnd(s) <= a + b ==>
      var n := if a + b < |s| then a + b else |s|; HasHead(s[..n]) && HeadEnd(s[..n]) == HeadEnd(s)
  {
    hide HasHead;
    NoHeadInNothing();
    var n := if a + b < |s| then a + b else |s|;
    PrefixHead(s, a);
    PrefixHead(s, n);
    assert s[..0] == "" && s[0..] == s;
    OnePiece(s, 0, a, [a, b]);
    OnePiece(s, a, n, [b]);
  }

  /** A head that ends behind 65537 bytes is refused or read, depending on the delivery. */
  lemma LateHeadDiffers(s: Bytes)
    requires HasHead(s) && LIMIT + 1 < HeadEnd(s) <= 2 * LIMIT
    ensures Read("", s, [LIMIT, 1]).outcome == HeadTooLarge
    ensures Read("", s, [LIMIT, 65536]).outcome != HeadTooLarge
  {
    hide HasHead, ReadHead, ParseHead;
    TwoPieces(s, LIMIT, 1);
    TwoPieces(s, LIMIT, 65536);
    ReadRestInTime(ReadHead("", s, [LIMIT, 65536]));
  }

  lemma ReadRestInTime(h: Reading)
    requires HasHead(h.buffer)
    ensures ReadRest(h).outcome != HeadTooLarge
  {
    hide ParseHead, HasHead;
    var e := HeadEnd(h.buffer);
    match ParseHead(h.buffer[..e - 4])
    case Rejected(_) =>
    case Parsed(head) => BodyInTime(h.buffer[e..], h.unread, h.cuts, head.length);
  }

  lemma {:induction false} BodyInTime(buffer: Bytes, unread: Bytes, cuts: seq<nat>, length: int)
    ensures ReadBody(buffer, unread, cuts, length).outcome != HeadTooLarge
  {
    ReadBodyIs(buffer, unread, cuts, length);
  }

  /** With a negative length the body is what the buffer happens to hold beyond the head. */
  lemma NegativeLengthDiffers(s: Bytes, head: Head)
    requires HasHead(s) && HeadEnd(s) <= LIMIT + 1 && ParseHead(s[..HeadEnd(s) - 4]) == Parsed(head)
    requires head.length < 0 && |s| - HeadEnd(s) > -head.length && -head.length < LIMIT - 1
    ensures Whole(Read("", s, [HeadEnd(s) - 1, 1])) != Whole(Read("", s, [HeadEnd(s) - 1, 65536]))
  {
    hide HasHead, ReadHead, ParseHead, ReadRest;
    var e := HeadEnd(s);
    TwoPieces(s, e - 1, 1);
    TwoPieces(s, e - 1, 65536);
    var n := if e - 1 + 65536 < |s| then e - 1 + 65536 else |s|;
    assert s[..e][..e - 4] == s[..e - 4] && s[..n][..e - 4] == s[..e - 4];
    NegativeRest(ReadHead("", s, [e - 1, 1]), head);
    NegativeRest(ReadHead("", s, [e - 1, 65536]), head);
    assert |s[..e][e..]| == 0 && |s[..n][e..]| == n - e > -head.length;
  }

  /** The result is the same for every delivery exactly when the stream is delivery-proof, and then
      it is the first request of the stream. */
  lemma IndependentIff(s: Bytes)
    ensures Independent(s) <==> DeliveryProof(s)
  {
    hide ReadHead, ReadRest, HasHead, ParseHead, First, ReadBody;
    if DeliveryProof(s) {
      forall c, d ensures Whole(Read("", s, c)) == Whole(Read("", s, d)) {
        DeliveryProofSuffices(s, c);
        DeliveryProofSuffices(s, d);
      }
    } else if HeadEnd(s) > LIMIT + 1 {
      LateHeadDiffers(s);
      assert Whole(Read("", s, [LIMIT, 1])) != Whole(Read("", s, [LIMIT, 65536]));
    } else {
      NegativeLengthDiffers(s, ParseHead(s[..HeadEnd(s) - 4]).head);
    }
  }

  // ----- the connection -----

  class Connection {
    var buffer: Bytes
    var unread: Bytes
    var cuts: seq<nat>

    constructor (stream: Bytes, cuts: seq<nat>)
      ensures buffer == "" && unread == stream && this.cuts == cuts
    {
      buffer, unread, this.cuts := "", stream, cuts;
    }

    /** recv(n): empty only at the end of the stream. */
    method Recv(n: nat) returns (chunk: Bytes)
      requires n > 0
      modifies this`unread, this`cuts
      ensures old(unread) == "" ==> chunk == "" && unread == "" && cuts == old(cuts)
      ensures old(unread) != "" ==>
        var k := Piece(old(cuts), n, |old(unread)|);
        chunk == old(unread)[..k] && unread == old(unread)[k..] && cuts == Later(old(cuts))
    {
      chunk := "";
      if unread != "" {
        var k := Piece(cuts, n, |unread|);
        chunk, unread, cuts := unread[..k], unread[k..], Later(cuts);
      }
    }

    method ReadRequest() returns (o: Outcome)
      modifies this
      ensures Reading(o, buffer, unread, cuts) == Read(old(buffer), old(unread), old(cuts))
    {
      hide HasHead, ParseHead, Cut;
      ghost var all := ReadHead(buffer, unread, cuts);
      while !HasHead(buffer)
        invariant ReadHead(buffer, unread, cuts) == all
        decreases |unread|
      {
        var chunk := Recv(65536);
        if chunk == "" {
          return Closed;
        }
        buffer := buffer + chunk;
        if |buffer| > LIMIT && !HasHead(buffer) {
          return HeadTooLarge;
        }
      }
      var e := HeadEnd(buffer);
      var headBytes := buffer[..e - 4];
      buffer := buffer[e..];
      var parsed := ParseHead(headBytes);
      if parsed.Rejected? {
        return BadHead(parsed.error);
      }
      var head := parsed.head;
      ghost var rest := ReadBody(buffer, unread, cuts, head.length);
      while |buffer| < head.length
        invariant ReadBody(buffer, unread, cuts, head.length) == rest
        decreases |unread|
      {
        var missing := head.length - |buffer|;
        var chunk := Recv(if missing < 65536 then missing else 65536);
        if chunk == "" {
          return Disconnected;
        }
        buffer := buffer + chunk;
      }
      var k := Cut(buffer, head.length);
      o := Request(head.verb, head.path, head.headers, buffer[..k]);
      buffer := buffer[k..];
    }

    /** The keep-alive loop: one request after the other until one is not answered with keep-alive,
        the stream ends or a request is refused. */
    method Serve(keep: Outcome -> bool) returns (seen: seq<Outcome>)
      requires buffer == "" && AllFit(unread, keep)
      modifies this
      ensures seen == Served(old(unread), keep)
    {
      hide Served, AllFit, HasHead, ParseHead, First, HeadInReach, LengthFits, Read;
      seen := [];
      ghost var stream := unread;
      assert buffer + unread == unread;
      while true
        invariant |buffer| <= LIMIT && AllFit(buffer + unread, keep)
        invariant seen + Served(buffer + unread, keep) == Served(stream, keep)
        decreases |buffer + unread|
      {
        ghost var s := buffer + unread;
        ServedStep(s, keep);
        ReadIsFirst(buffer, unread, cuts);
        var o := ReadRequest();
        if !o.Request? || !keep(o) {
          seen := seen + [o];
          return;
        }
        assert seen + ([o] + Served(buffer + unread, keep)) == seen + [o] + Served(buffer + unread, keep);
        seen := seen + [o];
      }
    }
  }

  lemma ServedStep(s: Bytes, keep: Outcome -> bool)
    requires AllFit(s, keep)
    ensures HeadInReach(s) && LengthFits(s)
    ensures var f := First(s);
      if f.outcome.Request? && keep(f.outcome) then
        |f.rest| < |s| && Served(s, keep) == [f.outcome] + Served(f.rest, keep) && AllFit(f.rest, keep)
      else Served(s, keep) == [f.outcome]
  {
    hide First;
    FirstShorter(s);
  }

  lemma FirstShorter(s: Bytes)
    ensures First(s).outcome.Request? ==> |First(s).rest| < |s|
  {
  }

  /** The outcomes of a stream, one request after the other. */
  function Served(s: Bytes, keep: Outcome -> bool): seq<Outcome>
    decreases |s|
  {
    var f := First(s);
    FirstShorter(s);
    [f.outcome] + if f.outcome.Request? && keep(f.outcome) then Served(f.rest, keep) else []
  }

  /** Every request that is reached has its head in reach and a length that is not negative. */
  ghost predicate AllFit(s: Bytes, keep: Outcome -> bool)
    decreases |s|
  {
    var f := First(s);
    FirstShorter(s);
    HeadInReach(s) && LengthFits(s) && (f.outcome.Request? && keep(f.outcome) ==> AllFit(f.rest, keep))
  }
}
