/** Prompt-lookup speculative decoding (scripts/validate_prompt_lookup_specdecode.py).

  The model is any deterministic causal network: what it stores for a position, and the token it
  predicts there, depend on the cache entries of the earlier positions and on the token fed in.
  The cache is one array of slots with a length; a forward reads the slots before the position it
  computes, whatever they hold, so reading a stale slot would change the emitted stream. */
module SpecDecode {
  type Token = int

  datatype CausalModel<!Kv> = CausalModel(
    entry: (seq<Kv>, Token) -> Kv,   // the cache entry computed for one more token
    next: (seq<Kv>, Token) -> Token) // the argmax prediction after that token

  /** The entries that `toks` add behind the entries `kv`. */
  function Extend<Kv>(m: CausalModel<Kv>, kv: seq<Kv>, toks: seq<Token>): (r: seq<Kv>)
    ensures |r| == |kv| + |toks|
  {
    if toks == [] then kv
    else
      var r := Extend(m, kv, toks[..|toks| - 1]);
      r + [m.entry(r, toks[|toks| - 1])]
  }

  /** The greedy continuation of a token sequence, recomputed from nothing. */
  function Next<Kv>(m: CausalModel<Kv>, toks: seq<Token>): Token
    requires toks != []
  {
    m.next(Extend(m, [], toks[..|toks| - 1]), toks[|toks| - 1])
  }

  /** The first `n` tokens of the greedy stream after the prompt `ids`. */
  function Greedy<Kv>(m: CausalModel<Kv>, ids: seq<Token>, n: nat): (s: seq<Token>)
    requires ids != []
    ensures |s| == n
  {
    if n == 0 then []
    else var s := Greedy(m, ids, n - 1); s + [Next(m, ids + s)]
  }

  lemma {:induction false} ExtendAppend<Kv>(m: CausalModel<Kv>, kv: seq<Kv>, a: seq<Token>, b: seq<Token>)
    ensures Extend(m, kv, a + b) == Extend(m, Extend(m, kv, a), b)
  {
    if b == [] {
      assert a + b == a;
    } else {
      assert (a + b)[..|a + b| - 1] == a + b[..|b| - 1];
      ExtendAppend(m, kv, a, b[..|b| - 1]);
    }
  }

  lemma {:induction false} ExtendPrefix<Kv>(m: CausalModel<Kv>, kv: seq<Kv>, toks: seq<Token>, i: nat)
    requires i <= |toks|
    ensures Extend(m, kv, toks)[..|kv| + i] == Extend(m, kv, toks[..i])
  {
    assert toks == toks[..i] + toks[i..];
    ExtendAppend(m, kv, toks[..i], toks[i..]);
    ExtendKeeps(m, Extend(m, kv, toks[..i]), toks[i..]);
  }

  lemma {:induction false} ExtendKeeps<Kv>(m: CausalModel<Kv>, kv: seq<Kv>, toks: seq<Token>)
    ensures Extend(m, kv, toks)[..|kv|] == kv
  {
    if toks != [] {
      ExtendKeeps(m, kv, toks[..|toks| - 1]);
    }
  }

  lemma {:induction false} GreedyPrefix<Kv>(m: CausalModel<Kv>, ids: seq<Token>, n: nat, i: nat)
    requires ids != [] && i <= n
    ensures Greedy(m, ids, n)[..i] == Greedy(m, ids, i)
  {
    if i < n {
      GreedyPrefix(m, ids, n - 1, i);
    }
  }

  // ----- one verification step, for any proposer -----

  /** What a forward over `toks`, written behind the entries `kv`, predicts at each position. */
  function Preds<Kv>(m: CausalModel<Kv>, kv: seq<Kv>, toks: seq<Token>): (p: seq<Token>)
    ensures |p| == |toks|
  {
    if toks == [] then []
    else
      var init := toks[..|toks| - 1];
      Preds(m, kv, init) + [m.next(Extend(m, kv, init), toks[|toks| - 1])]
  }

  lemma {:induction false} PredsAt<Kv>(m: CausalModel<Kv>, kv: seq<Kv>, toks: seq<Token>, i: nat)
    requires i < |toks|
    ensures Preds(m, kv, toks)[i] == m.next(Extend(m, kv, toks[..i]), toks[i])
  {
    if i < |toks| - 1 {
      var init := toks[..|toks| - 1];
      assert init[..i] == toks[..i];
      PredsAt(m, kv, init, i);
    }
  }

  lemma NothingForwarded<Kv>(m: CausalModel<Kv>, kv: seq<Kv>)
    ensures Extend(m, kv, []) == kv && Preds(m, kv, []) == []
  {
  }

  lemma ForwardNext<Kv>(m: CausalModel<Kv>, kv: seq<Kv>, toks: seq<Token>, i: nat)
    requires i < |toks|
    ensures var r := Extend(m, kv, toks[..i]);
      Extend(m, kv, toks[..i + 1]) == r + [m.entry(r, toks[i])]
      && Preds(m, kv, toks[..i + 1]) == Preds(m, kv, toks[..i]) + [m.next(r, toks[i])]
  {
    assert toks[..i + 1][..i] == toks[..i];
  }

  /** The first `e` predictions are the answers to drafts that agreed. */
  ghost predicate Verified(prop: seq<Token>, preds: seq<Token>, e: nat) {
    |preds| == |prop| + 1 && 1 <= e <= |preds| && prop[..e - 1] == preds[..e - 1]
  }

  lemma NextBehind<Kv>(m: CausalModel<Kv>, t: seq<Token>, a: seq<Token>, x: Token)
    ensures Next(m, t + a + [x]) == m.next(Extend(m, Extend(m, [], t), a), x)
  {
    assert (t + a + [x])[..|t + a|] == t + a;
    ExtendAppend(m, [], t, a);
  }

  /** Whatever is proposed, every prediction up to the first disagreement is the greedy token:
      `t` is what the cache holds, `x` the last emitted token, `prop` the draft behind it. */
  lemma {:induction false} VerifiedIsGreedy<Kv>(m: CausalModel<Kv>, ids: seq<Token>, out: seq<Token>,
    t: seq<Token>, x: Token, prop: seq<Token>, preds: seq<Token>, e: nat)
    requires ids != [] && out == Greedy(m, ids, |out|) && ids + out == t + [x]
    requires preds == Preds(m, Extend(m, [], t), [x] + prop)
    requires Verified(prop, preds, e)
    ensures Greedy(m, ids, |out| + e) == out + preds[..e]
    decreases e
  {
    var j := e - 1;
    if j > 0 {
      VerifiedLess(prop, preds, e, j);
      VerifiedIsGreedy(m, ids, out, t, x, prop, preds, j);
    } else {
      assert out + preds[..j] == out;
    }
    InputSplit(t, x, prop, j);
    PredsAt(m, Extend(m, [], t), [x] + prop, j);
    NextBehind(m, t, ([x] + prop)[..j], ([x] + prop)[j]);
    GreedyOneMore(m, ids, out, t + [x], prop, preds, j);
  }

  lemma GreedyOneMore<Kv>(m: CausalModel<Kv>, ids: seq<Token>, out: seq<Token>, full: seq<Token>,
                          prop: seq<Token>, preds: seq<Token>, j: nat)
    requires ids != [] && ids + out == full
    requires j <= |prop| && j < |preds| && prop[..j] == preds[..j]
    requires Greedy(m, ids, |out| + j) == out + preds[..j]
    requires Next(m, full + prop[..j]) == preds[j]
    ensures Greedy(m, ids, |out| + j + 1) == out + preds[..j + 1]
  {
    hide Next;
    Regroup(ids, out, preds[..j]);
    Regroup(out, preds[..j], [preds[j]]);
    assert preds[..j + 1] == preds[..j] + [preds[j]];
  }

  lemma Regroup(a: seq<Token>, b: seq<Token>, c: seq<Token>)
    ensures a + (b + c) == a + b + c
  {
  }

  lemma InputSplit(t: seq<Token>, x: Token, prop: seq<Token>, j: nat)
    requires j <= |prop|
    ensures t + [x] + prop[..j] == t + ([x] + prop)[..j] + [([x] + prop)[j]]
  {
  }

  // ----- the cache -----

  /** One forward as the cache saw it: the length before it, and the slots it wrote. */
  datatype Call = Call(lengthBefore: nat, start: nat, count: nat)

  class SlotCache<Kv> {
    var slots: array<Kv>
    var length: nat
    ghost var calls: seq<Call>

    constructor (pages: nat, pageSize: nat, blank: Kv)
      ensures slots.Length == pages * pageSize && length == 0 && calls == [] && fresh(slots)
    {
      slots := new Kv[pages * pageSize](_ => blank);
      length := 0;
      calls := [];
    }

    /** Computes position p from the slots before it, stores its entry and predicts its successor. */
    method Step(m: CausalModel<Kv>, tok: Token, p: nat) returns (pred: Token)
      requires p < slots.Length
      modifies slots
      ensures pred == m.next(old(slots[..p]), tok)
      ensures slots[..p + 1] == old(slots[..p]) + [m.entry(old(slots[..p]), tok)]
      ensures forall j :: p < j < slots.Length ==> slots[j] == old(slots[j])
    {
      pred := m.next(slots[..p], tok);
      slots[p] := m.entry(slots[..p], tok);
    }

    /** Forwards `toks` at positions start, start + 1, ... and sets the length behind them. */
    method Forward(m: CausalModel<Kv>, toks: seq<Token>, start: nat) returns (preds: seq<Token>)
      requires start + |toks| <= slots.Length
      modifies this`length, this`calls, slots
      ensures length == start + |toks|
      ensures slots[..length] == Extend(m, old(slots[..start]), toks)
      ensures slots[length..] == old(slots[start + |toks|..])
      ensures preds == Preds(m, old(slots[..start]), toks)
      ensures calls == old(calls) + [Call(old(length), start, |toks|)]
    {
      hide Extend, Preds;
      ghost var kv := slots[..start];
      NothingForwarded(m, kv);
      calls := calls + [Call(length, start, |toks|)];
      length := start + |toks|;
      preds := [];
      for i := 0 to |toks|
        invariant length == start + |toks|
        invariant slots[..start + i] == Extend(m, kv, toks[..i])
        invariant forall j :: length <= j < slots.Length ==> slots[j] == old(slots[j])
        invariant preds == Preds(m, kv, toks[..i])
        invariant calls == old(calls) + [Call(old(length), start, |toks|)]
      {
        ForwardNext(m, kv, toks, i);
        var pred := Step(m, toks[i], start + i);
        preds := preds + [pred];
      }
      assert toks[..|toks|] == toks;
      ghost var was := old(slots[start + |toks|..]);
      assert forall j :: 0 <= j < |was| ==> slots[length..][j] == was[j];
    }

    /** Sets the length back; what lies beyond it stays in the slots. */
    method SetBack(n: nat)
      requires n <= length <= slots.Length
      modifies this`length
      ensures length == n && slots[..length] == old(slots[..length])[..n]
    {
      length := n;
    }
  }

  /** Every write begins at the cache length and ends within `limit`. */
  ghost predicate InOrder(calls: seq<Call>, limit: nat) {
    forall c :: c in calls ==> c.start == c.lengthBefore && c.start + c.count <= limit
  }

  lemma InOrderAppend(calls: seq<Call>, c: Call, limit: nat)
    requires InOrder(calls, limit) && c.start == c.lengthBefore && c.start + c.count <= limit
    ensures InOrder(calls + [c], limit)
  {
  }

  /** The entries `kv` are those of all of `full` but its last token. */
  ghost predicate Holds<Kv>(m: CausalModel<Kv>, kv: seq<Kv>, full: seq<Token>) {
    0 < |full| && |kv| == |full| - 1 && kv == Extend(m, [], full[..|full| - 1])
  }

  lemma HoldsLength<Kv>(m: CausalModel<Kv>, kv: seq<Kv>, full: seq<Token>)
    requires Holds(m, kv, full)
    ensures |kv| + 1 == |full|
  {
  }

  /** The state between two steps: every emitted token is greedy, the slots below the length hold
      the true sequence and nothing else, and every write so far began at the length. */
  ghost predicate Ready<Kv>(m: CausalModel<Kv>, ids: seq<Token>, out: seq<Token>, limit: nat,
                            cache: SlotCache<Kv>)
    reads cache, cache.slots
  {
    ids != [] && out != [] && out == Greedy(m, ids, |out|)
    && cache.length <= cache.slots.Length
    && Holds(m, cache.slots[..cache.length], ids + out)
    && InOrder(cache.calls, limit)
  }

  /** What a step emits: every draft token up to the first that is wrong, one token more, and nothing is
      cut off unless the `room` is used up. */
  ghost predicate Agreement(prop: seq<Token>, emit: seq<Token>, room: nat) {
    && 1 <= |emit| <= |prop| + 1 && |emit| <= room && prop[..|emit| - 1] == emit[..|emit| - 1]
    && (|emit| <= |prop| && |emit| < room ==> prop[|emit| - 1] != emit[|emit| - 1])
  }

  // ----- the two loops of the script -----

  method Prefill<Kv>(m: CausalModel<Kv>, ids: seq<Token>, limit: nat, cache: SlotCache<Kv>)
    returns (first: Token)
    requires ids != [] && |ids| <= limit <= cache.slots.Length
    requires cache.length == 0 && cache.calls == []
    modifies cache`length, cache`calls, cache.slots
    ensures Ready(m, ids, [first], limit, cache) && |cache.calls| == 1
  {
    assert cache.slots[..0] == [];
    var preds := cache.Forward(m, ids, 0);
    first := preds[|preds| - 1];
    assert Greedy(m, ids, 0) == [] && ids + [] == ids;
    assert (ids + [first])[..|ids|] == ids;
  }

  /** Forwards the last emitted token with a draft behind it and accepts, at most `room` tokens. */
  method VerifyDraft<Kv>(m: CausalModel<Kv>, ids: seq<Token>, out: seq<Token>, prop: seq<Token>,
                         room: nat, limit: nat, cache: SlotCache<Kv>)
    returns (emit: seq<Token>)
    requires Ready(m, ids, out, limit, cache) && 1 <= room
    requires |ids| + |out| + |prop| <= limit <= cache.slots.Length
    modifies cache`length, cache`calls, cache.slots
    ensures Agreement(prop, emit, room)
    ensures out + emit == Greedy(m, ids, |out + emit|)
    ensures cache.length == |ids| + |out| + |prop| && InOrder(cache.calls, limit)
    ensures Holds(m, cache.slots[..cache.length][..|ids| + |out| + |emit| - 1], ids + (out + emit))
    ensures |cache.calls| == |old(cache.calls)| + 1
  {
    hide Extend, Preds, Greedy, Holds, InOrder, Verified, Agreement;
    ghost var kv := cache.slots[..cache.length];
    HoldsLength(m, kv, ids + out);
    var pos, last := |ids| + |out| - 1, out[|out| - 1];
    InOrderAppend(cache.calls, Call(cache.length, pos, |prop| + 1), limit);
    var p := cache.Forward(m, [last] + prop, pos);
    ghost var e;
    emit, e := AcceptAtMost(prop, p, room);
    AgreementOf(prop, p, room, emit, e);
    StepKeeps(m, ids, out, kv, prop, p, e);
  }

  /** One speculative step; the length is set back behind the tokens that were right. */
  method DraftStep<Kv>(m: CausalModel<Kv>, ids: seq<Token>, out: seq<Token>, prop: seq<Token>,
                       room: nat, limit: nat, cache: SlotCache<Kv>)
    returns (emit: seq<Token>)
    requires Ready(m, ids, out, limit, cache) && 1 <= room
    requires |ids| + |out| + |prop| <= limit <= cache.slots.Length
    modifies cache`length, cache`calls, cache.slots
    ensures Agreement(prop, emit, room)
    ensures Ready(m, ids, out + emit, limit, cache) && |cache.calls| == |old(cache.calls)| + 1
  {
    emit := VerifyDraft(m, ids, out, prop, room, limit, cache);
    cache.SetBack(|ids| + |out| + |emit| - 1);
  }

  /** One forward of the last token alone. */
  method PlainStep<Kv>(m: CausalModel<Kv>, ids: seq<Token>, out: seq<Token>, limit: nat,
                       cache: SlotCache<Kv>)
    returns (next: Token)
    requires Ready(m, ids, out, limit, cache) && |ids| + |out| <= limit <= cache.slots.Length
    modifies cache`length, cache`calls, cache.slots
    ensures Ready(m, ids, out + [next], limit, cache) && |cache.calls| == |old(cache.calls)| + 1
  {
    ghost var kv := cache.slots[..cache.length];
    var pos, last := |ids| + |out| - 1, out[|out| - 1];
    InOrderAppend(cache.calls, Call(cache.length, pos, 1), limit);
    assert [last] == [last] + [];
    var p := cache.Forward(m, [last], pos);
    next := p[|p| - 1];
    StepKeeps(m, ids, out, kv, [], p, 1);
    assert p[..1] == [next];
    TakeTake(cache.slots, pos + 1, cache.length);
  }

  method Baseline<Kv>(m: CausalModel<Kv>, ids: seq<Token>, nGen: nat, cache: SlotCache<Kv>)
    returns (base: seq<Token>, forwards: nat)
    requires ids != [] && |ids| + nGen <= cache.slots.Length
    requires cache.length == 0 && cache.calls == []
    modifies cache`length, cache`calls, cache.slots
    ensures |base| == forwards == |cache.calls| == (if nGen == 0 then 1 else nGen)
    ensures Ready(m, ids, base, |ids| + nGen, cache)
  {
    var first := Prefill(m, ids, |ids| + nGen, cache);
    base, forwards := [first], 1;
    while |base| < nGen
      invariant 1 <= |base| == forwards == |cache.calls| && (|base| <= nGen || |base| == 1)
      invariant Ready(m, ids, base, |ids| + nGen, cache)
    {
      var next := PlainStep(m, ids, base, |ids| + nGen, cache);
      base, forwards := base + [next], forwards + 1;
    }
  }

  /** The last `ng` tokens, as the slice full[-ng:] gives them. */
  function LastGram(full: seq<Token>, ng: nat): seq<Token> {
    if ng == 0 || |full| < ng then full else full[|full| - ng..]
  }

  predicate MatchesAt(full: seq<Token>, ng: nat, i: nat) {
    i + ng < |full| && full[i..i + ng] == LastGram(full, ng)
  }

  /** The last ng tokens, at least one, stand at place i as well, and something follows them there. */
  predicate Repeats(full: seq<Token>, ng: nat, i: nat) {
    0 < ng && i + ng < |full| && forall j :: i <= j < i + ng ==> full[j] == full[j + (|full| - ng - i)]
  }

  lemma MatchIsRepeat(full: seq<Token>, ng: nat, i: nat)
    ensures MatchesAt(full, ng, i) <==> Repeats(full, ng, i)
  {
    if i + ng < |full| && ng > 0 {
      var a, b, d := full[i..i + ng], LastGram(full, ng), |full| - ng - i;
      assert b == full[|full| - ng..];
      if Repeats(full, ng, i) {
        forall j | 0 <= j < ng ensures a[j] == b[j] {
          assert full[i + j] == full[(i + j) + d];
        }
      }
      if a == b {
        forall j | i <= j < i + ng ensures full[j] == full[j + d] {
          assert a[j - i] == b[j - i];
        }
      }
    }
  }

  ghost predicate LatestRepeat(full: seq<Token>, ng: nat, i: nat) {
    i < |full| && Repeats(full, ng, i) && forall j :: i < j < |full| ==> !Repeats(full, ng, j)
  }

  /** What follows place i + ng, at most k tokens of it. */
  predicate Follows(full: seq<Token>, ng: nat, k: nat, i: nat, prop: seq<Token>) {
    i + ng <= |full| && prop <= full[i + ng..] && (|prop| == k || prop == full[i + ng..])
  }

  lemma SliceFollows(full: seq<Token>, ng: nat, k: nat, i: nat, end: nat)
    requires i + ng <= |full| && end == if i + ng + k <= |full| then i + ng + k else |full|
    ensures Follows(full, ng, k, i, full[i + ng..end])
  {
    assert full[i + ng..end] == full[i + ng..][..end - i - ng];
  }

  /** Proposes what followed the most recent earlier occurrence of the last n-gram. */
  method Propose(full: seq<Token>, ng: nat, k: nat) returns (prop: seq<Token>)
    ensures |prop| <= k && Proposed(full, ng, k, prop)
  {
    hide LastGram, Follows, Repeats;
    prop := [];
    var i := |full| - ng - 1;
    NotPastTheEnd(full, ng);
    while i >= 0
      invariant i < |full| - ng
      invariant forall j :: 0 <= j < |full| && i < j ==> !Repeats(full, ng, j)
    {
      MatchIsRepeat(full, ng, i);
      if full[i..i + ng] == LastGram(full, ng) {
        assert MatchesAt(full, ng, i);
        var end := if i + ng + k <= |full| then i + ng + k else |full|;
        SliceFollows(full, ng, k, i, end);
        prop := full[i + ng..end];
        return;
      }
      i := i - 1;
    }
  }

  lemma NotPastTheEnd(full: seq<Token>, ng: nat)
    ensures forall j :: 0 <= j < |full| && |full| - ng - 1 < j ==> !Repeats(full, ng, j)
  {
  }

  /** What looking up proposes: what followed the latest earlier occurrence, or nothing. */
  ghost predicate Proposed(full: seq<Token>, ng: nat, k: nat, prop: seq<Token>) {
    && |prop| <= k && ((forall i :: 0 <= i < |full| ==> !Repeats(full, ng, i)) ==> prop == [])
    && forall i: nat :: LatestRepeat(full, ng, i) ==> Follows(full, ng, k, i, prop)
  }

  /** One step over a text takes it from length a to length b: as far as what is proposed behind the first
      a tokens agrees with the text, and one token more, but not beyond `limit`. */
  ghost predicate Jump(text: seq<Token>, ng: nat, k: nat, limit: nat, a: nat, b: nat) {
    a < b <= |text| && b <= limit &&
    exists prop :: Proposed(text[..a], ng, k, prop) && Agreement(prop, text[a..b], limit - a)
  }

  /** The lengths of the text between the steps. */
  ghost predicate Jumps(text: seq<Token>, ng: nat, k: nat, limit: nat, marks: seq<nat>) {
    forall i, j :: 0 <= i < j == i + 1 < |marks| ==> Jump(text, ng, k, limit, marks[i], marks[j])
  }

  lemma JumpLonger(text: seq<Token>, more: seq<Token>, ng: nat, k: nat, limit: nat, a: nat, b: nat)
    requires Jump(text, ng, k, limit, a, b)
    ensures Jump(text + more, ng, k, limit, a, b)
  {
    hide Proposed, Agreement;
    assert (text + more)[..a] == text[..a] && (text + more)[a..b] == text[a..b];
  }

  /** The marks start at `start`, follow the jumps, and end at the length of the text. */
  ghost predicate Marked(text: seq<Token>, ng: nat, k: nat, limit: nat, start: nat, marks: seq<nat>) {
    && |marks| > 0 && marks[0] == start && marks[|marks| - 1] == |text|
    && Jumps(text, ng, k, limit, marks)
  }

  lemma MarkedAppend(ids: seq<Token>, out: seq<Token>, emit: seq<Token>, ng: nat, k: nat, limit: nat,
                     start: nat, marks: seq<nat>, prop: seq<Token>)
    requires Marked(ids + out, ng, k, limit, start, marks) && |ids + out| < limit
    requires Proposed(ids + out, ng, k, prop) && Agreement(prop, emit, limit - |ids + out|)
    ensures Marked(ids + (out + emit), ng, k, limit, start, marks + [|ids| + |out| + |emit|])
  {
    hide Proposed;
    var text := ids + out;
    var next := marks + [|text + emit|];
    forall i, j | 0 <= i < j == i + 1 < |next| ensures Jump(text + emit, ng, k, limit, next[i], next[j]) {
      if j < |marks| {
        JumpLonger(text, emit, ng, k, limit, marks[i], marks[j]);
      } else {
        assert (text + emit)[..|text|] == text && (text + emit)[|text|..|text + emit|] == emit;
      }
    }
    Regroup(ids, out, emit);
  }

  /** The stream is greedy, and the steps take it exactly as far as the proposals agree with it: there is
      one forward for every mark. */
  method PromptLookup<Kv>(m: CausalModel<Kv>, ids: seq<Token>, nGen: nat, k: nat, ng: nat,
                             cache: SlotCache<Kv>)
    returns (spec: seq<Token>, forwards: nat, accepted: nat, ghost marks: seq<nat>)
    requires ids != [] && |ids| + nGen + k <= cache.slots.Length
    requires cache.length == 0 && cache.calls == []
    modifies cache`length, cache`calls, cache.slots
    ensures |spec| == if nGen == 0 then 1 else nGen
    ensures spec == Greedy(m, ids, |spec|)
    ensures forwards + accepted == |spec| && 1 <= forwards == |cache.calls| == |marks|
    ensures Marked(ids + spec, ng, k, |ids| + nGen, |ids| + 1, marks)
    ensures Ready(m, ids, spec, |ids| + nGen + k, cache)
  {
    hide Agreement, Marked, Proposed, Greedy, Holds, InOrder;
    var first := Prefill(m, ids, |ids| + nGen + k, cache);
    spec, forwards, accepted := [first], 1, 0;
    marks := [|ids| + 1];
    NothingMarked(ids + spec, ng, k, |ids| + nGen, marks);
    while |spec| < nGen
      invariant 1 <= |spec| && (|spec| <= nGen || |spec| == 1)
      invariant forwards + accepted == |spec| && 1 <= forwards == |cache.calls| == |marks|
      invariant Marked(ids + spec, ng, k, |ids| + nGen, |ids| + 1, marks)
      invariant Ready(m, ids, spec, |ids| + nGen + k, cache)
    {
      var prop := Propose(ids + spec, ng, k);
      var room := nGen - |spec|;
      var emit := DraftStep(m, ids, spec, prop, room, |ids| + nGen + k, cache);
      AgreementSize(prop, emit, room);
      MarkedAppend(ids, spec, emit, ng, k, |ids| + nGen, |ids| + 1, marks, prop);
      marks := marks + [|ids| + |spec| + |emit|];
      forwards := forwards + 1;
      spec, accepted := spec + emit, accepted + |emit| - 1;
    }
  }

  lemma NothingMarked(text: seq<Token>, ng: nat, k: nat, limit: nat, marks: seq<nat>)
    requires marks == [|text|]
    ensures Marked(text, ng, k, limit, |text|, marks)
  {
  }

  lemma AgreementSize(prop: seq<Token>, emit: seq<Token>, room: nat)
    requires Agreement(prop, emit, room)
    ensures 1 <= |emit| <= room
  {
  }

  // ----- how many steps a text takes -----

  lemma OneProposal(full: seq<Token>, ng: nat, k: nat, a: seq<Token>, b: seq<Token>)
    requires Proposed(full, ng, k, a) && Proposed(full, ng, k, b)
    ensures a == b
  {
    hide Repeats;
    if i :| 0 <= i < |full| && Repeats(full, ng, i) {
      var l := Latest(full, ng, i);
    }
  }

  lemma {:induction false} Latest(full: seq<Token>, ng: nat, i: nat) returns (l: nat)
    requires i < |full| && Repeats(full, ng, i)
    ensures LatestRepeat(full, ng, l)
    decreases |full| - i
  {
    hide Repeats;
    l := i;
    if j :| i < j < |full| && Repeats(full, ng, j) {
      l := Latest(full, ng, j);
    }
  }

  lemma JumpOnce(text: seq<Token>, ng: nat, k: nat, limit: nat, a: nat, b: nat, c: nat)
    requires Jump(text, ng, k, limit, a, b) && Jump(text, ng, k, limit, a, c)
    ensures b == c
  {
    hide Proposed;
    var p :| Proposed(text[..a], ng, k, p) && Agreement(p, text[a..b], limit - a);
    var q :| Proposed(text[..a], ng, k, q) && Agreement(q, text[a..c], limit - a);
    OneProposal(text[..a], ng, k, p, q);
    if b < c {
      AgreementEnds(text, p, a, b, c, limit);
    } else if c < b {
      AgreementEnds(text, p, a, c, b, limit);
    }
  }

  lemma AgreementEnds(text: seq<Token>, prop: seq<Token>, a: nat, b: nat, c: nat, limit: nat)
    requires a < b < c <= |text| && c <= limit && Agreement(prop, text[a..b], limit - a)
    ensures !Agreement(prop, text[a..c], limit - a)
  {
    AgreesAt(text, prop, a, b, c, limit - a);
  }

  lemma AgreesAt(text: seq<Token>, prop: seq<Token>, a: nat, b: nat, c: nat, room: nat)
    requires a < b < c <= |text|
    ensures Agreement(prop, text[a..c], room) ==> b - a <= |prop| && prop[b - a - 1] == text[b - 1]
  {
    if Agreement(prop, text[a..c], room) {
      assert prop[..c - a - 1][b - a - 1] == text[a..c][..c - a - 1][b - a - 1];
    }
  }

  /** The steps, and with them the number of forwards, are determined by the text alone. */
  lemma {:induction false} SameJumps(text: seq<Token>, ng: nat, k: nat, limit: nat, a: seq<nat>, b: seq<nat>)
    requires a != [] && Marked(text, ng, k, limit, a[0], a) && Marked(text, ng, k, limit, a[0], b)
    ensures a == b
    decreases |a|
  {
    hide Jump;
    if |a| == 1 {
      if |b| > 1 {
        JumpInText(text, ng, k, limit, b[0], b[1]);
      }
    } else if |b| == 1 {
      JumpInText(text, ng, k, limit, a[0], a[1]);
    } else {
      JumpOnce(text, ng, k, limit, a[0], a[1], b[1]);
      JumpsRest(text, ng, k, limit, a);
      JumpsRest(text, ng, k, limit, b);
      SameJumps(text, ng, k, limit, a[1..], b[1..]);
      assert a == [a[0]] + a[1..] && b == [b[0]] + b[1..];
    }
  }

  lemma JumpInText(text: seq<Token>, ng: nat, k: nat, limit: nat, a: nat, b: nat)
    requires Jump(text, ng, k, limit, a, b)
    ensures a < |text|
  {
  }

  lemma JumpsRest(text: seq<Token>, ng: nat, k: nat, limit: nat, marks: seq<nat>)
    requires Jumps(text, ng, k, limit, marks) && marks != []
    ensures Jumps(text, ng, k, limit, marks[1..])
  {
    hide Jump;
    var rest := marks[1..];
    forall i, j | 0 <= i < j == i + 1 < |rest| ensures Jump(text, ng, k, limit, rest[i], rest[j]) {
      assert rest[i] == marks[i + 1] && rest[j] == marks[j + 1];
    }
  }

  /** The comparison the script logs: the two loops emit the same tokens. */
  method Compare<Kv>(m: CausalModel<Kv>, ids: seq<Token>, nGen: nat, k: nat, ng: nat,
                        pages: nat, pageSize: nat, blank: Kv)
    returns (ok: bool, fb: nat, fs: nat, acc: nat, ghost c1: SlotCache<Kv>, ghost c2: SlotCache<Kv>,
             ghost marks: seq<nat>)
    requires ids != [] && |ids| + nGen + k <= pages * pageSize
    ensures ok && fs + acc == fb == (if nGen == 0 then 1 else nGen)
    ensures fresh(c1) && fresh(c2) && fb == |c1.calls| && 1 <= fs == |c2.calls| == |marks|
    ensures Marked(ids + Greedy(m, ids, fb), ng, k, |ids| + nGen, |ids| + 1, marks)
  {
    var first := new SlotCache<Kv>(pages, pageSize, blank);
    var base, b := Baseline(m, ids, nGen, first);
    var second := new SlotCache<Kv>(pages, pageSize, blank);
    hide Marked;
    var spec, s, a;
    spec, s, a, marks := PromptLookup(m, ids, nGen, k, ng, second);
    c1, c2 := first, second;
    ok, fb, fs, acc := base == spec, b, s, a;
  }

  /** The accept loop: the first prediction, then one more for every agreeing draft token. */
  method Accept(prop: seq<Token>, p: seq<Token>) returns (emit: seq<Token>)
    requires |p| == |prop| + 1
    ensures Verified(prop, p, |emit|) && emit == p[..|emit|]
    ensures |emit| < |p| ==> prop[|emit| - 1] != p[|emit| - 1]
  {
    emit := [p[0]];
    for i := 0 to |prop|
      invariant |emit| == i + 1 && emit == p[..i + 1] && prop[..i] == p[..i]
    {
      if prop[i] == p[i] {
        emit := emit + [p[i + 1]];
      } else {
        return;
      }
    }
  }

  /** The accepted tokens, cut to the `room` left. */
  method AcceptAtMost(prop: seq<Token>, p: seq<Token>, room: nat)
    returns (emit: seq<Token>, ghost e: nat)
    requires |p| == |prop| + 1 && 1 <= room
    ensures e <= room && Verified(prop, p, e) && emit == p[..e]
    ensures e < |p| && e < room ==> prop[e - 1] != p[e - 1]
  {
    emit := Accept(prop, p);
    e := |emit|;
    if room < |emit| {
      VerifiedLess(prop, p, |emit|, room);
      emit, e := emit[..room], room;
    }
  }

  lemma AgreementOf(prop: seq<Token>, p: seq<Token>, room: nat, emit: seq<Token>, e: nat)
    requires |p| == |prop| + 1 && Verified(prop, p, e) && e <= room && emit == p[..e]
    requires e < |p| && e < room ==> prop[e - 1] != p[e - 1]
    ensures Agreement(prop, emit, room)
  {
    assert p[..e][..e - 1] == p[..e - 1];
  }

  lemma VerifiedLess(prop: seq<Token>, p: seq<Token>, e: nat, f: nat)
    requires Verified(prop, p, e) && 1 <= f <= e
    ensures Verified(prop, p, f) && p[..e][..f] == p[..f]
  {
    Shorter(prop, p, e - 1, f - 1);
  }

  /** Truncating the cache behind the emitted tokens leaves exactly the entries of the true
      sequence, and the emitted tokens are the greedy ones. */
  lemma StepKeeps<Kv>(m: CausalModel<Kv>, ids: seq<Token>, out: seq<Token>, kv: seq<Kv>,
                      prop: seq<Token>, p: seq<Token>, e: nat)
    requires ids != [] && out != [] && out == Greedy(m, ids, |out|)
    requires Holds(m, kv, ids + out)
    requires p == Preds(m, kv, [out[|out| - 1]] + prop)
    requires Verified(prop, p, e)
    ensures out + p[..e] == Greedy(m, ids, |out| + e)
    ensures Holds(m, Extend(m, kv, [out[|out| - 1]] + prop)[..|kv| + e], ids + (out + p[..e]))
  {
    var t, x := (ids + out)[..|ids| + |out| - 1], out[|out| - 1];
    assert ids + out == t + [x];
    VerifiedIsGreedy(m, ids, out, t, x, prop, p, e);
    RollbackHolds(m, ids, out, t, x, prop, p, e);
  }

  lemma TakeTake<T>(a: array<T>, i: nat, j: nat)
    requires i <= j <= a.Length
    ensures a[..j][..i] == a[..i]
  {
  }

  lemma RollbackHolds<Kv>(m: CausalModel<Kv>, ids: seq<Token>, s: seq<Token>,
    t: seq<Token>, x: Token, prop: seq<Token>, p: seq<Token>, e: nat)
    requires ids + s == t + [x] && 1 <= e <= |prop| + 1 && e <= |p| && prop[..e - 1] == p[..e - 1]
    ensures Holds(m, Extend(m, Extend(m, [], t), [x] + prop)[..|t| + e], ids + (s + p[..e]))
  {
    ExtendPrefix(m, Extend(m, [], t), [x] + prop, e);
    ExtendAppend(m, [], t, ([x] + prop)[..e]);
    TrueInput(ids, s, t, x, prop, p, e);
  }

  lemma Shorter(a: seq<Token>, b: seq<Token>, i: nat, j: nat)
    requires j <= i <= |a| && i <= |b| && a[..i] == b[..i]
    ensures a[..j] == b[..j]
  {
    assert a[..j] == a[..i][..j];
    assert b[..j] == b[..i][..j];
  }

  lemma TrueInput(ids: seq<Token>, s: seq<Token>, t: seq<Token>, x: Token,
                  prop: seq<Token>, p: seq<Token>, e: nat)
    requires ids + s == t + [x] && 1 <= e <= |prop| + 1 && e <= |p| && prop[..e - 1] == p[..e - 1]
    ensures var full := ids + (s + p[..e]); t + ([x] + prop)[..e] == full[..|full| - 1]
  {
    assert ([x] + prop)[..e] == [x] + p[..e - 1];
    assert ids + (s + p[..e]) == t + [x] + p[..e - 1] + [p[e - 1]];
  }

  // ----- the emitted stream, for any proposer -----

  /** How many predictions stand: those up to the first draft token that disagrees. */
  function Agreed(prop: seq<Token>, p: seq<Token>): (e: nat)
    requires |p| == |prop| + 1
    ensures 1 <= e <= |p|
  {
    if prop == [] || prop[0] != p[0] then 1 else 1 + Agreed(prop[1..], p[1..])
  }

  lemma {:induction false} AgreedVerified(prop: seq<Token>, p: seq<Token>)
    requires |p| == |prop| + 1
    ensures Verified(prop, p, Agreed(prop, p))
  {
    if prop != [] && prop[0] == p[0] {
      AgreedVerified(prop[1..], p[1..]);
      var e := Agreed(prop[1..], p[1..]);
      assert prop[..e] == [prop[0]] + prop[1..][..e - 1];
      assert p[..e] == [p[0]] + p[1..][..e - 1];
    }
  }

  /** The predictions one step adds to `out` when `prop` is drafted, at most `room` of them. */
  function Emitted<Kv>(m: CausalModel<Kv>, ids: seq<Token>, out: seq<Token>, prop: seq<Token>, room: nat)
    : (emit: seq<Token>)
    requires out != [] && room > 0
    ensures 1 <= |emit| <= room
  {
    var full := ids + out;
    var p := Preds(m, Extend(m, [], full[..|full| - 1]), [out[|out| - 1]] + prop);
    var e := Agreed(prop, p);
    if e <= room then p[..e] else p[..room]
  }

  /** The whole stream when `propose` makes the drafts from the tokens so far. */
  function Stream<Kv>(m: CausalModel<Kv>, ids: seq<Token>, out: seq<Token>, n: nat,
                      propose: seq<Token> -> seq<Token>): seq<Token>
    requires out != []
    decreases n - |out|
  {
    if |out| >= n then out
    else Stream(m, ids, out + Emitted(m, ids, out, propose(ids + out), n - |out|), n, propose)
  }

  lemma EmittedIsGreedy<Kv>(m: CausalModel<Kv>, ids: seq<Token>, out: seq<Token>, prop: seq<Token>, room: nat)
    requires ids != [] && out != [] && room > 0 && out == Greedy(m, ids, |out|)
    ensures var emit := Emitted(m, ids, out, prop, room);
      out + emit == Greedy(m, ids, |out| + |emit|)
  {
    var full, x := ids + out, out[|out| - 1];
    var t := full[..|full| - 1];
    var p := Preds(m, Extend(m, [], t), [x] + prop);
    var e := Agreed(prop, p);
    AgreedVerified(prop, p);
    var f := if e <= room then e else room;
    VerifiedLess(prop, p, e, f);
    assert full == t + [x];
    VerifiedIsGreedy(m, ids, out, t, x, prop, p, f);
  }

  /** Whatever the proposer drafts, the stream is the greedy one. */
  lemma {:induction false} AnyProposer<Kv>(m: CausalModel<Kv>, ids: seq<Token>, out: seq<Token>, n: nat,
                                           propose: seq<Token> -> seq<Token>)
    requires ids != [] && out != [] && out == Greedy(m, ids, |out|) && |out| <= n
    ensures Stream(m, ids, out, n, propose) == Greedy(m, ids, n)
    decreases n - |out|
  {
    if |out| < n {
      EmittedIsGreedy(m, ids, out, propose(ids + out), n - |out|);
      AnyProposer(m, ids, out + Emitted(m, ids, out, propose(ids + out), n - |out|), n, propose);
    }
  }

  // ----- the script -----

  const TARGET := 48
  const DRAFT := 8
  const GRAM := 3
  const PAGE := 16

  /** ceil((prompt + target + 16) / 16) + 8: the block table's pages; each cache has four more. */
  function MaxPages(prompt: nat): nat {
    (prompt + TARGET + 16 + PAGE - 1) / PAGE + 8
  }

  /** The pages the script reserves hold every write, and no write needs a page past its block table. */
  lemma ReservedPagesSuffice(prompt: nat)
    ensures prompt + TARGET + DRAFT <= MaxPages(prompt) * PAGE <= (MaxPages(prompt) + 4) * PAGE
  {
  }

  /** With the script's constants its comparison succeeds for every model and prompt. */
  method Validate<Kv>(m: CausalModel<Kv>, ids: seq<Token>, blank: Kv)
    returns (ok: bool, fb: nat, fs: nat, acc: nat)
    requires ids != []
    ensures ok && fs + acc == fb == 48
  {
    ReservedPagesSuffice(|ids|);
    ghost var c1, c2, marks;
    ok, fb, fs, acc, c1, c2, marks := Compare(m, ids, TARGET, DRAFT, GRAM, MaxPages(|ids|) + 4, PAGE, blank);
  }
}
