/** The synchronous generation engine (src/torchinferno/engine/engine.py): request sets under a lock,
  streams as generators, and cancellation.

  Every access to the shared sets happens under the lock, so a schedule is a sequence of steps, each
  of which takes the lock at most once; steps of different streams interleave freely. */
module Engine {
  type Id = string
  type Token = int
  type Sid = nat    // one call of generate_stream

  datatype Reason = Length | Stopped | Cancelled
  datatype Usage = Usage(prompt: nat, completion: nat)
  datatype Event = TokenEvent(token: Token, index: nat) | FinishedEvent(index: nat, reason: Reason, usage: Usage)

  /** What a stream is asked for, and the tokens its backend iterator would yield. */
  datatype Request = Request(id: Id, tokens: seq<Token>, stop: set<Token>, maxTokens: nat, prompt: nat)

  // ----- the sets under the lock -----

  datatype Shared = Shared(active: set<Id>, cancelled: set<Id>, closed: bool)

  function Enter(s: Shared, id: Id): Shared {
    s.(active := s.active + {id}, cancelled := s.cancelled - {id})
  }

  function Exit(s: Shared, id: Id): Shared {
    s.(active := s.active - {id}, cancelled := s.cancelled - {id})
  }

  function Mark(s: Shared, id: Id): Shared {
    s.(cancelled := s.cancelled + {id})
  }

  class InferenceEngine {
    var active: set<Id>
    var cancelled: set<Id>
    var closed: bool

    function State(): Shared
      reads this
    {
      Shared(active, cancelled, closed)
    }

    constructor ()
      ensures State() == Shared({}, {}, false)
    {
      active, cancelled, closed := {}, {}, false;
    }

    /** Returns whether the backend is to be closed as well: only the first call does that. */
    method Close() returns (closeBackend: bool)
      modifies this
      ensures State() == old(State()).(closed := true) && closeBackend == !old(closed)
    {
      closeBackend := !closed;
      if closed {
        return;
      }
      closed := true;
    }

    method Cancel(id: Id)
      modifies this
      ensures State() == Mark(old(State()), id)
    {
      cancelled := cancelled + {id};
    }

    /** False where the source raises because the engine is closed. */
    method EnterRequest(id: Id) returns (ok: bool)
      modifies this
      ensures ok == !old(closed)
      ensures State() == if ok then Enter(old(State()), id) else old(State())
    {
      if closed {
        return false;
      }
      active := active + {id};
      cancelled := cancelled - {id};
      ok := true;
    }

    method ExitRequest(id: Id)
      modifies this
      ensures State() == Exit(old(State()), id)
    {
      active := active - {id};
      cancelled := cancelled - {id};
    }

    method IsCancelled(id: Id) returns (b: bool)
      ensures b == (id in cancelled)
    {
      b := id in cancelled;
    }
  }

  // ----- one stream -----

  /** Where a generator stands: not begun; in its token loop; behind the loop with a reason, or
      unwinding without one (Failing), and still active; exited; finished with its last event; gone. */
  datatype Phase = Fresh | Open | Leaving(reason: Reason) | Failing | Left(reason: Reason) | Done | Gone

  datatype Stream = Stream(req: Request, phase: Phase, pulled: nat, events: seq<Event>)

  predicate Live(st: Stream) {
    st.phase.Open? || st.phase.Leaving? || st.phase.Failing?
  }

  /** One turn of the token loop, given whether the request is found cancelled. */
  function Pull(st: Stream, isCancelled: bool): Stream {
    if st.pulled >= |st.req.tokens| then
      st.(phase := Leaving(if |st.events| < st.req.maxTokens then Stopped else Length))
    else
      var token := st.req.tokens[st.pulled];
      var next := st.(pulled := st.pulled + 1);
      if isCancelled then next.(phase := Leaving(Cancelled))
      else if token in st.req.stop then next.(phase := Leaving(Stopped))
      else next.(events := st.events + [TokenEvent(token, |st.events|)])
  }

  function Finish(st: Stream, reason: Reason): Stream {
    var n := |st.events|;
    st.(phase := Done, events := st.events + [FinishedEvent(n, reason, Usage(st.req.prompt, n))])
  }

  /** The generator object: its own variables, and the engine it works on. */
  class Generator {
    const engine: InferenceEngine
    const req: Request
    var phase: Phase
    var pulled: nat
    var events: seq<Event>    // what it has yielded

    function State(): Stream
      reads this
    {
      Stream(req, phase, pulled, events)
    }

    constructor (engine: InferenceEngine, req: Request)
      ensures this.engine == engine && State() == Stream(req, Fresh, 0, [])
    {
      this.engine, this.req := engine, req;
      phase, pulled, events := Fresh, 0, [];
    }

    method Start()
      requires phase.Fresh?
      modifies this, engine
      ensures if old(engine.closed) then State() == old(State()).(phase := Gone) && engine.State() == old(engine.State())
              else State() == old(State()).(phase := Open) && engine.State() == Enter(old(engine.State()), req.id)
    {
      var ok := engine.EnterRequest(req.id);
      phase := if ok then Open else Gone;
    }

    method Turn()
      requires phase.Open?
      modifies this
      ensures State() == Pull(old(State()), req.id in engine.cancelled)
    {
      if pulled < |req.tokens| {
        var token := req.tokens[pulled];
        pulled := pulled + 1;
        var c := engine.IsCancelled(req.id);
        if c {
          phase := Leaving(Cancelled);
        } else if token in req.stop {
          phase := Leaving(Stopped);
        } else {
          events := events + [TokenEvent(token, |events|)];
        }
      } else {
        var emitted := |events|;
        phase := Leaving(if emitted < req.maxTokens then Stopped else Length);
      }
    }

    method Leave()
      requires phase.Leaving? || phase.Failing?
      modifies this, engine
      ensures engine.State() == Exit(old(engine.State()), req.id)
      ensures State() == old(State()).(phase := if old(phase).Failing? then Gone else Left(old(phase).reason))
    {
      engine.ExitRequest(req.id);
      phase := if phase.Failing? then Gone else Left(phase.reason);
    }

    method Last()
      requires phase.Left?
      modifies this
      ensures State() == Finish(old(State()), old(phase).reason)
    {
      var n := |events|;
      events := events + [FinishedEvent(n, phase.reason, Usage(req.prompt, n))];
      phase := Done;
    }
  }

  // ----- all streams together -----

  datatype Action =
    | Begin(sid: Sid, req: Request)   // first next() of a new generator
    | Turn(sid: Sid)
    | Fail(sid: Sid)                  // the backend raises, or the consumer closes the generator
    | Leave(sid: Sid)
    | Last(sid: Sid)
    | CancelId(id: Id)
    | CloseAll

  datatype World = World(shared: Shared, streams: map<Sid, Stream>)

  predicate Enabled(w: World, a: Action) {
    match a
    case Begin(sid, _) => sid !in w.streams
    case Turn(sid) => sid in w.streams && w.streams[sid].phase.Open?
    case Fail(sid) => sid in w.streams && w.streams[sid].phase.Open?
    case Leave(sid) => sid in w.streams && (w.streams[sid].phase.Leaving? || w.streams[sid].phase.Failing?)
    case Last(sid) => sid in w.streams && w.streams[sid].phase.Left?
    case CancelId(_) => true
    case CloseAll => true
  }

  function Apply(w: World, a: Action): World
    requires Enabled(w, a)
  {
    match a
    case Begin(sid, req) =>
      var st := Stream(req, if w.shared.closed then Gone else Open, 0, []);
      World(if w.shared.closed then w.shared else Enter(w.shared, req.id), w.streams[sid := st])
    case Turn(sid) =>
      var st := w.streams[sid];
      w.(streams := w.streams[sid := Pull(st, st.req.id in w.shared.cancelled)])
    case Fail(sid) => w.(streams := w.streams[sid := w.streams[sid].(phase := Failing)])
    case Leave(sid) =>
      var st := w.streams[sid];
      World(Exit(w.shared, st.req.id),
            w.streams[sid := st.(phase := if st.phase.Failing? then Gone else Left(st.phase.reason))])
    case Last(sid) => w.(streams := w.streams[sid := Finish(w.streams[sid], w.streams[sid].phase.reason)])
    case CancelId(id) => w.(shared := Mark(w.shared, id))
    case CloseAll => w.(shared := w.shared.(closed := true))
  }

  const EMPTY := World(Shared({}, {}, false), map[])

  ghost predicate Transition(w: World, a: Action, v: World) {
    Enabled(w, a) && v == Apply(w, a)
  }

  /** A schedule and the worlds it goes through. */
  ghost predicate Schedule(ws: seq<World>, acts: seq<Action>) {
    && |ws| == |acts| + 1 && ws[0] == EMPTY
    && forall i, j :: 0 <= i < j == i + 1 < |ws| ==> Transition(ws[i], acts[i], ws[j])
  }

  lemma StepAt(ws: seq<World>, acts: seq<Action>, i: nat)
    requires Schedule(ws, acts) && i < |acts|
    ensures Enabled(ws[i], acts[i]) && ws[i + 1] == Apply(ws[i], acts[i])
  {
    var j := i + 1;
    assert Transition(ws[i], acts[i], ws[j]);
  }

  // ----- the sets, in every schedule -----

  /** Action a begins a stream of id. */
  predicate Begins(w: World, a: Action, id: Id) {
    a.Begin? && a.req.id == id && !w.shared.closed
  }

  /** Action a leaves a stream of id. */
  predicate Leaves(w: World, a: Action, id: Id) {
    a.Leave? && a.sid in w.streams && w.streams[a.sid].req.id == id
  }

  /** A cancel of id came before step b, and since then no stream of that id began or left. */
  ghost predicate Pending(ws: seq<World>, acts: seq<Action>, id: Id, b: nat)
    requires b <= |acts| < |ws|
  {
    exists c :: 0 <= c < b && acts[c] == CancelId(id) && Untouched(ws, acts, id, c, b)
  }

  ghost predicate Untouched(ws: seq<World>, acts: seq<Action>, id: Id, c: nat, b: nat)
    requires b <= |acts| < |ws|
  {
    forall d :: c < d < b ==> !Begins(ws[d], acts[d], id) && !Leaves(ws[d], acts[d], id)
  }

  lemma MarkStep(w: World, a: Action, id: Id)
    requires Enabled(w, a)
    ensures id in Apply(w, a).shared.cancelled <==>
      a == CancelId(id) || (id in w.shared.cancelled && !Begins(w, a, id) && !Leaves(w, a, id))
  {
  }

  lemma PendingStep(ws: seq<World>, acts: seq<Action>, id: Id, b: nat)
    requires b < |acts| < |ws|
    ensures Pending(ws, acts, id, b + 1) <==>
      acts[b] == CancelId(id) || (Pending(ws, acts, id, b) && !Begins(ws[b], acts[b], id) && !Leaves(ws[b], acts[b], id))
  {
    hide Begins, Leaves;
    if Pending(ws, acts, id, b + 1) {
      var c :| 0 <= c < b + 1 && acts[c] == CancelId(id) && Untouched(ws, acts, id, c, b + 1);
      if c < b {
        assert Untouched(ws, acts, id, c, b);
      }
    }
    if acts[b] == CancelId(id) {
      assert Untouched(ws, acts, id, b, b + 1);
    }
    if Pending(ws, acts, id, b) && !Begins(ws[b], acts[b], id) && !Leaves(ws[b], acts[b], id) {
      var c :| 0 <= c < b && acts[c] == CancelId(id) && Untouched(ws, acts, id, c, b);
      assert Untouched(ws, acts, id, c, b + 1);
    }
  }

  /** In every schedule an id is marked exactly while a cancel of it is pending. */
  lemma {:induction false} MarkedIff(ws: seq<World>, acts: seq<Action>, id: Id, b: nat)
    requires Schedule(ws, acts) && b < |ws|
    ensures id in ws[b].shared.cancelled <==> Pending(ws, acts, id, b)
  {
    hide Apply, Pending, Enabled;
    if b > 0 {
      MarkedIff(ws, acts, id, b - 1);
      StepAt(ws, acts, b - 1);
      MarkStep(ws[b - 1], acts[b - 1], id);
      PendingStep(ws, acts, id, b - 1);
    } else {
      NonePending(ws, acts, id);
    }
  }

  lemma NonePending(ws: seq<World>, acts: seq<Action>, id: Id)
    requires |acts| < |ws|
    ensures !Pending(ws, acts, id, 0)
  {
  }

  /** A stream of id began before step b, and since then none of that id left. */
  ghost predicate Begun(ws: seq<World>, acts: seq<Action>, id: Id, b: nat)
    requires b <= |acts| < |ws|
  {
    exists c :: 0 <= c < b && BegunAt(ws, acts, id, c, b)
  }

  ghost predicate BegunAt(ws: seq<World>, acts: seq<Action>, id: Id, c: nat, b: nat)
    requires c < b <= |acts| < |ws|
  {
    Begins(ws[c], acts[c], id) && forall d :: c < d < b ==> !Leaves(ws[d], acts[d], id)
  }

  lemma ActiveStep(w: World, a: Action, id: Id)
    requires Enabled(w, a)
    ensures id in Apply(w, a).shared.active <==> Begins(w, a, id) || (id in w.shared.active && !Leaves(w, a, id))
  {
  }

  /** In every schedule an id is active exactly when a stream of it began and none of it left since. */
  lemma {:induction false} ActiveIff(ws: seq<World>, acts: seq<Action>, id: Id, b: nat)
    requires Schedule(ws, acts) && b < |ws|
    ensures id in ws[b].shared.active <==> Begun(ws, acts, id, b)
  {
    if b > 0 {
      hide Apply, Enabled, Begins, Leaves;
      var d := b - 1;
      ActiveIff(ws, acts, id, d);
      StepAt(ws, acts, d);
      ActiveStep(ws[d], acts[d], id);
      if Begun(ws, acts, id, b) {
        var c :| 0 <= c < b && BegunAt(ws, acts, id, c, b);
        if c < d {
          assert BegunAt(ws, acts, id, c, d);
        }
      }
      if Begins(ws[d], acts[d], id) {
        assert BegunAt(ws, acts, id, d, b);
      } else if Begun(ws, acts, id, d) && !Leaves(ws[d], acts[d], id) {
        var c :| 0 <= c < d && BegunAt(ws, acts, id, c, d);
        assert BegunAt(ws, acts, id, c, b);
      }
    }
  }

  /** In every schedule the engine is closed exactly from the first close on. */
  lemma {:induction false} ClosedIff(ws: seq<World>, acts: seq<Action>, b: nat)
    requires Schedule(ws, acts) && b < |ws|
    ensures ws[b].shared.closed <==> CloseAll in acts[..b]
  {
    if b > 0 {
      var d := b - 1;
      ClosedIff(ws, acts, d);
      StepAt(ws, acts, d);
      assert acts[..b] == acts[..d] + [acts[d]];
    }
  }

  /** A stream that begins runs exactly when the engine was not closed before; otherwise it raises at once
      and never becomes active. */
  lemma BeginsIff(ws: seq<World>, acts: seq<Action>, b: nat)
    requires Schedule(ws, acts) && b < |acts| && acts[b].Begin?
    ensures var sid, req := acts[b].sid, acts[b].req;
      && sid !in ws[b].streams && sid in ws[b + 1].streams
      && ws[b + 1].streams[sid] == Stream(req, if CloseAll in acts[..b] then Gone else Open, 0, [])
      && (CloseAll in acts[..b] ==> ws[b + 1].shared == ws[b].shared)
  {
    ClosedIff(ws, acts, b);
    StepAt(ws, acts, b);
  }

  // ----- what one stream promises -----

  /** n token events, numbered from 0, with the first n backend tokens. */
  ghost predicate TokenEvents(req: Request, events: seq<Event>, n: nat) {
    n <= |events| && n <= |req.tokens| &&
    forall i :: 0 <= i < n ==> events[i] == TokenEvent(req.tokens[i], i) && req.tokens[i] !in req.stop
  }

  /** Why n tokens and no more: the backend ended, or a pending cancel was seen before the next token,
      or that token is a stop token. */
  ghost predicate Explained(req: Request, n: nat, pending: bool, reason: Reason) {
    if n >= |req.tokens| then n == |req.tokens| && reason == if n < req.maxTokens then Stopped else Length
    else if pending then reason == Cancelled
    else req.tokens[n] in req.stop && reason == Stopped
  }

  ghost predicate Contract(st: Stream) {
    match st.phase
    case Fresh => st.events == [] && st.pulled == 0
    case Open => st.pulled == |st.events| && TokenEvents(st.req, st.events, |st.events|)
    case Done =>
      |st.events| > 0 &&
      var n := |st.events| - 1;
      TokenEvents(st.req, st.events, n) && st.events[n].FinishedEvent?
      && st.events[n] == FinishedEvent(n, st.events[n].reason, Usage(st.req.prompt, n))
    case _ => TokenEvents(st.req, st.events, |st.events|)
  }

  ghost predicate Contracts(w: World) {
    forall sid :: sid in w.streams ==> Contract(w.streams[sid])
  }

  lemma PullKeeps(st: Stream, c: bool)
    requires st.phase.Open? && Contract(st)
    ensures Contract(Pull(st, c))
  {
  }

  lemma ContractKeeps(w: World, a: Action)
    requires Contracts(w) && Enabled(w, a)
    ensures Contracts(Apply(w, a))
  {
    if a.Turn? {
      PullKeeps(w.streams[a.sid], w.streams[a.sid].req.id in w.shared.cancelled);
      hide Contract;
    }
  }

  lemma {:induction false} ScheduleKeeps(ws: seq<World>, acts: seq<Action>, i: nat)
    requires Schedule(ws, acts) && i < |ws|
    ensures Contracts(ws[i])
  {
    if i > 0 {
      hide Apply, Contract;
      ScheduleKeeps(ws, acts, i - 1);
      StepAt(ws, acts, i - 1);
      ContractKeeps(ws[i - 1], acts[i - 1]);
    }
  }

  // ----- how a stream ends -----

  /** The stream has left its token loop after n tokens, with a reason. */
  ghost predicate Ended(st: Stream, n: nat, reason: Reason) {
    || ((st.phase == Leaving(reason) || st.phase == Left(reason)) && |st.events| == n)
    || (st.phase.Done? && |st.events| == n + 1 && st.events[n] == FinishedEvent(n, reason, Usage(st.req.prompt, n)))
  }

  /** Step b is the turn at which stream sid, after n tokens, leaves its loop. */
  ghost predicate LastTurn(ws: seq<World>, acts: seq<Action>, sid: Sid, req: Request, b: nat, n: nat)
    requires b < |acts| < |ws|
  {
    && acts[b] == Turn(sid) && sid in ws[b].streams && ws[b].streams[sid].phase.Open?
    && ws[b].streams[sid].req == req && |ws[b].streams[sid].events| == n
  }

  lemma EndedStep(w: World, a: Action, sid: Sid, n: nat, reason: Reason)
    requires Enabled(w, a) && sid in Apply(w, a).streams && Ended(Apply(w, a).streams[sid], n, reason)
    ensures sid in w.streams && w.streams[sid].req == Apply(w, a).streams[sid].req
    ensures if a == Turn(sid) then
        w.streams[sid].phase.Open? && |w.streams[sid].events| == n && Apply(w, a).streams[sid].phase == Leaving(reason)
      else Ended(w.streams[sid], n, reason)
  {
  }

  /** How the turn of an open stream ends it, if it does. */
  lemma TurnEnds(st: Stream, c: bool, reason: Reason)
    requires st.phase.Open? && Contract(st) && Pull(st, c).phase == Leaving(reason)
    ensures Explained(st.req, |st.events|, c, reason)
  {
  }

  lemma {:induction false} EndsAt(ws: seq<World>, acts: seq<Action>, i: nat, sid: Sid, n: nat, reason: Reason)
    returns (b: nat)
    requires Schedule(ws, acts) && i < |ws| && sid in ws[i].streams && Ended(ws[i].streams[sid], n, reason)
    ensures b < i && LastTurn(ws, acts, sid, ws[i].streams[sid].req, b, n)
    ensures Explained(ws[i].streams[sid].req, n, Pending(ws, acts, ws[i].streams[sid].req.id, b), reason)
  {
    hide Apply, Ended, Explained, Pending, Contract;
    var d := i - 1;
    StepAt(ws, acts, d);
    EndedStep(ws[d], acts[d], sid, n, reason);
    if acts[d] == Turn(sid) {
      b := d;
      ScheduleKeeps(ws, acts, d);
      TurnIs(ws[d], sid);
      TurnEnds(ws[d].streams[sid], ws[d].streams[sid].req.id in ws[d].shared.cancelled, reason);
      MarkedIff(ws, acts, ws[d].streams[sid].req.id, d);
    } else {
      b := EndsAt(ws, acts, d, sid, n, reason);
    }
  }

  lemma TurnIs(w: World, sid: Sid)
    requires Enabled(w, Turn(sid))
    ensures sid in Apply(w, Turn(sid)).streams
    ensures Apply(w, Turn(sid)).streams[sid] == Pull(w.streams[sid], w.streams[sid].req.id in w.shared.cancelled)
  {
  }

  /** A stream open after a step was open before it, unless the step began it. */
  lemma OpenBefore(w: World, a: Action, sid: Sid)
    requires Enabled(w, a) && sid in Apply(w, a).streams && Apply(w, a).streams[sid].phase.Open?
    ensures sid in w.streams ==> w.streams[sid].phase.Open? && w.streams[sid].req == Apply(w, a).streams[sid].req
    ensures sid !in w.streams ==> a == Begin(sid, Apply(w, a).streams[sid].req) && !w.shared.closed
  {
  }

  /** A turn that leaves the stream open saw no pending cancel. */
  lemma TurnGoesOn(ws: seq<World>, acts: seq<Action>, sid: Sid, d: nat)
    requires Schedule(ws, acts) && d < |acts| && acts[d] == Turn(sid)
    requires sid in ws[d + 1].streams && ws[d + 1].streams[sid].phase.Open?
    ensures !Pending(ws, acts, ws[d + 1].streams[sid].req.id, d)
  {
    hide Pending, Apply;
    StepAt(ws, acts, d);
    TurnIs(ws[d], sid);
    MarkedIff(ws, acts, ws[d].streams[sid].req.id, d);
  }

  lemma {:induction false} TurnsBefore(ws: seq<World>, acts: seq<Action>, sid: Sid, b: nat, d: nat)
    requires Schedule(ws, acts) && d < b < |ws| && acts[d] == Turn(sid)
    requires sid in ws[b].streams && ws[b].streams[sid].phase.Open?
    ensures !Pending(ws, acts, ws[b].streams[sid].req.id, d)
    decreases b
  {
    hide Apply, Pending;
    StepAt(ws, acts, b - 1);
    OpenBefore(ws[b - 1], acts[b - 1], sid);
    if d == b - 1 {
      TurnGoesOn(ws, acts, sid, d);
    } else {
      StaysKnown(ws, acts, sid, d, b - 1);
      TurnsBefore(ws, acts, sid, b - 1, d);
    }
  }

  lemma {:induction false} StaysKnown(ws: seq<World>, acts: seq<Action>, sid: Sid, d: nat, b: nat)
    requires Schedule(ws, acts) && d < b < |ws| && acts[d] == Turn(sid)
    ensures sid in ws[b].streams
    decreases b
  {
    StepAt(ws, acts, b - 1);
    if d < b - 1 {
      StaysKnown(ws, acts, sid, d, b - 1);
    }
  }

  /** All that stream sid, finished after n tokens, yielded, and the turn b that ended it. */
  ghost predicate RanToEnd(ws: seq<World>, acts: seq<Action>, st: Stream, sid: Sid, n: nat, reason: Reason, b: nat)
    requires b < |acts| < |ws|
  {
    && |st.events| == n + 1 && TokenEvents(st.req, st.events, n)
    && st.events[n] == FinishedEvent(n, reason, Usage(st.req.prompt, n))
    && LastTurn(ws, acts, sid, st.req, b, n)
    && Explained(st.req, n, Pending(ws, acts, st.req.id, b), reason)
    && forall d :: 0 <= d < b && acts[d] == Turn(sid) ==> !Pending(ws, acts, st.req.id, d)
  }

  /** In every schedule, a stream that ran to its end yielded tokens numbered 0, 1, ..., n - 1 - the
      first n of its backend, none of them a stop token - and then one finished event that counts n.
      It ended at its first turn that found the backend's end, a pending cancel, or a stop token. */
  lemma StreamContract(ws: seq<World>, acts: seq<Action>, i: nat, sid: Sid)
    returns (n: nat, reason: Reason, b: nat)
    requires Schedule(ws, acts) && i < |ws| && sid in ws[i].streams && ws[i].streams[sid].phase.Done?
    ensures b < i && RanToEnd(ws, acts, ws[i].streams[sid], sid, n, reason, b)
  {
    hide TokenEvents, Explained, Pending;
    ScheduleKeeps(ws, acts, i);
    var st := ws[i].streams[sid];
    assert Contract(st);
    n := |st.events| - 1;
    reason := st.events[n].reason;
    b := EndsAt(ws, acts, i, sid, n, reason);
    forall d | 0 <= d < b && acts[d] == Turn(sid) ensures !Pending(ws, acts, st.req.id, d) {
      TurnsBefore(ws, acts, sid, b, d);
    }
  }

  /** A finished stream says Cancelled exactly when a cancel of its id was pending at the turn that
      ended it and the backend had one more token. */
  lemma CancelledIff(ws: seq<World>, acts: seq<Action>, st: Stream, sid: Sid, n: nat, reason: Reason, b: nat)
    requires b < |acts| < |ws| && RanToEnd(ws, acts, st, sid, n, reason, b)
    ensures reason == Cancelled <==> n < |st.req.tokens| && Pending(ws, acts, st.req.id, b)
  {
    hide Pending;
  }

  // ----- cancels since a stream began -----

  /** Between its Begin and step b, stream sid was in its token loop all the time. */
  ghost predicate OpenBetween(ws: seq<World>, acts: seq<Action>, sid: Sid, req: Request, a: nat, b: nat) {
    && a < b < |ws| == |acts| + 1 && acts[a] == Begin(sid, req)
    && forall t :: a < t <= b ==> sid in ws[t].streams && ws[t].streams[sid].phase.Open? && ws[t].streams[sid].req == req
  }

  ghost predicate CancelledBetween(acts: seq<Action>, id: Id, a: nat, b: nat) {
    exists c :: a < c < b && c < |acts| && acts[c] == CancelId(id)
  }

  /** In every schedule, a stream that takes a token leaves as cancelled exactly when a cancel of its id
      is pending, which came after the stream began. */
  lemma CancelObservedIff(ws: seq<World>, acts: seq<Action>, sid: Sid, req: Request, a: nat, b: nat)
    requires Schedule(ws, acts) && OpenBetween(ws, acts, sid, req, a, b) && b < |acts| && acts[b] == Turn(sid)
    requires ws[b].streams[sid].pulled < |req.tokens|
    ensures ws[b + 1].streams[sid].phase == Leaving(Cancelled) <==> Pending(ws, acts, req.id, b)
    ensures Pending(ws, acts, req.id, b) ==> CancelledBetween(acts, req.id, a, b)
  {
    hide OpenBetween;
    MarkedIff(ws, acts, req.id, b);
    OpenAt(ws, acts, sid, req, a, b);
    StepAt(ws, acts, b);
    if Pending(ws, acts, req.id, b) {
      PendingIsLater(ws, acts, sid, req, a, b);
    }
  }

  lemma OpenAt(ws: seq<World>, acts: seq<Action>, sid: Sid, req: Request, a: nat, b: nat)
    requires OpenBetween(ws, acts, sid, req, a, b)
    ensures sid in ws[b].streams && ws[b].streams[sid].phase.Open? && ws[b].streams[sid].req == req
  {
  }

  lemma PendingIsLater(ws: seq<World>, acts: seq<Action>, sid: Sid, req: Request, a: nat, b: nat)
    requires Schedule(ws, acts) && OpenBetween(ws, acts, sid, req, a, b) && Pending(ws, acts, req.id, b)
    ensures CancelledBetween(acts, req.id, a, b)
  {
    hide Apply, Enabled, OpenBetween;
    OpenBegan(ws, acts, sid, req, a, b);
    var c :| 0 <= c < b && acts[c] == CancelId(req.id) && Untouched(ws, acts, req.id, c, b);
    assert c > a;
  }

  lemma OpenBegan(ws: seq<World>, acts: seq<Action>, sid: Sid, req: Request, a: nat, b: nat)
    requires Schedule(ws, acts) && OpenBetween(ws, acts, sid, req, a, b)
    ensures a < b < |ws| && acts[a] == Begin(sid, req) && Begins(ws[a], acts[a], req.id)
  {
    StepAt(ws, acts, a);
    assert ws[a + 1].streams[sid].phase.Open?;
  }

  /** The last cancel of an open stream is lost exactly when, between it and the stream's next turn,
      another stream of the same id begins or leaves. */
  lemma CancelLostIff(ws: seq<World>, acts: seq<Action>, sid: Sid, req: Request, a: nat, b: nat, c: nat)
    requires Schedule(ws, acts) && OpenBetween(ws, acts, sid, req, a, b) && b < |acts| && acts[b] == Turn(sid)
    requires ws[b].streams[sid].pulled < |req.tokens|
    requires a < c < b && acts[c] == CancelId(req.id) && !CancelledBetween(acts, req.id, c, b)
    ensures ws[b + 1].streams[sid].phase != Leaving(Cancelled) <==>
      exists d :: c < d < b && OtherTouches(ws, acts, sid, req.id, d)
  {
    hide OpenBetween, Apply;
    CancelObservedIff(ws, acts, sid, req, a, b);
    if Pending(ws, acts, req.id, b) {
      var e :| 0 <= e < b && acts[e] == CancelId(req.id) && Untouched(ws, acts, req.id, e, b);
      assert e <= c;
    } else {
      assert !Untouched(ws, acts, req.id, c, b);
      var d :| c < d < b && (Begins(ws[d], acts[d], req.id) || Leaves(ws[d], acts[d], req.id));
      StepAt(ws, acts, d);
      OpenOnly(ws, acts, sid, req, a, b, d);
      assert OtherTouches(ws, acts, sid, req.id, d);
    }
  }

  /** A stream other than sid, of that id, begins or leaves at step d. */
  ghost predicate OtherTouches(ws: seq<World>, acts: seq<Action>, sid: Sid, id: Id, d: nat)
    requires d < |acts| < |ws|
  {
    (Begins(ws[d], acts[d], id) || Leaves(ws[d], acts[d], id)) && acts[d].sid != sid
  }

  /** While it is open, a stream neither begins nor leaves. */
  lemma OpenOnly(ws: seq<World>, acts: seq<Action>, sid: Sid, req: Request, a: nat, b: nat, d: nat)
    requires OpenBetween(ws, acts, sid, req, a, b) && a < d < b && Enabled(ws[d], acts[d])
    ensures acts[d].Begin? || acts[d].Leave? ==> acts[d].sid != sid
  {
    assert sid in ws[d].streams && ws[d].streams[sid].phase.Open?;
  }

  // ----- two live streams of one id -----

  function Quick(id: Id): Request {
    Request(id, [], {}, 1, 0)
  }

  function Slow(id: Id): Request {
    Request(id, [7], {}, 1, 0)
  }

  /** Two streams of one id; the second is cancelled, the first leaves, and the second, whose cancel
      nobody saw, takes its token and goes on, though its id is no longer active. */
  lemma LeaveLosesCancel(id: Id) returns (ws: seq<World>, acts: seq<Action>)
    ensures Schedule(ws, acts) && |acts| == 6 && OpenBetween(ws, acts, 1, Slow(id), 1, 5)
    ensures acts[5] == Turn(1) && CancelledBetween(acts, id, 1, 5)
    ensures ws[6].streams[1].phase == Open && ws[6].streams[1].events == [TokenEvent(7, 0)]
    ensures id !in ws[5].shared.active
  {
    acts := [Begin(0, Quick(id)), Begin(1, Slow(id)), Turn(0), CancelId(id), Leave(0), Turn(1)];
    var w1 := Apply(EMPTY, acts[0]);
    var w2 := Apply(w1, acts[1]);
    var w3 := Apply(w2, acts[2]);
    var w4 := Apply(w3, acts[3]);
    var w5 := Apply(w4, acts[4]);
    var w6 := Apply(w5, acts[5]);
    ws := [EMPTY, w1, w2, w3, w4, w5, w6];
    assert acts[3] == CancelId(id);
  }

  /** A second stream of the id that begins after the cancel loses it as well. */
  lemma BeginLosesCancel(id: Id) returns (ws: seq<World>, acts: seq<Action>)
    ensures Schedule(ws, acts) && |acts| == 4 && OpenBetween(ws, acts, 1, Slow(id), 0, 3)
    ensures acts[3] == Turn(1) && CancelledBetween(acts, id, 0, 3)
    ensures ws[4].streams[1].phase == Open && ws[4].streams[1].events == [TokenEvent(7, 0)]
  {
    acts := [Begin(1, Slow(id)), CancelId(id), Begin(0, Quick(id)), Turn(1)];
    var w1 := Apply(EMPTY, acts[0]);
    var w2 := Apply(w1, acts[1]);
    var w3 := Apply(w2, acts[2]);
    var w4 := Apply(w3, acts[3]);
    ws := [EMPTY, w1, w2, w3, w4];
    assert acts[1] == CancelId(id);
  }

  // ----- schedules with distinct live ids -----

  /** The callers' side of the bargain: no stream begins with the id of a live one. */
  ghost predicate DistinctIds(ws: seq<World>, acts: seq<Action>) {
    |acts| < |ws| && forall i :: 0 <= i < |acts| ==> DistinctId(ws[i], acts[i])
  }

  predicate DistinctId(w: World, a: Action) {
    a.Begin? ==> a.req.id !in w.shared.active
  }

  ghost predicate SameLiveId(w: World, s: Sid, t: Sid) {
    s in w.streams && t in w.streams && Live(w.streams[s]) && Live(w.streams[t])
    && w.streams[s].req.id == w.streams[t].req.id
  }

  ghost predicate LiveAs(w: World, sid: Sid, id: Id) {
    sid in w.streams && Live(w.streams[sid]) && w.streams[sid].req.id == id
  }

  /** The active set is exactly the ids of the live streams, and no two live streams share one. */
  ghost predicate ActiveIsLive(w: World) {
    LiveAreActive(w) && ActiveAreLive(w) && LiveDiffer(w)
  }

  ghost predicate LiveAreActive(w: World) {
    forall sid :: sid in w.streams && Live(w.streams[sid]) ==> w.streams[sid].req.id in w.shared.active
  }

  ghost predicate ActiveAreLive(w: World) {
    forall id :: id in w.shared.active ==> exists sid :: LiveAs(w, sid, id)
  }

  ghost predicate LiveDiffer(w: World) {
    forall s, t :: SameLiveId(w, s, t) ==> s == t
  }

  lemma LiveStayActive(w: World, a: Action)
    requires LiveAreActive(w) && LiveDiffer(w) && Enabled(w, a)
    ensures LiveAreActive(Apply(w, a))
  {
    var v := Apply(w, a);
    forall sid | sid in v.streams && Live(v.streams[sid]) ensures v.streams[sid].req.id in v.shared.active {
      if a.Leave? && sid != a.sid {
        assert !SameLiveId(w, a.sid, sid);
      }
    }
  }

  lemma ActiveStayLive(w: World, a: Action)
    requires ActiveAreLive(w) && Enabled(w, a)
    ensures ActiveAreLive(Apply(w, a))
  {
    var v := Apply(w, a);
    forall id | id in v.shared.active ensures exists sid :: LiveAs(v, sid, id) {
      if id in w.shared.active {
        var sid :| LiveAs(w, sid, id);
        assert LiveAs(v, sid, id);
      } else {
        assert LiveAs(v, a.sid, id);
      }
    }
  }

  lemma LiveStayDifferent(w: World, a: Action)
    requires LiveAreActive(w) && LiveDiffer(w) && Enabled(w, a) && DistinctId(w, a)
    ensures LiveDiffer(Apply(w, a))
  {
    var v := Apply(w, a);
    forall s, t | SameLiveId(v, s, t) ensures s == t {
      if !(a.Begin? && (s == a.sid || t == a.sid)) {
        assert SameLiveId(w, s, t);
      }
    }
  }

  /** With distinct live ids the active set is at every moment exactly the ids of the live streams. */
  lemma {:induction false} ActiveAlways(ws: seq<World>, acts: seq<Action>, i: nat)
    requires Schedule(ws, acts) && DistinctIds(ws, acts) && i < |ws|
    ensures ActiveIsLive(ws[i])
  {
    if i > 0 {
      hide Apply, LiveAreActive, ActiveAreLive, LiveDiffer, DistinctId;
      ActiveAlways(ws, acts, i - 1);
      StepAt(ws, acts, i - 1);
      LiveStayActive(ws[i - 1], acts[i - 1]);
      ActiveStayLive(ws[i - 1], acts[i - 1]);
      LiveStayDifferent(ws[i - 1], acts[i - 1]);
    } else {
      NothingActive();
    }
  }

  lemma NothingActive()
    ensures ActiveIsLive(EMPTY)
  {
  }

  /** With distinct live ids no cancel is lost: a stream that takes a token leaves as cancelled exactly
      when its id was cancelled since it began; a cancel from before that has no effect. */
  lemma DistinctLoseNothing(ws: seq<World>, acts: seq<Action>, sid: Sid, req: Request, a: nat, b: nat)
    requires Schedule(ws, acts) && DistinctIds(ws, acts)
    requires OpenBetween(ws, acts, sid, req, a, b) && b < |acts| && acts[b] == Turn(sid)
    requires ws[b].streams[sid].pulled < |req.tokens|
    ensures ws[b + 1].streams[sid].phase == Leaving(Cancelled) <==> CancelledBetween(acts, req.id, a, b)
  {
    hide Apply, DistinctIds, OpenBetween;
    CancelObservedIff(ws, acts, sid, req, a, b);
    OpenBegan(ws, acts, sid, req, a, b);
    if CancelledBetween(acts, req.id, a, b) {
      var c :| a < c < b && c < |acts| && acts[c] == CancelId(req.id);
      forall d | c < d < b ensures !Begins(ws[d], acts[d], req.id) && !Leaves(ws[d], acts[d], req.id) {
        NotTouched(ws, acts, sid, req, a, b, d);
      }
      assert Untouched(ws, acts, req.id, c, b);
    }
  }

  lemma NotTouched(ws: seq<World>, acts: seq<Action>, sid: Sid, req: Request, a: nat, b: nat, d: nat)
    requires Schedule(ws, acts) && DistinctIds(ws, acts) && OpenBetween(ws, acts, sid, req, a, b) && a < d < b
    ensures !Begins(ws[d], acts[d], req.id) && !Leaves(ws[d], acts[d], req.id)
  {
    hide Apply, Schedule;
    ActiveAlways(ws, acts, d);
    StepAt(ws, acts, d);
    assert DistinctId(ws[d], acts[d]);
    assert LiveAs(ws[d], sid, req.id);
    assert Leaves(ws[d], acts[d], req.id) ==> SameLiveId(ws[d], acts[d].sid, sid);
  }

  // ----- generate -----

  datatype Output = Output(tokens: seq<Token>, reason: Reason, usage: Usage)

  /** The events of a stream that ran to its end. */
  ghost predicate Completed(req: Request, events: seq<Event>, n: nat, reason: Reason) {
    |events| == n + 1 && TokenEvents(req, events, n) && events[n] == FinishedEvent(n, reason, Usage(req.prompt, n))
  }

  /** The loop over the events of generate_stream; without a finished event the usage is counted. */
  method Generate(req: Request, events: seq<Event>) returns (o: Output)
    ensures forall n: nat, reason :: Completed(req, events, n, reason) ==>
      o == Output(req.tokens[..n], reason, Usage(req.prompt, n))
  {
    var tokens: seq<Token> := [];
    var reason, usage, counted := Length, Usage(req.prompt, 0), false;
    for i := 0 to |events|
      invariant forall n: nat, r :: Completed(req, events, n, r) ==>
        if i <= n then tokens == req.tokens[..i]
        else tokens == req.tokens[..n] && counted && reason == r && usage == Usage(req.prompt, n)
    {
      match events[i]
      case TokenEvent(token, _) => tokens := tokens + [token];
      case FinishedEvent(_, r, u) => reason, usage, counted := r, u, true;
    }
    if !counted {
      usage := Usage(req.prompt, |tokens|);
    }
    o := Output(tokens, reason, usage);
  }
}
