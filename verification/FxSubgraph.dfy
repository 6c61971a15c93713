/** Cutting a selection of nodes out of a traced graph (_extract_fx_subgraph in
  src/torchinferno/profiling.py), and capturing node values with an early stop. */
module FxSubgraph {
  import opened FxGraph

  datatype Boundary = Boundary(argName: string, sourceId: nat, sourceName: string, sourceOp: Op, sourceTarget: string)

  function BoundaryOf(g: Graph, k: nat): Boundary
    requires k < |g|
  {
    Boundary("in_" + g[k].name, k, g[k].name, g[k].op, g[k].target)
  }

  /** A selection holds compute nodes and parameters. */
  ghost predicate Selection(g: Graph, sel: set<nat>) {
    forall k :: k in sel ==> k < |g| && (g[k].op == Call || g[k].op == GetAttr)
  }

  // ----- what the copy is, relative to the source -----

  /** nd stands for source node k: a parameter and a selected node are copied, with the references
      of the latter renamed; everything else becomes an input. */
  ghost predicate CopyOf(g: Graph, sel: set<nat>, k: nat, nd: Node, env: map<nat, nat>)
    requires k < |g|
  {
    if g[k].op == GetAttr then nd.op == GetAttr && nd.target == g[k].target && Refs(nd.args) == {}
    else if k in sel then
      nd.op == g[k].op && nd.target == g[k].target
      && Refs(g[k].args) <= env.Keys && nd.args == Rename(g[k].args, env)
    else nd.op == Placeholder && nd.target == "in_" + g[k].name && Refs(nd.args) == {}
  }

  /** Node i of the copy stands for source node origin[i], and env is the inverse of origin. */
  ghost predicate Faithful(g: Graph, sel: set<nat>, ng: Graph, env: map<nat, nat>, origin: seq<nat>) {
    && |origin| == |ng| && Ordered(ng)
    && (forall i :: 0 <= i < |ng| ==>
        origin[i] < |g| && origin[i] in env && env[origin[i]] == i && CopyOf(g, sel, origin[i], ng[i], env))
    && (forall k :: k in env ==> env[k] < |ng| && origin[env[k]] == k)
  }

  /** The sources of the copy's inputs, in input order. */
  function InputSources(ng: Graph, origin: seq<nat>): (s: seq<nat>)
    requires |origin| == |ng|
    ensures |s| == Placeholders(ng)
  {
    if ng == [] then []
    else
      var n := |ng| - 1;
      InputSources(ng[..n], origin[..n]) + if ng[n].op == Placeholder then [origin[n]] else []
  }

  lemma CopyOfExtends(g: Graph, sel: set<nat>, k: nat, nd: Node, env: map<nat, nat>, env': map<nat, nat>)
    requires k < |g| && CopyOf(g, sel, k, nd, env) && FxGraph.Extends(env, env')
    ensures CopyOf(g, sel, k, nd, env')
  {
    if g[k].op != GetAttr && k in sel {
      RenameExtends(g[k].args, env, env');
    }
  }

  lemma AppendFaithful(g: Graph, sel: set<nat>, ng: Graph, env: map<nat, nat>, origin: seq<nat>, k: nat, nd: Node)
    requires Faithful(g, sel, ng, env, origin) && k < |g| && k !in env
    requires CopyOf(g, sel, k, nd, env) && RefsBelow(nd.args, |ng|)
    requires nd.op == Placeholder || nd.op == GetAttr ==> Refs(nd.args) == {}
    ensures Faithful(g, sel, ng + [nd], env[k := |ng|], origin + [k])
    ensures FxGraph.Extends(env, env[k := |ng|])
  {
    hide CopyOf;
    var env' := env[k := |ng|];
    forall i | 0 <= i < |ng| + 1
      ensures CopyOf(g, sel, (origin + [k])[i], (ng + [nd])[i], env')
    {
      CopyOfExtends(g, sel, (origin + [k])[i], (ng + [nd])[i], env, env');
    }
  }

  /** The recorded boundaries are those of the inputs, in order. */
  ghost predicate Records(g: Graph, bs: seq<Boundary>, sources: seq<nat>) {
    |bs| == |sources| && forall i :: 0 <= i < |bs| ==> sources[i] < |g| && bs[i] == BoundaryOf(g, sources[i])
  }

  lemma InputAppend(ng: Graph, origin: seq<nat>, nd: Node, k: nat)
    requires |origin| == |ng|
    ensures InputSources(ng + [nd], origin + [k])
         == InputSources(ng, origin) + if nd.op == Placeholder then [k] else []
    ensures Placeholders(ng + [nd]) == Placeholders(ng) + if nd.op == Placeholder then 1 else 0
  {
    assert (ng + [nd])[..|ng|] == ng;
    assert (origin + [k])[..|ng|] == origin;
  }

  lemma RecordsAppend(g: Graph, bs: seq<Boundary>, sources: seq<nat>, k: nat)
    requires Records(g, bs, sources) && k < |g|
    ensures Records(g, bs + [BoundaryOf(g, k)], sources + [k])
    ensures sources + [] == sources
  {
  }

  // ----- the extractor and its closures -----

  class Extractor {
    const source: Graph
    const selected: set<nat>
    var newGraph: Graph
    var env: map<nat, nat>
    var boundaries: seq<Boundary>
    ghost var origin: seq<nat>

    ghost predicate Valid()
      reads this
    {
      && Ordered(source) && Selection(source, selected)
      && Faithful(source, selected, newGraph, env, origin)
      && Records(source, boundaries, InputSources(newGraph, origin))
    }

    constructor (source: Graph, selected: set<nat>)
      requires Ordered(source) && Selection(source, selected)
      ensures Valid() && env == map[] && this.source == source && this.selected == selected
    {
      this.source, this.selected := source, selected;
      newGraph, env, boundaries, origin := [], map[], [], [];
    }

    /** Appends the node that stands for source node k. */
    method Append(k: nat, nd: Node)
      requires Valid() && k < |source| && k !in env
      requires CopyOf(source, selected, k, nd, env) && RefsBelow(nd.args, |newGraph|)
      requires nd.op == Placeholder || nd.op == GetAttr ==> Refs(nd.args) == {}
      modifies this
      ensures Valid() && env == old(env)[k := |old(newGraph)|]
      ensures FxGraph.Extends(old(env), env)
    {
      AppendFaithful(source, selected, newGraph, env, origin, k, nd);
      InputAppend(newGraph, origin, nd, k);
      hide Faithful, CopyOf, Ordered, Selection, FxGraph.Extends, InputSources, RefsBelow, Refs, Placeholders, Records;
      RecordsAppend(source, boundaries, InputSources(newGraph, origin), k);
      newGraph, env, origin := newGraph + [nd], env[k := |newGraph|], origin + [k];
      if nd.op == Placeholder {
        boundaries := boundaries + [BoundaryOf(source, k)];
      }
    }

    method CopyGetAttr(k: nat) returns (i: nat)
      requires Valid() && k < |source| && source[k].op == GetAttr
      modifies this
      ensures Valid() && FxGraph.Extends(old(env), env)
      ensures env.Keys == old(env).Keys + {k} && i == env[k]
    {
      if k !in env {
        Append(k, Node(GetAttr, source[k].target, source[k].target, NoArg));
      }
      i := env[k];
    }

    method BoundaryFor(k: nat) returns (i: nat)
      requires Valid() && k < |source| && source[k].op != GetAttr && k !in selected
      modifies this
      ensures Valid() && FxGraph.Extends(old(env), env)
      ensures env.Keys == old(env).Keys + {k} && i == env[k]
    {
      if k !in env {
        var argName := "in_" + source[k].name;
        Append(k, Node(Placeholder, argName, argName, NoArg));
      }
      i := env[k];
    }

    /** The selected nodes before the one being copied are copied already, so the error branch of
        the source is dead. */
    method MapInput(k: nat) returns (i: nat)
      requires Valid() && k < |source| && (k in selected ==> k in env)
      modifies this
      ensures Valid() && FxGraph.Extends(old(env), env)
      ensures env.Keys == old(env).Keys + {k} && i == env[k]
    {
      if k in env {
        i := env[k];
      } else if k in selected {
        assert false;
      } else if source[k].op == GetAttr {
        i := CopyGetAttr(k);
      } else {
        i := BoundaryFor(k);
      }
    }

    method MapArg(a: Arg) returns (r: Arg)
      requires Valid() && RefsBelow(a, |source|)
      requires forall k :: k in Refs(a) && k in selected ==> k in env
      modifies this
      ensures Valid() && FxGraph.Extends(old(env), env)
      ensures env.Keys == old(env).Keys + Refs(a) && r == Rename(a, env)
    {
      hide Faithful, CopyOf, Ordered, Selection, InputSources, Placeholders;
      match a
      case Ref(k) =>
        assert k in Refs(a);
        var i := MapInput(k);
        r := Ref(i);
      case Lit(x) => r := a;
      case NoArg => r := a;
      case More(h, t) =>
        assert Refs(a) == Refs(h) + Refs(t);
        var h' := MapArg(h);
        ghost var mid := env;
        var t' := MapArg(t);
        RenameExtends(h, mid, env);
        r := More(h', t');
    }

    method NodeCopy(k: nat)
      requires Valid() && k < |source| && k in selected && source[k].op == Call
      requires forall j :: j in env ==> j < k
      requires forall j :: j in selected && j < k ==> j in env
      modifies this
      ensures Valid() && env.Keys == old(env).Keys + Refs(source[k].args) + {k}
    {
      var args := MapArg(source[k].args);
      RenameRefs(source[k].args, env, |newGraph|);
      Append(k, Node(source[k].op, source[k].target, source[k].name, args));
    }
  }

  // ----- the copy means what the source means -----

  /** The values the source run gives to the sources of the inputs. */
  ghost function BoundaryValues(m: Meaning, g: Graph, inputs: seq<Data>, sources: seq<nat>): (bv: seq<Data>)
    requires Ordered(g) && Placeholders(g) <= |inputs|
    requires forall i :: 0 <= i < |sources| ==> sources[i] < |g|
    ensures |bv| == |sources|
  {
    seq(|sources|, i requires 0 <= i < |sources| => Eval(m, g, inputs)[sources[i]])
  }

  lemma {:induction false} InputSourceAt(ng: Graph, origin: seq<nat>, i: nat)
    requires |origin| == |ng| && i < |ng| && ng[i].op == Placeholder
    ensures Placeholders(ng[..i]) < Placeholders(ng)
    ensures InputSources(ng, origin)[Placeholders(ng[..i])] == origin[i]
  {
    var n := |ng| - 1;
    PlaceholdersPrefix(ng, i);
    if i < n {
      assert ng[..n][..i] == ng[..i];
      InputSourceAt(ng[..n], origin[..n], i);
    }
  }

  /** Every source of an input is the origin of an input node. */
  lemma {:induction false} InputSourceOf(ng: Graph, origin: seq<nat>, p: nat) returns (i: nat)
    requires |origin| == |ng| && p < Placeholders(ng)
    ensures i < |ng| && ng[i].op == Placeholder && Placeholders(ng[..i]) == p
    ensures InputSources(ng, origin)[p] == origin[i]
  {
    var n := |ng| - 1;
    if p == Placeholders(ng[..n]) {
      i := n;
    } else {
      i := InputSourceOf(ng[..n], origin[..n], p);
      assert ng[..n][..i] == ng[..i];
    }
  }

  ghost predicate Bounded(s: seq<nat>, n: nat) {
    forall i :: 0 <= i < |s| ==> s[i] < n
  }

  lemma {:induction false} CopyMeans(m: Meaning, g: Graph, inputs: seq<Data>, sel: set<nat>,
    ng: Graph, env: map<nat, nat>, origin: seq<nat>, i: nat)
    requires Ordered(g) && Selection(g, sel) && Placeholders(g) <= |inputs|
    requires Faithful(g, sel, ng, env, origin) && Bounded(InputSources(ng, origin), |g|)
    requires i < |ng|
    ensures Eval(m, ng, BoundaryValues(m, g, inputs, InputSources(ng, origin)))[i]
         == Eval(m, g, inputs)[origin[i]]
    decreases i
  {
    var sources := InputSources(ng, origin);
    var bv := BoundaryValues(m, g, inputs, sources);
    var vals, vals' := Eval(m, g, inputs), Eval(m, ng, bv);
    var k := origin[i];
    EvalAt(m, ng, bv, i);
    EvalAt(m, g, inputs, k);
    if g[k].op == GetAttr {
    } else if k in sel {
      forall r | r in Refs(g[k].args) ensures r < k && env[r] < i && vals'[env[r]] == vals[r] {
        RenamedRef(g[k].args, env, r);
        CopyMeans(m, g, inputs, sel, ng, env, origin, env[r]);
      }
      EvalRenamed(g[k].args, env, vals[..k], vals'[..i]);
    } else {
      InputSourceAt(ng, origin, i);
    }
  }

  lemma {:induction false} RenamedRef(a: Arg, env: map<nat, nat>, r: nat)
    requires Refs(a) <= env.Keys && r in Refs(a)
    ensures env[r] in Refs(Rename(a, env))
  {
    if a.More? {
      if r in Refs(a.head) {
        RenamedRef(a.head, env, r);
      } else {
        RenamedRef(a.tail, env, r);
      }
    }
  }

  // ----- which sources become inputs -----

  /** The producers that feed the selected nodes before p. */
  ghost function Feeding(g: Graph, sel: set<nat>, p: nat): set<nat>
    requires p <= |g|
  {
    set c, r | c in sel && c < p && r in Refs(g[c].args) :: r
  }

  ghost function SelectedBefore(sel: set<nat>, p: nat): set<nat> {
    set k | k in sel && k < p
  }

  /** The inputs are exactly the unselected producers, other than parameters, that feed a selected
      node; each appears once. */
  ghost predicate ExactFrontier(g: Graph, sel: set<nat>, sources: seq<nat>) {
    && (forall k: nat :: k in sources <==>
        k < |g| && k !in sel && g[k].op != GetAttr && exists c :: c in sel && c < |g| && k in Refs(g[c].args))
    && (forall i, j :: 0 <= i < j < |sources| ==> sources[i] != sources[j])
  }

  lemma SourceIsInput(g: Graph, sel: set<nat>, ng: Graph, env: map<nat, nat>, origin: seq<nat>, k: nat)
    requires Faithful(g, sel, ng, env, origin) && Selection(g, sel) && k < |g|
    ensures k in InputSources(ng, origin) <==> k in env && k !in sel && g[k].op != GetAttr
  {
    var sources := InputSources(ng, origin);
    if k in sources {
      var p :| 0 <= p < |sources| && sources[p] == k;
      var i := InputSourceOf(ng, origin, p);
      assert CopyOf(g, sel, origin[i], ng[i], env);
    }
    if k in env && k !in sel && g[k].op != GetAttr {
      assert CopyOf(g, sel, origin[env[k]], ng[env[k]], env);
      InputSourceAt(ng, origin, env[k]);
    }
  }

  lemma FrontierIsExact(g: Graph, sel: set<nat>, ng: Graph, env: map<nat, nat>, origin: seq<nat>)
    requires Faithful(g, sel, ng, env, origin) && Selection(g, sel)
    requires env.Keys == SelectedBefore(sel, |g|) + Feeding(g, sel, |g|)
    ensures Bounded(InputSources(ng, origin), |g|)
    ensures ExactFrontier(g, sel, InputSources(ng, origin))
  {
    hide CopyOf, Ordered;
    var sources := InputSources(ng, origin);
    forall p | 0 <= p < |sources| ensures sources[p] < |g| {
      var i := InputSourceOf(ng, origin, p);
    }
    forall k: nat ensures k in sources <==>
      k < |g| && k !in sel && g[k].op != GetAttr && exists c :: c in sel && c < |g| && k in Refs(g[c].args)
    {
      if k < |g| {
        SourceIsInput(g, sel, ng, env, origin, k);
      }
    }
    forall p, q | 0 <= p < q < |sources| ensures sources[p] != sources[q] {
      var i := InputSourceOf(ng, origin, p);
      var j := InputSourceOf(ng, origin, q);
    }
  }

  lemma FeedingStep(g: Graph, sel: set<nat>, p: nat)
    requires p < |g|
    ensures Feeding(g, sel, p + 1) == Feeding(g, sel, p) + if p in sel then Refs(g[p].args) else {}
    ensures SelectedBefore(sel, p + 1) == SelectedBefore(sel, p) + if p in sel then {p} else {}
  {
  }

  // ----- the extraction -----

  datatype Extracted = Extracted(graph: Graph, boundaries: seq<Boundary>, outputs: seq<nat>, requested: seq<nat>)
  datatype Error = UnknownIds(missing: seq<int>) | NoComputeNode
  datatype Result = Success(value: Extracted) | Failure(error: Error)

  /** The requested ids without repetitions, in order of first occurrence. */
  function Unique(ids: seq<int>): (u: seq<int>)
    ensures forall x :: x in u <==> x in ids
    ensures forall i, j :: 0 <= i < j < |u| ==> u[i] != u[j]
  {
    if ids == [] then []
    else
      var u := Unique(ids[..|ids| - 1]);
      if ids[|ids| - 1] in u then u else u + [ids[|ids| - 1]]
  }

  function Filter<T(!new)>(p: T -> bool, xs: seq<T>): (r: seq<T>)
    ensures forall x :: x in r <==> x in xs && p(x)
  {
    if xs == [] then []
    else
      var r := Filter(p, xs[..|xs| - 1]);
      if p(xs[|xs| - 1]) then r + [xs[|xs| - 1]] else r
  }

  /** x occurs in ids before y does. */
  ghost predicate Before(ids: seq<int>, x: int, y: int) {
    exists a :: 0 <= a < |ids| && ids[a] == x && y !in ids[..a + 1]
  }

  /** The elements of xs, each once, in the order in which they first occur in ids. */
  ghost predicate InOrder(xs: seq<int>, ids: seq<int>) {
    forall i, j :: 0 <= i < j < |xs| ==> Before(ids, xs[i], xs[j])
  }

  lemma BeforeLonger(ids: seq<int>, n: nat, x: int, y: int)
    requires n <= |ids| && Before(ids[..n], x, y)
    ensures Before(ids, x, y)
  {
    var a :| 0 <= a < n && ids[..n][a] == x && y !in ids[..n][..a + 1];
    assert ids[..n][..a + 1] == ids[..a + 1];
  }

  lemma BeforeLast(ids: seq<int>, x: int)
    requires ids != [] && x in ids[..|ids| - 1] && ids[|ids| - 1] !in ids[..|ids| - 1]
    ensures Before(ids, x, ids[|ids| - 1])
  {
    var a :| 0 <= a < |ids| - 1 && ids[a] == x;
    assert ids[..a + 1] == ids[..|ids| - 1][..a + 1];
  }

  lemma {:induction false} UniqueInOrder(ids: seq<int>)
    ensures InOrder(Unique(ids), ids)
  {
    if ids != [] {
      hide Before;
      var n := |ids| - 1;
      var u := Unique(ids[..n]);
      UniqueInOrder(ids[..n]);
      forall i, j | 0 <= i < j < |Unique(ids)| ensures Before(ids, Unique(ids)[i], Unique(ids)[j]) {
        if j < |u| {
          BeforeLonger(ids, n, u[i], u[j]);
        } else {
          assert u[i] in u;
          BeforeLast(ids, u[i]);
        }
      }
    }
  }

  lemma {:induction false} FilterInOrder(p: nat -> bool, xs: seq<nat>, ids: seq<int>)
    requires InOrder(xs, ids)
    ensures InOrder(Filter(p, xs), ids)
  {
    if xs != [] {
      hide Before;
      var n := |xs| - 1;
      var r := Filter(p, xs[..n]);
      FilterInOrder(p, xs[..n], ids);
      forall i, j | 0 <= i < j < |Filter(p, xs)| ensures Before(ids, Filter(p, xs)[i], Filter(p, xs)[j]) {
        if j == |r| {
          assert r[i] in r;
          var b :| 0 <= b < n && xs[..n][b] == r[i];
          assert Before(ids, xs[b], xs[n]);
        }
      }
    }
  }

  predicate Known(g: Graph, id: int) {
    0 <= id < |g|
  }

  predicate IsCompute(g: Graph, k: nat) {
    k < |g| && g[k].op == Call
  }

  /** Selected: requested, and neither an input nor the output node of the source. */
  function SelectionOf(g: Graph, requested: seq<nat>): set<nat> {
    set k | k in requested && k < |g| && g[k].op != Placeholder && g[k].op != Output
  }

  /** No selected node uses it. */
  predicate IsSink(g: Graph, sel: set<nat>, k: nat) {
    !exists c :: c in sel && c < |g| && g[c].op != Output && k in Refs(g[c].args)
  }

  predicate IsOutput(g: Graph, sel: set<nat>, k: nat) {
    IsCompute(g, k) && IsSink(g, sel, k)
  }

  /** The requested output nodes. */
  function OutputsOf(g: Graph, requested: seq<nat>): (outs: seq<nat>)
    ensures forall k :: k in outs <==> k in requested && IsOutput(g, SelectionOf(g, requested), k)
  {
    Filter(k => IsOutput(g, SelectionOf(g, requested), k), requested)
  }

  lemma OutputsOfInOrder(g: Graph, requested: seq<nat>, ids: seq<int>)
    requires InOrder(requested, ids)
    ensures InOrder(OutputsOf(g, requested), ids)
  {
    hide InOrder, IsOutput;
    FilterInOrder((k: nat) => IsOutput(g, SelectionOf(g, requested), k), requested, ids);
  }

  function Nats(xs: seq<int>): (r: seq<nat>)
    requires forall x :: x in xs ==> x >= 0
    ensures r == xs
  {
    if xs == [] then []
    else assert xs[0] in xs; assert forall x :: x in xs[1..] ==> x in xs; [xs[0]] + Nats(xs[1..])
  }

  /** Every selected compute node is an output or is used by a selected node that reaches one. */
  ghost predicate Reaches(g: Graph, sel: set<nat>, outs: seq<nat>, k: nat)
    decreases |g| - k
  {
    k in outs || exists c :: c in sel && k < c < |g| && g[c].op == Call && k in Refs(g[c].args) && Reaches(g, sel, outs, c)
  }

  lemma {:induction false} ReachesOutput(g: Graph, sel: set<nat>, outs: seq<nat>, k: nat)
    requires Ordered(g) && Selection(g, sel) && k < |g| && k in sel && g[k].op == Call
    requires forall j :: j in sel && IsCompute(g, j) && IsSink(g, sel, j) ==> j in outs
    ensures Reaches(g, sel, outs, k) && outs != []
    decreases |g| - k
  {
    if k !in outs {
      var c :| c in sel && c < |g| && g[c].op != Output && k in Refs(g[c].args);
      assert k < c;
      ReachesOutput(g, sel, outs, c);
    }
  }

  /** The tuple of the outputs, or the single output itself. */
  function TupleArg(env: map<nat, nat>, outs: seq<nat>): Arg
    requires forall i :: 0 <= i < |outs| ==> outs[i] in env
  {
    if outs == [] then NoArg
    else More(Ref(env[outs[0]]), TupleArg(env, outs[1..]))
  }

  function OutputArg(env: map<nat, nat>, outs: seq<nat>): Arg
    requires forall i :: 0 <= i < |outs| ==> outs[i] in env
  {
    if |outs| == 1 then Ref(env[outs[0]]) else TupleArg(env, outs)
  }

  function TupleData(vals: seq<Data>, outs: seq<nat>): Data
    requires Bounded(outs, |vals|)
  {
    if outs == [] then Empty else Pair(vals[outs[0]], TupleData(vals, outs[1..]))
  }

  function OutputData(vals: seq<Data>, outs: seq<nat>): Data
    requires Bounded(outs, |vals|)
  {
    if |outs| == 1 then vals[outs[0]] else TupleData(vals, outs)
  }

  /** What an extraction promises about its result. */
  ghost predicate Extraction(g: Graph, x: Extracted, env: map<nat, nat>, origin: seq<nat>) {
    var sel := SelectionOf(g, x.requested);
    && |x.graph| > 0
    && var ng := x.graph[..|x.graph| - 1];
    && Faithful(g, sel, ng, env, origin) && Bounded(InputSources(ng, origin), |g|)
    && ExactFrontier(g, sel, InputSources(ng, origin))
    && Records(g, x.boundaries, InputSources(ng, origin))
    && x.outputs == OutputsOf(g, x.requested)
    && Outputs(g, env, x.outputs)
    && (forall k :: k in sel && IsCompute(g, k) ==> Reaches(g, sel, x.outputs, k))
    && x.graph[|x.graph| - 1] == Node(Output, "output", "output", OutputArg(env, x.outputs))
  }

  ghost predicate Outputs(g: Graph, env: map<nat, nat>, outs: seq<nat>) {
    outs != [] && Bounded(outs, |g|) && forall i :: 0 <= i < |outs| ==> outs[i] in env
  }

  /** The copy loop: parameters by themselves, compute nodes with their inputs mapped. */
  method CopySelected(g: Graph, sel: set<nat>) returns (ex: Extractor)
    requires Ordered(g) && Selection(g, sel)
    ensures fresh(ex) && ex.Valid() && ex.source == g && ex.selected == sel
    ensures ex.env.Keys == SelectedBefore(sel, |g|) + Feeding(g, sel, |g|)
  {
    hide Faithful, CopyOf, FxGraph.Extends;
    ex := new Extractor(g, sel);
    for p := 0 to |g|
      invariant ex.Valid()
      invariant ex.env.Keys == SelectedBefore(sel, p) + Feeding(g, sel, p)
      invariant forall k :: k in ex.env ==> k < p
    {
      FeedingStep(g, sel, p);
      if p in sel {
        if g[p].op == GetAttr {
          var _ := ex.CopyGetAttr(p);
        } else {
          ex.NodeCopy(p);
        }
      }
    }
  }

  /** Some requested compute node takes k as an input. */
  ghost predicate UsedBy(g: Graph, ids: seq<int>, k: nat) {
    exists c: nat :: c in ids && c < |g| && g[c].op == Call && k in Refs(g[c].args)
  }

  /** The outputs are the requested compute nodes that no requested compute node uses. */
  lemma OutputsAre(g: Graph, requested: seq<nat>, ids: seq<int>, outs: seq<nat>)
    requires Ordered(g) && (forall k: int :: k in requested <==> k in ids)
    requires outs == OutputsOf(g, requested)
    ensures forall k: nat :: k in outs <==> k in ids && k < |g| && g[k].op == Call && !UsedBy(g, ids, k)
  {
    hide OutputsOf;
    var sel := SelectionOf(g, requested);
    forall k: nat ensures k in outs <==> k in ids && k < |g| && g[k].op == Call && !UsedBy(g, ids, k) {
      if c: nat :| c in ids && c < |g| && g[c].op == Call && k in Refs(g[c].args) {
        assert c in sel;
      }
      if c :| c in sel && c < |g| && g[c].op != Output && k in Refs(g[c].args) {
        assert g[c].op == Call;
      }
    }
  }

  lemma OutputsInOrder(g: Graph, ids: seq<int>, x: Extracted, env: map<nat, nat>, origin: seq<nat>)
    requires Ordered(g) && Extraction(g, x, env, origin) && x.requested == Unique(ids)
    ensures forall k: nat :: k in x.outputs <==> k in ids && k < |g| && g[k].op == Call && !UsedBy(g, ids, k)
    ensures InOrder(x.requested, ids) && InOrder(x.outputs, ids)
  {
    hide Faithful, ExactFrontier, Records, Outputs, Reaches, OutputsOf, Ordered, IsOutput, UsedBy, InOrder;
    OutputsAre(g, x.requested, ids, x.outputs);
    UniqueInOrder(ids);
    OutputsOfInOrder(g, x.requested, ids);
  }

  /** The boundary names its input after the node it stands for, and describes that node. */
  ghost predicate Describes(b: Boundary, g: Graph) {
    && b.sourceId < |g| && b.argName == "in_" + g[b.sourceId].name && b.sourceName == g[b.sourceId].name
    && b.sourceOp == g[b.sourceId].op && b.sourceTarget == g[b.sourceId].target
  }

  lemma BoundariesDescribe(g: Graph, x: Extracted, env: map<nat, nat>, origin: seq<nat>)
    requires Extraction(g, x, env, origin)
    ensures forall b :: b in x.boundaries ==> Describes(b, g)
  {
    hide Faithful, ExactFrontier, Outputs, Reaches, OutputsOf;
    OriginLength(g, x, env, origin);
    assert Records(g, x.boundaries, InputSources(x.graph[..|x.graph| - 1], origin));
  }

  method Extract(g: Graph, ids: seq<int>)
    returns (r: Result, ghost env: map<nat, nat>, ghost origin: seq<nat>)
    requires Ordered(g)
    ensures r.Failure? && r.error.UnknownIds? <==> exists id :: id in ids && !Known(g, id)
    ensures r.Failure? && r.error.UnknownIds? ==> forall id :: id in r.error.missing <==> id in ids && !Known(g, id)
    ensures r.Failure? && r.error.NoComputeNode? ==> forall id :: id in ids ==> Known(g, id) && g[id].op != Call
    ensures r.Success? ==> Extraction(g, r.value, env, origin) && r.value.requested == Unique(ids)
    ensures r.Success? ==> exists k :: k in r.value.requested && IsCompute(g, k)
    ensures r.Success? ==> forall k: nat :: k in r.value.outputs <==>
      k in ids && k < |g| && g[k].op == Call && !UsedBy(g, ids, k)
    ensures r.Success? ==> InOrder(r.value.requested, ids) && InOrder(r.value.outputs, ids)
    ensures r.Success? ==> forall b :: b in r.value.boundaries ==> Describes(b, g)
  {
    hide Extraction, InOrder, UsedBy, Ordered, Describes;
    env, origin := map[], [];
    var unique := Unique(ids);
    var missing := Filter(id => !Known(g, id), unique);
    if missing != [] {
      assert missing[0] in missing;
      return Failure(UnknownIds(missing)), env, origin;
    }
    var requested := Nats(unique);
    var compute := Filter(k => IsCompute(g, k), requested);
    if compute == [] {
      return Failure(NoComputeNode), env, origin;
    }
    assert compute[0] in compute;
    var x;
    x, env, origin := ExtractKnown(g, requested, compute[0]);
    OutputsInOrder(g, ids, x, env, origin);
    BoundariesDescribe(g, x, env, origin);
    r := Success(x);
  }

  method ExtractKnown(g: Graph, requested: seq<nat>, ghost first: nat)
    returns (x: Extracted, ghost env: map<nat, nat>, ghost origin: seq<nat>)
    requires Ordered(g) && first in requested && IsCompute(g, first)
    requires forall k :: k in requested ==> k < |g|
    ensures Extraction(g, x, env, origin) && x.requested == requested
  {
    hide Faithful, CopyOf, FxGraph.Extends, Reaches, Ordered, ExactFrontier, OutputsOf, IsOutput;
    var sel := SelectionOf(g, requested);
    assert Selection(g, sel);
    var ex := CopySelected(g, sel);
    var outputs := OutputsOf(g, requested);
    OutputsExist(g, requested, outputs, first);
    if outputs == [] {
      assert false;
    }
    env, origin := ex.env, ex.origin;
    FrontierIsExact(g, sel, ex.newGraph, env, origin);
    var out := Node(Output, "output", "output", OutputArg(ex.env, outputs));
    assert (ex.newGraph + [out])[..|ex.newGraph|] == ex.newGraph;
    x := Extracted(ex.newGraph + [out], ex.boundaries, outputs, requested);
  }

  lemma OutputsExist(g: Graph, requested: seq<nat>, outs: seq<nat>, first: nat)
    requires Ordered(g) && first in requested && IsCompute(g, first)
    requires outs == OutputsOf(g, requested)
    ensures outs != [] && Bounded(outs, |g|)
    ensures forall k :: k in outs ==> k in SelectionOf(g, requested)
    ensures forall k :: k in SelectionOf(g, requested) && IsCompute(g, k) ==>
      Reaches(g, SelectionOf(g, requested), outs, k)
  {
    hide Reaches, IsSink, Ordered;
    var sel := SelectionOf(g, requested);
    forall k | k in sel && IsCompute(g, k) ensures Reaches(g, sel, outs, k) && outs != [] {
      ReachesOutput(g, sel, outs, k);
    }
    assert first in sel;
    forall i | 0 <= i < |outs| ensures outs[i] < |g| {
      assert outs[i] in outs;
    }
  }

  lemma {:induction false} OutputMeans(g: Graph, env: map<nat, nat>, outs: seq<nat>, vals: seq<Data>, vals': seq<Data>)
    requires Bounded(outs, |vals|)
    requires forall i :: 0 <= i < |outs| ==>
      outs[i] in env && env[outs[i]] < |vals'| && vals'[env[outs[i]]] == vals[outs[i]]
    ensures RefsBelow(TupleArg(env, outs), |vals'|) && RefsBelow(OutputArg(env, outs), |vals'|)
    ensures EvalArg(TupleArg(env, outs), vals') == TupleData(vals, outs)
    ensures EvalArg(OutputArg(env, outs), vals') == OutputData(vals, outs)
  {
    if outs != [] {
      OutputMeans(g, env, outs[1..], vals, vals');
    }
  }

  /** Run on the values of its boundary sources, the extracted graph returns the source's values of
      its output nodes, whatever the nodes compute. */
  lemma ExtractionPreservesMeaning(m: Meaning, g: Graph, inputs: seq<Data>, x: Extracted,
    env: map<nat, nat>, origin: seq<nat>, args: seq<Data>)
    requires Ordered(g) && Placeholders(g) <= |inputs| && Extraction(g, x, env, origin)
    requires |args| == |x.boundaries|
    requires forall i :: 0 <= i < |args| ==> args[i] == Eval(m, g, inputs)[x.boundaries[i].sourceId]
    ensures Ordered(x.graph) && Placeholders(x.graph) == |args|
    ensures Eval(m, x.graph, args)[|x.graph| - 1] == OutputData(Eval(m, g, inputs), x.outputs)
  {
    hide Reaches, ExactFrontier, CopyOf, OutputsOf, IsOutput, Ordered, SelectionOf, TupleData, TupleArg;
    var n := |x.graph| - 1;
    var ng := x.graph[..n];
    var sel, sources := SelectionOf(g, x.requested), InputSources(ng, origin);
    assert args == BoundaryValues(m, g, inputs, sources);
    SelectionIsSelection(g, x.requested);
    forall i | 0 <= i < |x.outputs|
      ensures env[x.outputs[i]] < n && Eval(m, ng, args)[env[x.outputs[i]]] == Eval(m, g, inputs)[x.outputs[i]]
    {
      CopyMeans(m, g, inputs, sel, ng, env, origin, env[x.outputs[i]]);
    }
    OutputMeans(g, env, x.outputs, Eval(m, g, inputs), Eval(m, ng, args));
    assert x.graph == ng + [x.graph[n]];
    AppendOutput(m, ng, x.graph[n], args);
  }

  lemma SelectionIsSelection(g: Graph, requested: seq<nat>)
    ensures Selection(g, SelectionOf(g, requested))
  {
  }

  lemma AppendOutput(m: Meaning, ng: Graph, out: Node, args: seq<Data>)
    requires Ordered(ng) && Placeholders(ng) <= |args| && out.op == Output && RefsBelow(out.args, |ng|)
    ensures Ordered(ng + [out]) && Placeholders(ng + [out]) == Placeholders(ng)
    ensures Eval(m, ng + [out], args)[|ng|] == EvalArg(out.args, Eval(m, ng, args))
  {
    assert (ng + [out])[..|ng|] == ng;
  }

  // ----- capturing values -----

  ghost predicate UniqueNames(g: Graph) {
    forall i, j :: 0 <= i < j < |g| ==> g[i].name != g[j].name
  }

  /** The values are those of the full run, for the nodes before n. */
  ghost predicate Captured(m: Meaning, g: Graph, inputs: seq<Data>, values: map<string, Data>, n: nat)
    requires Ordered(g) && Placeholders(g) <= |inputs| && n <= |g|
  {
    && values.Keys == (set i | 0 <= i < n :: g[i].name)
    && forall i :: 0 <= i < n ==> g[i].name in values && values[g[i].name] == Eval(m, g, inputs)[i]
  }

  ghost function Names(g: Graph): set<string> {
    set i | 0 <= i < |g| :: g[i].name
  }

  lemma CapturedEmpty(m: Meaning, g: Graph, inputs: seq<Data>)
    requires Ordered(g) && Placeholders(g) <= |inputs|
    ensures Captured(m, g, inputs, map[], 0)
  {
  }

  lemma CapturedKeys(m: Meaning, g: Graph, inputs: seq<Data>, values: map<string, Data>, n: nat)
    requires Ordered(g) && Placeholders(g) <= |inputs| && n <= |g| && Captured(m, g, inputs, values, n)
    ensures values.Keys <= Names(g)
    ensures n == |g| ==> values.Keys == Names(g)
  {
  }

  lemma CapturedStep(m: Meaning, g: Graph, inputs: seq<Data>, values: map<string, Data>, n: nat)
    requires Ordered(g) && Placeholders(g) <= |inputs| && n < |g| && UniqueNames(g)
    requires Captured(m, g, inputs, values, n)
    ensures Captured(m, g, inputs, values[g[n].name := Eval(m, g, inputs)[n]], n + 1)
  {
    hide Eval, Ordered;
  }

  datatype Stop = Never | After(names: set<string>)
  datatype Capture = Values(values: map<string, Data>) | Missing(names: set<string>)

  /** Interprets the graph and stops as soon as every requested name has a value. */
  method CaptureNodeValues(m: Meaning, g: Graph, inputs: seq<Data>, stop: Stop)
    returns (r: Capture, ghost n: nat)
    requires Ordered(g) && UniqueNames(g) && Placeholders(g) <= |inputs|
    ensures n <= |g| && (stop.Never? ==> n == |g|)
    ensures r.Values? ==> Captured(m, g, inputs, r.values, n)
    ensures r.Values? && stop.After? ==> stop.names <= r.values.Keys
    ensures r.Missing? ==> stop.After? && r.names != {} && r.names == stop.names - Names(g)
  {
    hide Eval, EvalNode, Ordered, Captured, UniqueNames;
    var values: map<string, Data> := map[];
    CapturedEmpty(m, g, inputs);
    var vals: seq<Data> := [];
    var used := 0;
    var i := 0;
    while i < |g|
      invariant i <= |g| && vals == Eval(m, g, inputs)[..i] && used == Placeholders(g[..i])
      invariant Captured(m, g, inputs, values, i)
    {
      EvalAt(m, g, inputs, i);
      ghost var before := values;
      var v := EvalNode(m, g[i], vals, inputs, used);
      assert g[..i + 1][..i] == g[..i];
      values, vals := values[g[i].name := v], vals + [v];
      used := if g[i].op == Placeholder then used + 1 else used;
      CapturedStep(m, g, inputs, before, i);
      i := i + 1;
      if stop.After? && stop.names <= values.Keys {
        break;
      }
    }
    n := i;
    CapturedKeys(m, g, inputs, values, n);
    var missing := if stop.After? then stop.names - values.Keys else {};
    if missing != {} {
      assert i == |g| && values.Keys == Names(g);
      r := Missing(missing);
    } else {
      assert stop.After? ==> forall x :: x in stop.names ==> x in values.Keys || x in missing;
      r := Values(values);
    }
  }

  // ----- the profiling run: extract, capture, compare -----

  function ValuesOf(values: map<string, Data>, names: seq<string>): (vs: seq<Data>)
    requires forall i :: 0 <= i < |names| ==> names[i] in values
    ensures |vs| == |names|
  {
    seq(|names|, i requires 0 <= i < |names| => values[names[i]])
  }

  function Tuple(vs: seq<Data>): Data {
    if vs == [] then Empty else Pair(vs[0], Tuple(vs[1..]))
  }

  lemma {:induction false} TupleOfOutputs(g: Graph, full: seq<Data>, outs: seq<nat>, vs: seq<Data>)
    requires Bounded(outs, |full|) && |vs| == |outs| && forall i :: 0 <= i < |outs| ==> vs[i] == full[outs[i]]
    ensures Tuple(vs) == TupleData(full, outs)
  {
    if outs != [] {
      TupleOfOutputs(g, full, outs[1..], vs[1..]);
    }
  }

  lemma CapturedValues(m: Meaning, g: Graph, inputs: seq<Data>, values: map<string, Data>, n: nat, ids: seq<nat>)
    requires Ordered(g) && UniqueNames(g) && Placeholders(g) <= |inputs| && n <= |g|
    requires Captured(m, g, inputs, values, n) && Bounded(ids, |g|)
    requires forall i :: 0 <= i < |ids| ==> g[ids[i]].name in values
    ensures forall i :: 0 <= i < |ids| ==> values[g[ids[i]].name] == Eval(m, g, inputs)[ids[i]]
  {
    hide Eval, Ordered;
    forall i | 0 <= i < |ids| ensures values[g[ids[i]].name] == Eval(m, g, inputs)[ids[i]] {
      var name := g[ids[i]].name;
      assert name in values.Keys;
      var j :| 0 <= j < n && g[j].name == name;
      assert j == ids[i];
    }
  }

  function SourceNames(bs: seq<Boundary>): (names: seq<string>)
    ensures |names| == |bs|
  {
    seq(|bs|, i requires 0 <= i < |bs| => bs[i].sourceName)
  }

  function NamesOf(g: Graph, ids: seq<nat>): (names: seq<string>)
    requires Bounded(ids, |g|)
    ensures |names| == |ids|
  {
    seq(|ids|, i requires 0 <= i < |ids| => g[ids[i]].name)
  }

  function Elements(names: seq<string>): set<string> {
    set i | 0 <= i < |names| :: names[i]
  }

  lemma RecordedNames(g: Graph, bs: seq<Boundary>, sources: seq<nat>)
    requires Records(g, bs, sources)
    ensures Bounded(sources, |g|) && SourceNames(bs) == NamesOf(g, sources)
  {
  }

  lemma NamesOfIn(g: Graph, ids: seq<nat>)
    requires Bounded(ids, |g|)
    ensures Elements(NamesOf(g, ids)) <= Names(g)
  {
  }

  /** What a replay of an extraction computes from captured values. */
  lemma ReplayMatches(m: Meaning, g: Graph, inputs: seq<Data>, x: Extracted, env: map<nat, nat>,
    origin: seq<nat>, values: map<string, Data>, n: nat)
    requires Ordered(g) && UniqueNames(g) && Placeholders(g) <= |inputs| && n <= |g|
    requires Extraction(g, x, env, origin) && Captured(m, g, inputs, values, n)
    requires Elements(SourceNames(x.boundaries)) <= values.Keys
    requires Elements(NamesOf(g, x.outputs)) <= values.Keys
    ensures forall i :: 0 <= i < |x.boundaries| ==> SourceNames(x.boundaries)[i] in values
    ensures forall i :: 0 <= i < |x.outputs| ==> NamesOf(g, x.outputs)[i] in values
    ensures var args := ValuesOf(values, SourceNames(x.boundaries));
            var outs := ValuesOf(values, NamesOf(g, x.outputs));
            && Ordered(x.graph) && Placeholders(x.graph) == |args|
            && OutputData(Eval(m, g, inputs), x.outputs) == Eval(m, x.graph, args)[|x.graph| - 1]
            && OutputData(Eval(m, g, inputs), x.outputs) == if |outs| == 1 then outs[0] else Tuple(outs)
  {
    hide Faithful, ExactFrontier, Ordered, Eval, Captured, UniqueNames, Reaches, Records, TupleData, Tuple;
    OriginLength(g, x, env, origin);
    var sources := InputSources(x.graph[..|x.graph| - 1], origin);
    RecordedNames(g, x.boundaries, sources);
    forall i | 0 <= i < |sources| ensures g[sources[i]].name in values {
      assert NamesOf(g, sources)[i] in Elements(NamesOf(g, sources));
    }
    forall i | 0 <= i < |x.outputs| ensures g[x.outputs[i]].name in values {
      assert NamesOf(g, x.outputs)[i] in Elements(NamesOf(g, x.outputs));
    }
    CapturedValues(m, g, inputs, values, n, sources);
    CapturedValues(m, g, inputs, values, n, x.outputs);
    var args := ValuesOf(values, SourceNames(x.boundaries));
    RecordedIds(g, x.boundaries, sources);
    ExtractionPreservesMeaning(m, g, inputs, x, env, origin, args);
    TupleOfOutputs(g, Eval(m, g, inputs), x.outputs, ValuesOf(values, NamesOf(g, x.outputs)));
  }

  lemma RecordedIds(g: Graph, bs: seq<Boundary>, sources: seq<nat>)
    requires Records(g, bs, sources)
    ensures forall i :: 0 <= i < |bs| ==> bs[i].sourceId == sources[i]
  {
  }

  lemma OriginLength(g: Graph, x: Extracted, env: map<nat, nat>, origin: seq<nat>)
    requires Extraction(g, x, env, origin)
    ensures |origin| == |x.graph| - 1 && Bounded(x.outputs, |g|)
    ensures Records(g, x.boundaries, InputSources(x.graph[..|x.graph| - 1], origin))
  {
  }

  /** The expected outputs are captured from the source run, the actual one comes from the extracted
      graph on the captured boundary values: they are equal for every graph and selection. */
  method ProfileSubgraph(m: Meaning, g: Graph, inputs: seq<Data>, ids: seq<int>)
    returns (r: Result, expected: Data, actual: Data)
    requires Ordered(g) && UniqueNames(g) && Placeholders(g) <= |inputs|
    ensures r.Success? ==> Bounded(r.value.outputs, |g|)
    ensures r.Success? ==> actual == expected == OutputData(Eval(m, g, inputs), r.value.outputs)
  {
    hide Extraction, Ordered, Eval, Captured, UniqueNames, OutputData, Tuple, Records, InputSources, Elements;
    expected, actual := Empty, Empty;
    ghost var env, origin;
    r, env, origin := Extract(g, ids);
    if r.Failure? {
      return;
    }
    var x := r.value;
    OriginLength(g, x, env, origin);
    var needed := Elements(SourceNames(x.boundaries)) + Elements(NamesOf(g, x.outputs));
    RecordedNames(g, x.boundaries, InputSources(x.graph[..|x.graph| - 1], origin));
    NamesOfIn(g, InputSources(x.graph[..|x.graph| - 1], origin));
    NamesOfIn(g, x.outputs);
    var c, n := CaptureNodeValues(m, g, inputs, After(needed));
    if c.Missing? {
      assert false;
    }
    ReplayMatches(m, g, inputs, x, env, origin, c.values, n);
    var outs := ValuesOf(c.values, NamesOf(g, x.outputs));
    expected := if |outs| == 1 then outs[0] else Tuple(outs);
    actual := Eval(m, x.graph, ValuesOf(c.values, SourceNames(x.boundaries)))[|x.graph| - 1];
  }
}
