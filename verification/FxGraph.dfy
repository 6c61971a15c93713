/** Traced graphs and their evaluation, as torch.fx has them: nodes in execution order, a node's id
  being its position (src/torchinferno/profiling.py:1759-1760). Nodes are pure functions. */
module FxGraph {
  datatype Op = Placeholder | GetAttr | Call | Output

  /** Runtime values: tensors and the nested tuples the arguments are built from. */
  datatype Data = Atom(x: int) | Empty | Pair(head: Data, tail: Data)

  /** All arguments of a node, positional and by keyword, as one tree with references at its leaves. */
  datatype Arg = Ref(id: nat) | Lit(x: int) | NoArg | More(head: Arg, tail: Arg)

  datatype Node = Node(op: Op, target: string, name: string, args: Arg)

  type Graph = seq<Node>

  /** What the parameters and the called functions mean. */
  datatype Meaning = Meaning(attr: string -> Data, call: (string, Data) -> Data)

  function Refs(a: Arg): set<nat> {
    match a
    case Ref(id) => {id}
    case Lit(_) => {}
    case NoArg => {}
    case More(h, t) => Refs(h) + Refs(t)
  }

  predicate RefsBelow(a: Arg, n: nat) {
    forall r :: r in Refs(a) ==> r < n
  }

  /** Every node refers to earlier nodes only; inputs and parameters refer to none. */
  ghost predicate Ordered(g: Graph) {
    forall k :: 0 <= k < |g| ==>
      RefsBelow(g[k].args, k) && (g[k].op == Placeholder || g[k].op == GetAttr ==> Refs(g[k].args) == {})
  }

  function Placeholders(g: Graph): nat {
    if g == [] then 0
    else Placeholders(g[..|g| - 1]) + if g[|g| - 1].op == Placeholder then 1 else 0
  }

  function EvalArg(a: Arg, vals: seq<Data>): Data
    requires RefsBelow(a, |vals|)
  {
    match a
    case Ref(id) => assert id in Refs(a); vals[id]
    case Lit(x) => Atom(x)
    case NoArg => Empty
    case More(h, t) =>
      assert Refs(h) <= Refs(a) && Refs(t) <= Refs(a);
      Pair(EvalArg(h, vals), EvalArg(t, vals))
  }

  /** The value of one node, from the values of the nodes before it and the inputs left. */
  function EvalNode(m: Meaning, nd: Node, vals: seq<Data>, inputs: seq<Data>, used: nat): Data
    requires RefsBelow(nd.args, |vals|) && (nd.op == Placeholder ==> used < |inputs|)
  {
    match nd.op
    case Placeholder => inputs[used]
    case GetAttr => m.attr(nd.target)
    case Call => m.call(nd.target, EvalArg(nd.args, vals))
    case Output => EvalArg(nd.args, vals)
  }

  /** The values of all nodes: placeholder number i takes input number i. */
  function Eval(m: Meaning, g: Graph, inputs: seq<Data>): (vals: seq<Data>)
    requires Ordered(g) && Placeholders(g) <= |inputs|
    ensures |vals| == |g|
  {
    if g == [] then []
    else
      var init := g[..|g| - 1];
      OrderedPrefix(g, |g| - 1);
      var vals := Eval(m, init, inputs);
      vals + [EvalNode(m, g[|g| - 1], vals, inputs, Placeholders(init))]
  }

  lemma OrderedPrefix(g: Graph, n: nat)
    requires Ordered(g) && n <= |g|
    ensures Ordered(g[..n])
  {
  }

  lemma {:induction false} PlaceholdersPrefix(g: Graph, n: nat)
    requires n <= |g|
    ensures Placeholders(g[..n]) <= Placeholders(g)
    ensures n < |g| && g[n].op == Placeholder ==> Placeholders(g[..n]) < Placeholders(g)
  {
    if n < |g| {
      assert g[..|g| - 1][..n] == g[..n];
      PlaceholdersPrefix(g[..|g| - 1], n);
    } else {
      assert g[..n] == g;
    }
  }

  /** The value of a node depends only on the nodes up to it. */
  lemma {:induction false} EvalPrefix(m: Meaning, g: Graph, inputs: seq<Data>, n: nat)
    requires Ordered(g) && Placeholders(g) <= |inputs| && n <= |g|
    ensures Ordered(g[..n]) && Placeholders(g[..n]) <= |inputs|
    ensures Eval(m, g[..n], inputs) == Eval(m, g, inputs)[..n]
  {
    OrderedPrefix(g, n);
    PlaceholdersPrefix(g, n);
    if n < |g| {
      var init := g[..|g| - 1];
      OrderedPrefix(g, |g| - 1);
      PlaceholdersPrefix(g, |g| - 1);
      assert init[..n] == g[..n];
      EvalPrefix(m, init, inputs, n);
    } else {
      assert g[..n] == g;
    }
  }

  /** Node k's value from the values before it. */
  lemma EvalAt(m: Meaning, g: Graph, inputs: seq<Data>, k: nat)
    requires Ordered(g) && Placeholders(g) <= |inputs| && k < |g|
    ensures RefsBelow(g[k].args, k)
    ensures g[k].op == Placeholder ==> Placeholders(g[..k]) < |inputs|
    ensures Eval(m, g, inputs)[k]
         == EvalNode(m, g[k], Eval(m, g, inputs)[..k], inputs, Placeholders(g[..k]))
    ensures g[k].op == Placeholder ==> Eval(m, g, inputs)[k] == inputs[Placeholders(g[..k])]
    ensures g[k].op == GetAttr ==> Eval(m, g, inputs)[k] == m.attr(g[k].target)
    ensures g[k].op == Call ==>
      Eval(m, g, inputs)[k] == m.call(g[k].target, EvalArg(g[k].args, Eval(m, g, inputs)[..k]))
  {
    PlaceholdersPrefix(g, k);
    EvalPrefix(m, g, inputs, k);
    EvalPrefix(m, g, inputs, k + 1);
    assert g[..k + 1][..k] == g[..k];
    assert Eval(m, g, inputs)[k] == Eval(m, g, inputs)[..k + 1][k];
  }

  /** An argument carries every value it refers to, and nothing else of what was computed. */
  lemma {:induction false} ArgCarriesRefs(a: Arg, vals: seq<Data>, vals': seq<Data>)
    requires RefsBelow(a, |vals|) && RefsBelow(a, |vals'|)
    ensures EvalArg(a, vals) == EvalArg(a, vals') <==> forall r :: r in Refs(a) ==> vals[r] == vals'[r]
  {
    match a
    case Ref(id) => assert id in Refs(a);
    case Lit(_) =>
    case NoArg =>
    case More(h, t) =>
      assert Refs(h) <= Refs(a) && Refs(t) <= Refs(a);
      ArgCarriesRefs(h, vals, vals');
      ArgCarriesRefs(t, vals, vals');
  }

  // ----- renaming references -----

  function Rename(a: Arg, env: map<nat, nat>): Arg
    requires Refs(a) <= env.Keys
  {
    match a
    case Ref(id) => Ref(env[id])
    case Lit(_) => a
    case NoArg => a
    case More(h, t) => More(Rename(h, env), Rename(t, env))
  }

  ghost predicate Extends(env: map<nat, nat>, env': map<nat, nat>) {
    forall k :: k in env ==> k in env' && env'[k] == env[k]
  }

  lemma {:induction false} RenameExtends(a: Arg, env: map<nat, nat>, env': map<nat, nat>)
    requires Refs(a) <= env.Keys && Extends(env, env')
    ensures Refs(a) <= env'.Keys && Rename(a, env') == Rename(a, env)
  {
    if a.More? {
      RenameExtends(a.head, env, env');
      RenameExtends(a.tail, env, env');
    }
  }

  lemma {:induction false} RenameRefs(a: Arg, env: map<nat, nat>, n: nat)
    requires Refs(a) <= env.Keys && forall r :: r in Refs(a) ==> env[r] < n
    ensures RefsBelow(Rename(a, env), n)
  {
    if a.More? {
      RenameRefs(a.head, env, n);
      RenameRefs(a.tail, env, n);
    }
  }

  /** A renamed argument means what the argument meant, where the references agree. */
  lemma {:induction false} EvalRenamed(a: Arg, env: map<nat, nat>, vals: seq<Data>, vals': seq<Data>)
    requires Refs(a) <= env.Keys && RefsBelow(a, |vals|)
    requires forall r :: r in Refs(a) ==> env[r] < |vals'| && vals'[env[r]] == vals[r]
    ensures RefsBelow(Rename(a, env), |vals'|)
    ensures EvalArg(Rename(a, env), vals') == EvalArg(a, vals)
  {
    RenameRefs(a, env, |vals'|);
    match a
    case Ref(id) => assert id in Refs(a);
    case Lit(_) =>
    case NoArg =>
    case More(h, t) =>
      assert Refs(h) <= Refs(a) && Refs(t) <= Refs(a);
      EvalRenamed(h, env, vals, vals');
      EvalRenamed(t, env, vals, vals');
  }
}
