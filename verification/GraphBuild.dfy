/** `build_graph`: a template and its judges as one chain of nodes. */
module GraphBuild {
  import opened JsonValues
  import opened Templates

  datatype Node = StepNode(step: Step) | JudgeNode(judge: Judge)
  {
    function Name(): string
    {
      match this case StepNode(step) => step.name case JudgeNode(judge) => judge.NodeName()
    }
  }

  const START := "__start__"
  const END := "__end__"

  function StepNames(t: Template): set<string>
  {
    set i | 0 <= i < |t.steps| :: t.steps[i].name
  }

  // ------------------------------------------------------------------- the chain

  /** `[j for j in judges if step_name in j.before]`, as nodes. */
  function AttachedBefore(judges: seq<Judge>, step: string): seq<Node>
  {
    if judges == [] then []
    else
      AttachedBefore(judges[..|judges| - 1], step) +
      if step in judges[|judges| - 1].before then [JudgeNode(judges[|judges| - 1])] else []
  }

  function AttachedAfter(judges: seq<Judge>, step: string): seq<Node>
  {
    if judges == [] then []
    else
      AttachedAfter(judges[..|judges| - 1], step) +
      if step in judges[|judges| - 1].after then [JudgeNode(judges[|judges| - 1])] else []
  }

  function Around(step: Step, judges: seq<Judge>): seq<Node>
  {
    AttachedBefore(judges, step.name) + [StepNode(step)] + AttachedAfter(judges, step.name)
  }

  function ChainOf(steps: seq<Step>, judges: seq<Judge>): seq<Node>
  {
    if steps == [] then []
    else ChainOf(steps[..|steps| - 1], judges) + Around(steps[|steps| - 1], judges)
  }

  function Names(chain: seq<Node>): seq<string>
  {
    seq(|chain|, i requires 0 <= i < |chain| => chain[i].Name())
  }

  // ------------------------------------------------------------------ placements

  datatype PlacementError = NameClash(a: Judge, b: Judge) | NoAnchor(judge: Judge) | TakesStepName(judge: Judge)

  predicate Anchored(judge: Judge, names: set<string>)
  {
    exists i :: 0 <= i < |judge.Anchors()| && judge.Anchors()[i] in names
  }

  ghost predicate PlacementsOk(t: Template, judges: seq<Judge>)
  {
    && (forall i, j :: 0 <= i < j < |judges| ==> judges[i].NodeName() != judges[j].NodeName())
    && (forall i :: 0 <= i < |judges| ==>
          Anchored(judges[i], StepNames(t)) && judges[i].NodeName() !in StepNames(t))
  }

  /** `_check_placements(template, judges)` */
  method CheckPlacements(t: Template, judges: seq<Judge>) returns (problem: Option<PlacementError>)
    ensures problem.None? <==> PlacementsOk(t, judges)
    ensures problem.Some? ==>
              match problem.value
              case NameClash(a, b) => a in judges && b in judges && a.NodeName() == b.NodeName()
              case NoAnchor(j) => j in judges && !Anchored(j, StepNames(t))
              case TakesStepName(j) => j in judges && j.NodeName() in StepNames(t)
  {
    var seen: map<string, Judge> := map[];
    for i := 0 to |judges|
      invariant forall k :: 0 <= k < i ==> judges[k].NodeName() in seen && seen[judges[k].NodeName()] == judges[k]
      invariant forall name :: name in seen ==> exists k :: 0 <= k < i && judges[k] == seen[name] && judges[k].NodeName() == name
      invariant forall k, m :: 0 <= k < m < i ==> judges[k].NodeName() != judges[m].NodeName()
    {
      var name := judges[i].NodeName();
      if name in seen { return Some(NameClash(seen[name], judges[i])); }
      seen := seen[name := judges[i]];
    }
    for i := 0 to |judges|
      invariant forall k :: 0 <= k < i ==>
                  Anchored(judges[k], StepNames(t)) && judges[k].NodeName() !in StepNames(t)
    {
      if !Anchored(judges[i], StepNames(t)) { return Some(NoAnchor(judges[i])); }
      if judges[i].NodeName() in StepNames(t) { return Some(TakesStepName(judges[i])); }
    }
    problem := None;
  }

  // ---------------------------------------------------------------- nodes and edges

  datatype Graph = Graph(nodes: seq<Node>, edges: seq<(string, string)>)

  /** The edges of the path `START -> names -> (nothing yet)`. */
  function PathEdges(names: seq<string>): seq<(string, string)>
  {
    seq(|names|, i requires 0 <= i < |names| => (if i == 0 then START else names[i - 1], names[i]))
  }

  ghost predicate PathSoFar(g: Graph, previous: string)
  {
    && g.edges == PathEdges(Names(g.nodes))
    && previous == if g.nodes == [] then START else g.nodes[|g.nodes| - 1].Name()
  }

  /** `add_node` and `add_edge(previous, node)`. */
  method Attach(g: Graph, previous: string, node: Node) returns (g': Graph, previous': string)
    requires PathSoFar(g, previous)
    ensures g'.nodes == g.nodes + [node] && PathSoFar(g', previous')
  {
    g' := Graph(g.nodes + [node], g.edges + [(previous, node.Name())]);
    previous' := node.Name();
    assert Names(g'.nodes) == Names(g.nodes) + [node.Name()];
  }

  method AttachAll(g: Graph, previous: string, nodes: seq<Node>) returns (g': Graph, previous': string)
    requires PathSoFar(g, previous)
    ensures g'.nodes == g.nodes + nodes && PathSoFar(g', previous')
  {
    g', previous' := g, previous;
    for i := 0 to |nodes|
      invariant g'.nodes == g.nodes + nodes[..i] && PathSoFar(g', previous')
    {
      g', previous' := Attach(g', previous', nodes[i]);
      assert nodes[..i + 1] == nodes[..i] + [nodes[i]];
    }
    assert nodes[..|nodes|] == nodes;
  }

  /** One step with the judges on either side of it. */
  method AttachStep(g: Graph, previous: string, step: Step, judges: seq<Judge>) returns (g': Graph, previous': string)
    requires PathSoFar(g, previous)
    ensures g'.nodes == g.nodes + Around(step, judges) && PathSoFar(g', previous')
  {
    g', previous' := AttachAll(g, previous, AttachedBefore(judges, step.name));
    g', previous' := Attach(g', previous', StepNode(step));
    g', previous' := AttachAll(g', previous', AttachedAfter(judges, step.name));
  }

  lemma PathCloses(g: Graph, previous: string)
    requires PathSoFar(g, previous)
    ensures g.edges + [(previous, END)] == PathEdges(Names(g.nodes) + [END])
  {
  }

  /** `build_graph(template, hooks, ctx, record, judges)`: the node order is the
      chain, and the edges are that chain from START to END. */
  method BuildGraph(t: Template, judges: seq<Judge>) returns (r: Result<Graph, PlacementError>)
    ensures r.Ok? <==> PlacementsOk(t, judges)
    ensures r.Ok? ==> r.value.nodes == ChainOf(t.steps, judges)
    ensures r.Ok? ==> r.value.edges == PathEdges(Names(ChainOf(t.steps, judges)) + [END])
  {
    var problem := CheckPlacements(t, judges);
    if problem.Some? { return Err(problem.value); }
    var g, previous := Graph([], []), START;
    for k := 0 to |t.steps|
      invariant g.nodes == ChainOf(t.steps[..k], judges) && PathSoFar(g, previous)
    {
      assert t.steps[..k + 1][..k] == t.steps[..k];
      g, previous := AttachStep(g, previous, t.steps[k], judges);
    }
    assert t.steps[..|t.steps|] == t.steps;
    PathCloses(g, previous);
    r := Ok(Graph(g.nodes, g.edges + [(previous, END)]));
  }

  // ------------------------------------------------------------ one path, no branches

  ghost predicate Distinct(names: seq<string>)
  {
    forall i, j :: 0 <= i < j < |names| ==> names[i] != names[j]
  }

  ghost function Successors(edges: seq<(string, string)>, name: string): set<string>
  {
    set i | 0 <= i < |edges| && edges[i].0 == name :: edges[i].1
  }

  /** With distinct names the graph has no branch and no loop: from START each
      node leads to the next one only, the last to END only, and END nowhere. */
  lemma PathIsChain(names: seq<string>, i: nat)
    requires Distinct([START] + names + [END]) && i <= |names|
    ensures Successors(PathEdges(names + [END]), ([START] + names + [END])[i]) == {(names + [END])[i]}
    ensures Successors(PathEdges(names + [END]), END) == {}
  {
    var full, tail := [START] + names + [END], names + [END];
    var edges := PathEdges(tail);
    assert forall k :: 0 <= k < |edges| ==> edges[k] == (full[k], tail[k]);
    assert edges[i] == (full[i], tail[i]);
    forall k | 0 <= k < |edges| && edges[k].0 == full[i] ensures k == i { }
    assert full[|names| + 1] == END;
    forall k | 0 <= k < |edges| ensures edges[k].0 != END {
      assert full[k] != full[|names| + 1];
    }
  }

  // ------------------------------------------------------------ where nodes stand

  /** The chain falls into the earlier steps, one step with its judges, the rest. */
  lemma {:induction false} ChainParts(steps: seq<Step>, judges: seq<Judge>, k: nat) returns (rest: seq<Node>)
    requires k < |steps|
    ensures ChainOf(steps, judges) == ChainOf(steps[..k], judges) + Around(steps[k], judges) + rest
  {
    var front, last := steps[..|steps| - 1], steps[|steps| - 1];
    if k == |steps| - 1 {
      rest := [];
    } else {
      var inner := ChainParts(front, judges, k);
      assert front[..k] == steps[..k] && front[k] == steps[k];
      rest := inner + Around(last, judges);
    }
  }

  lemma {:induction false} AttachedAreJudges(judges: seq<Judge>, step: string, n: Node)
    ensures n in AttachedBefore(judges, step) <==> n.JudgeNode? && n.judge in judges && step in n.judge.before
    ensures n in AttachedAfter(judges, step) <==> n.JudgeNode? && n.judge in judges && step in n.judge.after
  {
    if judges != [] {
      AttachedAreJudges(judges[..|judges| - 1], step, n);
      assert judges == judges[..|judges| - 1] + [judges[|judges| - 1]];
    }
  }

  lemma SplitAt(nodes: seq<Node>, n: Node) returns (left: seq<Node>, right: seq<Node>)
    requires n in nodes
    ensures nodes == left + [n] + right
  {
    var i :| 0 <= i < |nodes| && nodes[i] == n;
    left, right := nodes[..i], nodes[i + 1..];
  }

  /** A judge placed before step `k` stands between the nodes of the earlier
      steps and that step, with only judges placed before it in between. */
  lemma BeforeAnchor(t: Template, judges: seq<Judge>, k: nat, j: Judge)
    returns (left: seq<Node>, between: seq<Node>, rest: seq<Node>)
    requires k < |t.steps| && j in judges && t.steps[k].name in j.before
    ensures ChainOf(t.steps, judges) ==
            ChainOf(t.steps[..k], judges) + left + [JudgeNode(j)] + between + [StepNode(t.steps[k])] + rest
    ensures forall n :: n in left || n in between ==> n.JudgeNode? && t.steps[k].name in n.judge.before
  {
    var step := t.steps[k];
    var before, after := AttachedBefore(judges, step.name), AttachedAfter(judges, step.name);
    AttachedAreJudges(judges, step.name, JudgeNode(j));
    var tail := ChainParts(t.steps, judges, k);
    left, between := SplitAt(before, JudgeNode(j));
    forall n | n in left || n in between ensures n.JudgeNode? && step.name in n.judge.before {
      assert n in before;
      AttachedAreJudges(judges, step.name, n);
    }
    rest := after + tail;
    Flattened(ChainOf(t.steps[..k], judges), left, [JudgeNode(j)], between, [StepNode(step)], after, tail);
  }

  /** ... and one placed after step `k` follows it, likewise. */
  lemma AfterAnchor(t: Template, judges: seq<Judge>, k: nat, j: Judge)
    returns (left: seq<Node>, between: seq<Node>, rest: seq<Node>)
    requires k < |t.steps| && j in judges && t.steps[k].name in j.after
    ensures ChainOf(t.steps, judges) ==
            ChainOf(t.steps[..k], judges) + left + [StepNode(t.steps[k])] + between + [JudgeNode(j)] + rest
    ensures forall n :: n in left ==> n.JudgeNode? && t.steps[k].name in n.judge.before
    ensures forall n :: n in between ==> n.JudgeNode? && t.steps[k].name in n.judge.after
  {
    var step := t.steps[k];
    var before, after := AttachedBefore(judges, step.name), AttachedAfter(judges, step.name);
    AttachedAreJudges(judges, step.name, JudgeNode(j));
    var tail := ChainParts(t.steps, judges, k);
    left := before;
    var right;
    between, right := SplitAt(after, JudgeNode(j));
    forall n | n in left ensures n.JudgeNode? && step.name in n.judge.before {
      AttachedAreJudges(judges, step.name, n);
    }
    forall n | n in between ensures n.JudgeNode? && step.name in n.judge.after {
      assert n in after;
      AttachedAreJudges(judges, step.name, n);
    }
    rest := right + tail;
    Flattened(ChainOf(t.steps[..k], judges), left, [StepNode(step)], between, [JudgeNode(j)], right, tail);
  }

  predicate AttachedTo(j: Judge, step: string)
  {
    step in j.before || step in j.after
  }

  ghost predicate AttachedSomewhere(j: Judge, steps: seq<Step>)
  {
    exists k :: 0 <= k < |steps| && AttachedTo(j, steps[k].name)
  }

  lemma AttachedSnoc(j: Judge, steps: seq<Step>)
    requires steps != []
    ensures AttachedSomewhere(j, steps) <==>
            AttachedSomewhere(j, steps[..|steps| - 1]) || AttachedTo(j, steps[|steps| - 1].name)
  {
    var front := steps[..|steps| - 1];
    assert forall k :: 0 <= k < |front| ==> front[k] == steps[k];
  }

  lemma AroundIff(step: Step, judges: seq<Judge>, j: Judge)
    ensures JudgeNode(j) in Around(step, judges) <==> j in judges && AttachedTo(j, step.name)
  {
    AttachedAreJudges(judges, step.name, JudgeNode(j));
    InSum(AttachedBefore(judges, step.name), [StepNode(step)], JudgeNode(j));
    InSum(AttachedBefore(judges, step.name) + [StepNode(step)], AttachedAfter(judges, step.name), JudgeNode(j));
  }

  lemma InSum(a: seq<Node>, b: seq<Node>, n: Node)
    ensures n in a + b <==> n in a || n in b
  {
  }

  /** A judge stands somewhere on the chain if and only if it is configured and
      the template has a step it is attached to. */
  lemma {:induction false} OnChainIff(steps: seq<Step>, judges: seq<Judge>, j: Judge)
    ensures JudgeNode(j) in ChainOf(steps, judges) <==> j in judges && AttachedSomewhere(j, steps)
  {
    if steps != [] {
      var front, last := steps[..|steps| - 1], steps[|steps| - 1];
      OnChainIff(front, judges, j);
      AroundIff(last, judges, j);
      AttachedSnoc(j, steps);
      InSum(ChainOf(front, judges), Around(last, judges), JudgeNode(j));
    }
  }

  /** So no judge the placement check lets through silently never runs. */
  lemma NoJudgeLeftOut(t: Template, judges: seq<Judge>, j: Judge)
    requires PlacementsOk(t, judges) && j in judges
    ensures JudgeNode(j) in ChainOf(t.steps, judges)
  {
    var i :| 0 <= i < |j.Anchors()| && j.Anchors()[i] in StepNames(t);
    var k :| 0 <= k < |t.steps| && t.steps[k].name == j.Anchors()[i];
    assert AttachedTo(j, t.steps[k].name);
    OnChainIff(t.steps, judges, j);
  }

  lemma Flattened(a: seq<Node>, b: seq<Node>, c: seq<Node>, d: seq<Node>, e: seq<Node>, f: seq<Node>, g: seq<Node>)
    ensures a + ((b + c + d) + e + f) + g == a + b + c + d + e + (f + g)
    ensures a + (b + c + (d + e + f)) + g == a + b + c + d + e + (f + g)
  {
  }

  // ---------------------------------------------------------- when names are distinct

  /** How many places a judge takes in the chain. */
  function Places(j: Judge, steps: seq<Step>): nat
  {
    if steps == [] then 0
    else
      var last := steps[|steps| - 1].name;
      Places(j, steps[..|steps| - 1]) + (if last in j.before then 1 else 0) + (if last in j.after then 1 else 0)
  }

  lemma SumCount<T>(a: seq<T>, b: seq<T>, x: T)
    ensures multiset(a + b)[x] == multiset(a)[x] + multiset(b)[x]
  {
  }

  lemma SnocCount<T>(xs: seq<T>, x: T)
    requires xs != []
    ensures multiset(xs)[x] == multiset(xs[..|xs| - 1])[x] + if xs[|xs| - 1] == x then 1 else 0
  {
    var front, last := xs[..|xs| - 1], xs[|xs| - 1];
    assert xs == front + [last];
    SumCount(front, [last], x);
  }

  lemma {:induction false} BeforeCount(judges: seq<Judge>, step: string, n: Node)
    ensures multiset(AttachedBefore(judges, step))[n] ==
            if n.JudgeNode? && step in n.judge.before then multiset(judges)[n.judge] else 0
  {
    if judges != [] {
      var front, last := judges[..|judges| - 1], judges[|judges| - 1];
      var own := if step in last.before then [JudgeNode(last)] else [];
      BeforeCount(front, step, n);
      SumCount(AttachedBefore(front, step), own, n);
      if n.JudgeNode? { SnocCount(judges, n.judge); }
    }
  }

  lemma {:induction false} AfterCount(judges: seq<Judge>, step: string, n: Node)
    ensures multiset(AttachedAfter(judges, step))[n] ==
            if n.JudgeNode? && step in n.judge.after then multiset(judges)[n.judge] else 0
  {
    if judges != [] {
      var front, last := judges[..|judges| - 1], judges[|judges| - 1];
      var own := if step in last.after then [JudgeNode(last)] else [];
      AfterCount(front, step, n);
      SumCount(AttachedAfter(front, step), own, n);
      if n.JudgeNode? { SnocCount(judges, n.judge); }
    }
  }

  lemma AroundCount(step: Step, judges: seq<Judge>, n: Node)
    requires n.JudgeNode? ==> multiset(judges)[n.judge] == 1
    ensures multiset(Around(step, judges))[n] ==
            if n.StepNode? then (if n.step == step then 1 else 0)
            else (if step.name in n.judge.before then 1 else 0) + (if step.name in n.judge.after then 1 else 0)
  {
    BeforeCount(judges, step.name, n);
    AfterCount(judges, step.name, n);
    SumCount(AttachedBefore(judges, step.name) + [StepNode(step)], AttachedAfter(judges, step.name), n);
    SumCount(AttachedBefore(judges, step.name), [StepNode(step)], n);
  }

  lemma {:induction false} JudgeCount(steps: seq<Step>, judges: seq<Judge>, j: Judge)
    requires multiset(judges)[j] == 1
    ensures multiset(ChainOf(steps, judges))[JudgeNode(j)] == Places(j, steps)
  {
    if steps != [] {
      var front, last := steps[..|steps| - 1], steps[|steps| - 1];
      JudgeCount(front, judges, j);
      AroundCount(last, judges, JudgeNode(j));
      SumCount(ChainOf(front, judges), Around(last, judges), JudgeNode(j));
    }
  }

  lemma {:induction false} StepCount(steps: seq<Step>, judges: seq<Judge>, step: Step)
    ensures multiset(ChainOf(steps, judges))[StepNode(step)] == multiset(steps)[step]
  {
    if steps != [] {
      var front, last := steps[..|steps| - 1], steps[|steps| - 1];
      StepCount(front, judges, step);
      AroundCount(last, judges, StepNode(step));
      SumCount(ChainOf(front, judges), Around(last, judges), StepNode(step));
      SnocCount(steps, step);
    }
  }

  lemma {:induction false} ChainJudges(steps: seq<Step>, judges: seq<Judge>, n: Node)
    requires n in ChainOf(steps, judges)
    ensures if n.JudgeNode? then n.judge in judges else n.step in steps
  {
    var front, last := steps[..|steps| - 1], steps[|steps| - 1];
    if n in ChainOf(front, judges) {
      ChainJudges(front, judges, n);
    } else {
      AttachedAreJudges(judges, last.name, n);
    }
  }

  lemma {:induction false} AtMostOnce<T>(xs: seq<T>, x: T)
    requires forall i, j :: 0 <= i < j < |xs| ==> !(xs[i] == x && xs[j] == x)
    ensures multiset(xs)[x] <= 1
  {
    if xs != [] {
      var front, last := xs[..|xs| - 1], xs[|xs| - 1];
      SnocCount(xs, x);
      AtMostOnce(front, x);
      assert last == x ==> forall i :: 0 <= i < |front| ==> front[i] != x;
    }
  }

  lemma Twice<T>(xs: seq<T>, i: nat, j: nat)
    requires i < j < |xs| && xs[i] == xs[j]
    ensures multiset(xs)[xs[i]] >= 2
  {
    assert xs == xs[..j] + xs[j..];
    assert xs[..j][i] == xs[i] && xs[j..][0] == xs[i];
  }

  lemma DistinctMeansOnePlace(t: Template, judges: seq<Judge>, j: Judge)
    requires PlacementsOk(t, judges) && j in judges
    requires Distinct(Names(ChainOf(t.steps, judges)))
    ensures Places(j, t.steps) <= 1
  {
    var chain := ChainOf(t.steps, judges);
    JudgeOnce(t, judges, j);
    JudgeCount(t.steps, judges, j);
    forall a, b | 0 <= a < b < |chain| ensures !(chain[a] == JudgeNode(j) && chain[b] == JudgeNode(j)) {
      assert Names(chain)[a] != Names(chain)[b];
    }
    AtMostOnce(chain, JudgeNode(j));
  }

  lemma OnePlaceMeansDistinct(t: Template, judges: seq<Judge>, a: nat, b: nat)
    requires DistinctSteps(t) && PlacementsOk(t, judges)
    requires forall j :: j in judges ==> Places(j, t.steps) <= 1
    requires a < b < |ChainOf(t.steps, judges)|
    ensures ChainOf(t.steps, judges)[a].Name() != ChainOf(t.steps, judges)[b].Name()
  {
    var chain := ChainOf(t.steps, judges);
    ChainJudges(t.steps, judges, chain[a]);
    ChainJudges(t.steps, judges, chain[b]);
    NodeOnce(t, judges, chain[a]);
    if chain[a].Name() == chain[b].Name() {
      SameNameSameNode(t, judges, chain[a], chain[b]);
      Twice(chain, a, b);
    }
  }

  /** No two nodes of the chain share a name if and only if no judge takes two
      places in it. `_check_placements` does not look for the second place. */
  lemma NamesDistinctIff(t: Template, judges: seq<Judge>)
    requires DistinctSteps(t) && PlacementsOk(t, judges)
    ensures Distinct(Names(ChainOf(t.steps, judges))) <==> forall j :: j in judges ==> Places(j, t.steps) <= 1
  {
    var names := Names(ChainOf(t.steps, judges));
    if Distinct(names) {
      forall j | j in judges ensures Places(j, t.steps) <= 1 { DistinctMeansOnePlace(t, judges, j); }
    }
    if forall j :: j in judges ==> Places(j, t.steps) <= 1 {
      forall a, b | 0 <= a < b < |names| ensures names[a] != names[b] { OnePlaceMeansDistinct(t, judges, a, b); }
    }
  }

  lemma JudgeOnce(t: Template, judges: seq<Judge>, j: Judge)
    requires PlacementsOk(t, judges) && j in judges
    ensures multiset(judges)[j] == 1
  {
    AtMostOnce(judges, j);
  }

  lemma NodeOnce(t: Template, judges: seq<Judge>, n: Node)
    requires DistinctSteps(t) && PlacementsOk(t, judges) && n in ChainOf(t.steps, judges)
    requires forall j :: j in judges ==> Places(j, t.steps) <= 1
    ensures multiset(ChainOf(t.steps, judges))[n] <= 1
  {
    ChainJudges(t.steps, judges, n);
    if n.JudgeNode? {
      JudgeOnce(t, judges, n.judge);
      JudgeCount(t.steps, judges, n.judge);
    } else {
      AtMostOnce(t.steps, n.step);
      StepCount(t.steps, judges, n.step);
    }
  }

  lemma SameNameSameNode(t: Template, judges: seq<Judge>, a: Node, b: Node)
    requires DistinctSteps(t) && PlacementsOk(t, judges)
    requires if a.JudgeNode? then a.judge in judges else a.step in t.steps
    requires if b.JudgeNode? then b.judge in judges else b.step in t.steps
    requires a.Name() == b.Name()
    ensures a == b
  {
    if a.StepNode? && b.StepNode? {
      var i :| 0 <= i < |t.steps| && t.steps[i] == a.step;
      var j :| 0 <= j < |t.steps| && t.steps[j] == b.step;
    } else if a.JudgeNode? && b.JudgeNode? {
      var i :| 0 <= i < |judges| && judges[i] == a.judge;
      var j :| 0 <= j < |judges| && judges[j] == b.judge;
    }
  }
}
