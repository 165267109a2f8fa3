/** The two engines agree: for a template without gates and judges the graph
    runner gives what the sequential loop gives, exactly as long as no row of a
    step names a parameter of one recorder and not of the other. */
module Refinement {
  import opened JsonValues
  import opened Strings
  import opened Templates
  import opened Execution
  import opened GraphBuild
  import opened Sequential
  import opened GraphRun

  ghost predicate NoGates(t: Template)
  {
    forall i :: 0 <= i < |t.steps| ==> t.steps[i].executor != Gate
  }

  /** Without judges the chain is the steps. */
  lemma {:induction false} PlainChain(steps: seq<Step>)
    ensures |ChainOf(steps, [])| == |steps|
    ensures forall i :: 0 <= i < |steps| ==> ChainOf(steps, [])[i] == StepNode(steps[i])
  {
    if steps != [] {
      PlainChain(steps[..|steps| - 1]);
    }
  }

  /** The last row of this step is accepted by both recorders or by neither.
      The sequential one refuses `step_name` and `status`, the other `self`,
      `step` and `status`. */
  ghost predicate RowsAgree(step: Step, env: Env, pool: Pool)
  {
    var p := Perform(step, env, pool);
    p.Ran? && !p.effect.ending.Raises? ==>
      (Collides(step, p.effect, env, SEQUENTIAL_NAMES) <==> Collides(step, p.effect, env, GRAPH_NAMES))
  }

  /** ... for every step the sequential run gets to. */
  ghost predicate AgreeFrom(t: Template, env: Env, k: nat, pool: Pool)
    requires k <= |t.steps|
    decreases |t.steps| - k
  {
    k < |t.steps| ==>
      && RowsAgree(t.steps[k], env, pool)
      && var w := StepWork(t.steps[k], env, pool, SEQUENTIAL_NAMES);
      w.end.Produced? ==> AgreeFrom(t, env, k + 1, pool[t.steps[k].produces := w.end.value])
  }

  /** The same outcome, rows included; the sequential run also reports the notes
      its context came with. */
  ghost predicate Agree(sequential: Report, graph: Report, prior: seq<string>)
  {
    && sequential.stop == graph.stop && sequential.pool == graph.pool && sequential.steps == graph.steps
    && sequential.rows == graph.rows && sequential.notes == prior + graph.notes
  }

  lemma SameWork(step: Step, env: Env, pool: Pool)
    requires RowsAgree(step, env, pool)
    ensures StepWork(step, env, pool, SEQUENTIAL_NAMES) == StepWork(step, env, pool, GRAPH_NAMES)
  {
  }

  /** When the recorders disagree, one run crashes after the first row of the
      step and the other goes on to log a second one. */
  lemma DifferentWork(step: Step, env: Env, pool: Pool)
    requires !RowsAgree(step, env, pool)
    ensures
      var s, g := StepWork(step, env, pool, SEQUENTIAL_NAMES), StepWork(step, env, pool, GRAPH_NAMES);
      || (s.end == Crashed(RowRejected) && |s.rows| == 1 && |g.rows| >= 2 && !g.end.Crashed?)
      || (g.end == Crashed(RowRejected) && |g.rows| == 1 && |s.rows| >= 2 && !s.end.Crashed?)
  {
  }

  lemma {:induction false} SequentialRowsGrow(t: Template, env: Env, k: nat, pool: Pool, steps: seq<StepRecord>,
                                              notes: seq<string>, rows: seq<Row>)
    requires k <= |t.steps|
    ensures |SequentialFrom(t, env, k, pool, steps, notes, rows).rows| >= |rows|
    decreases |t.steps| - k
  {
    if k < |t.steps| {
      var w := StepWork(t.steps[k], env, pool, SEQUENTIAL_NAMES);
      if w.end.Produced? {
        SequentialRowsGrow(t, env, k + 1, pool[t.steps[k].produces := w.end.value], steps + [w.end.record],
                           notes + w.end.notes, rows + w.rows);
      }
    }
  }

  lemma {:induction false} GraphRowsGrow(chain: seq<Node>, env: Env, k: nat, s: GraphState, rows: seq<Row>)
    requires k <= |chain|
    ensures |GraphFrom(chain, env, map[], k, s, rows).rows| >= |rows|
    decreases |chain| - k
  {
    if k < |chain| {
      var e := NodeEffect(chain[k], env, s.pool, None);
      if e.Does? && e.work.end.Produced? {
        var end := e.work.end;
        GraphRowsGrow(chain, env, k + 1, Merge(s, end.value, end.notes, end.record), rows + e.work.rows);
      }
    }
  }

  /** How far the two runs have come after `k` steps they agreed on. */
  ghost predicate InStep(t: Template, chain: seq<Node>, k: nat)
  {
    && NoGates(t) && k <= |t.steps| == |chain|
    && forall i :: 0 <= i < |chain| ==> chain[i] == StepNode(t.steps[i])
  }

  lemma {:induction false} EnginesAgreeFrom(t: Template, env: Env, chain: seq<Node>, k: nat, pool: Pool,
                                            steps: seq<StepRecord>, prior: seq<string>, notes: seq<string>, rows: seq<Row>)
    requires InStep(t, chain, k)
    ensures Agree(SequentialFrom(t, env, k, pool, steps, prior + notes, rows),
                  GraphFrom(chain, env, map[], k, GraphState(pool, notes, steps), rows), prior) <==>
            AgreeFrom(t, env, k, pool)
    decreases |t.steps| - k
  {
    if k < |t.steps| {
      if RowsAgree(t.steps[k], env, pool) {
        StepAgrees(t, env, chain, k, pool, steps, prior, notes, rows);
      } else {
        StepDiffers(t, env, chain, k, pool, steps, prior, notes, rows);
      }
    }
  }

  lemma {:induction false} StepAgrees(t: Template, env: Env, chain: seq<Node>, k: nat, pool: Pool,
                                      steps: seq<StepRecord>, prior: seq<string>, notes: seq<string>, rows: seq<Row>)
    requires InStep(t, chain, k) && k < |t.steps| && RowsAgree(t.steps[k], env, pool)
    ensures Agree(SequentialFrom(t, env, k, pool, steps, prior + notes, rows),
                  GraphFrom(chain, env, map[], k, GraphState(pool, notes, steps), rows), prior) <==>
            AgreeFrom(t, env, k, pool)
    decreases |t.steps| - k, 0
  {
    var step := t.steps[k];
    SameWork(step, env, pool);
    var w := StepWork(step, env, pool, SEQUENTIAL_NAMES);
    assert NodeEffect(chain[k], env, pool, None) == Does(w);
    if w.end.Produced? {
      var pool' := pool[step.produces := w.end.value];
      var steps', notes' := steps + [w.end.record], notes + w.end.notes;
      assert w.end.record.produced == step.produces;
      assert Merge(GraphState(pool, notes, steps), w.end.value, w.end.notes, w.end.record) ==
             GraphState(pool', notes', steps');
      assert (prior + notes) + w.end.notes == prior + notes';
      EnginesAgreeFrom(t, env, chain, k + 1, pool', steps', prior, notes', rows + w.rows);
    }
  }

  lemma StepDiffers(t: Template, env: Env, chain: seq<Node>, k: nat, pool: Pool,
                    steps: seq<StepRecord>, prior: seq<string>, notes: seq<string>, rows: seq<Row>)
    requires InStep(t, chain, k) && k < |t.steps| && !RowsAgree(t.steps[k], env, pool)
    ensures SequentialFrom(t, env, k, pool, steps, prior + notes, rows).rows !=
            GraphFrom(chain, env, map[], k, GraphState(pool, notes, steps), rows).rows
  {
    var step := t.steps[k];
    DifferentWork(step, env, pool);
    var s, g := StepWork(step, env, pool, SEQUENTIAL_NAMES), StepWork(step, env, pool, GRAPH_NAMES);
    assert NodeEffect(chain[k], env, pool, None) == Does(g);
    if s.end.Produced? {
      SequentialRowsGrow(t, env, k + 1, pool[step.produces := s.end.value], steps + [s.end.record],
                         (prior + notes) + s.end.notes, rows + s.rows);
    }
    if g.end.Produced? {
      GraphRowsGrow(chain, env, k + 1, Merge(GraphState(pool, notes, steps), g.end.value, g.end.notes, g.end.record),
                    rows + g.rows);
    }
  }

  /** The theorem. Both engines, from the same parameters, give the same pool,
      steps, notes and event rows and stop at the same step in the same way, if
      and only if the two recorders agree about every row the run reaches. */
  lemma EnginesAgreeIff(t: Template, env: Env, params: Pool, prior: seq<string>)
    requires NoGates(t)
    ensures Agree(SequentialRun(t, env, params, prior), FirstLeg(t, env, ChainOf(t.steps, []), params), prior) <==>
            env.absent != [] || AgreeFrom(t, env, 0, params)
  {
    PlainChain(t.steps);
    assert prior + [] == prior;
    if env.absent == [] {
      EnginesAgreeFrom(t, env, ChainOf(t.steps, []), 0, params, [], prior, [], Opening(t, env));
    }
  }

  /** Where they part: a product that puts `step` in the event row (and neither
      `step_name` nor `status`) finishes in one engine and crashes in the other. */
  lemma StepKeySplitsEngines(step: Step, env: Env, pool: Pool)
    requires var p := Perform(step, env, pool); p.Ran? && p.effect.ending.Product?
    requires var keys := SpreadDetail(step, Perform(step, env, pool).effect, env).Keys;
             "step" in keys && "step_name" !in keys && "status" !in keys
    ensures StepWork(step, env, pool, SEQUENTIAL_NAMES).end.Produced?
    ensures StepWork(step, env, pool, GRAPH_NAMES).end == Crashed(RowRejected)
  {
    var p := Perform(step, env, pool);
    var keys := SpreadDetail(step, p.effect, env).Keys;
    assert "step" in keys * GRAPH_NAMES;
    assert keys * SEQUENTIAL_NAMES == {};
  }

  /** Rows that keep clear of the recorders' own names are always accepted alike. */
  lemma ClearNamesAgree(step: Step, env: Env, pool: Pool)
    requires var p := Perform(step, env, pool);
             p.Ran? && !p.effect.ending.Raises? ==>
               var keys := SpreadDetail(step, p.effect, env).Keys;
               "self" !in keys && "step" !in keys && "step_name" !in keys
    ensures RowsAgree(step, env, pool)
  {
    var p := Perform(step, env, pool);
    if p.Ran? && !p.effect.ending.Raises? {
      var keys := SpreadDetail(step, p.effect, env).Keys;
      var extra := if p.effect.ending.Blocks? then {"reason"} else {};
      assert keys * (SEQUENTIAL_NAMES + extra) == keys * (GRAPH_NAMES + extra);
    }
  }

  // ---------------------------------------------------------- names kept clear of

  /** No key is a parameter name that the two recorders do not share. */
  predicate Clear(keys: set<string>)
  {
    "self" !in keys && "step" !in keys && "step_name" !in keys
  }

  ghost predicate ClearHook(hook: Hook)
  {
    forall kwargs, n: nat :: Clear(hook.run(kwargs, n).detail.Keys)
  }

  /** Nothing that runs, validates or is resolved in this environment sets a
      detail key with such a name. */
  ghost predicate ClearEnv(env: Env)
  {
    && (forall name :: name in env.hooks ==> ClearHook(env.hooks[name]))
    && (forall name :: name in env.registry ==> ClearHook(env.registry[name]))
    && (forall schema, value :: Clear(env.validate(schema, value).detail.Keys))
    && (forall step, pool :: Clear(env.engine(step, pool).detail.Keys))
  }

  /** No step asks for a summary key with such a name, or brings a hook that sets one. */
  ghost predicate ClearSteps(t: Template)
  {
    forall i :: 0 <= i < |t.steps| ==>
      && Clear(set key | key in t.steps[i].summaryKeys)
      && (t.steps[i].default.Some? ==> ClearHook(t.steps[i].default.value))
  }

  lemma {:induction false} ClearSummaryKeys(detail: map<string, Json>, fields: map<string, Json>, keys: seq<string>)
    requires Clear(detail.Keys) && Clear(set key | key in keys)
    ensures Clear(SummaryKeys(detail, fields, keys).Keys)
    decreases |keys|
  {
    if keys != [] {
      assert (set key | key in keys[1..]) <= (set key | key in keys) && keys[0] in (set key | key in keys);
      if keys[0] in fields {
        var shown := Shown(fields[keys[0]]);
        assert detail[keys[0] := shown].Keys == detail.Keys + {keys[0]};
        ClearSummaryKeys(detail[keys[0] := shown], fields, keys[1..]);
      } else {
        ClearSummaryKeys(detail, fields, keys[1..]);
      }
    }
  }

  lemma ClearSummary(value: Json, keys: seq<string>, env: Env)
    requires Clear(set key | key in keys)
    ensures Clear(Summary(value, keys, env).Keys)
  {
    match value
    case Obj(fields) =>
      var names := SortedKeys(fields.Keys);
      var shown := if |names| <= 12 then names else names[..12];
      ClearSummaryKeys(map["keys" := Arr(seq(|shown|, i requires 0 <= i < |shown| => Str(shown[i])))], fields, keys);
    case _ =>
  }

  lemma ClearCall(step: Step, hook: Hook, env: Env, kwargs: map<string, Json>)
    requires ClearHook(hook) && ClearEnv(env)
    ensures Clear(StepHook(step, hook, env, kwargs).detail.Keys)
  {
    assert Clear(hook.run(kwargs, 1).detail.Keys);
    assert Tried(step, hook, env, kwargs, 0) == Untried();
    ClearAttempt(step, hook, env, kwargs, 1, Untried());
    ClearAttempt(step, hook, env, kwargs, 2, Tried(step, hook, env, kwargs, 1));
  }

  lemma ClearAttempt(step: Step, hook: Hook, env: Env, kwargs: map<string, Json>, n: nat, prior: Effect)
    requires ClearHook(hook) && ClearEnv(env) && Clear(prior.detail.Keys)
    ensures Clear(Attempt(step, hook, env, kwargs, n, prior).detail.Keys)
  {
    var r := hook.run(kwargs, n);
    assert Clear(r.detail.Keys);
    if r.ending.Product? {
      assert Clear(env.validate(step.outputSchema, r.ending.value).detail.Keys);
    } else {
      assert (prior.detail + r.detail).Keys == prior.detail.Keys + r.detail.Keys;
    }
  }

  lemma ClearPerform(t: Template, i: nat, env: Env, pool: Pool)
    requires i < |t.steps| && ClearEnv(env) && ClearSteps(t)
    ensures var p := Perform(t.steps[i], env, pool); p.Ran? ==> Clear(p.effect.detail.Keys)
  {
    var step := t.steps[i];
    if step.executor in ENGINE_IMPLEMENTED && step.executor != Gate {
      assert Clear(env.engine(step, pool).detail.Keys);
      if step.executor == Validate && step.input in pool {
        assert Clear(env.validate(step.schema, pool[step.input]).detail.Keys);
      }
    } else {
      var found := ResolveHook(step, env);
      if found.Ok? {
        var bound := BindKwargs(found.value.0, pool, step.kwargs);
        if bound.Ok? { ClearCall(step, found.value.0, env, bound.value); }
      }
    }
  }

  lemma ClearSpread(step: Step, effect: Effect, env: Env)
    requires !effect.ending.Raises? && Clear(effect.detail.Keys) && Clear(set key | key in step.summaryKeys)
    ensures Clear(SpreadDetail(step, effect, env).Keys)
  {
    match effect.ending
    case Blocks(_) =>
    case Product(value) =>
      ClearSummary(value, step.summaryKeys, env);
      var detail := Summary(value, step.summaryKeys, env) + effect.detail;
      assert detail.Keys == Summary(value, step.summaryKeys, env).Keys + effect.detail.Keys;
  }

  lemma ClearStep(t: Template, i: nat, env: Env, pool: Pool)
    requires i < |t.steps| && ClearEnv(env) && ClearSteps(t)
    ensures RowsAgree(t.steps[i], env, pool)
  {
    var step, p := t.steps[i], Perform(t.steps[i], env, pool);
    ClearPerform(t, i, env, pool);
    if p.Ran? && !p.effect.ending.Raises? {
      ClearSpread(step, p.effect, env);
      ClearNamesAgree(step, env, pool);
    }
  }

  lemma {:induction false} ClearFrom(t: Template, env: Env, k: nat, pool: Pool)
    requires k <= |t.steps| && ClearEnv(env) && ClearSteps(t)
    ensures AgreeFrom(t, env, k, pool)
    decreases |t.steps| - k
  {
    if k < |t.steps| {
      ClearStep(t, k, env, pool);
      var w := StepWork(t.steps[k], env, pool, SEQUENTIAL_NAMES);
      if w.end.Produced? { ClearFrom(t, env, k + 1, pool[t.steps[k].produces := w.end.value]); }
    }
  }

  /** For whole runs: where no summary key and no detail key has a name that one
      recorder reserves and the other does not, the engines agree on every run. */
  lemma ClearEnginesAgree(t: Template, env: Env, params: Pool, prior: seq<string>)
    requires NoGates(t) && ClearEnv(env) && ClearSteps(t)
    ensures Agree(SequentialRun(t, env, params, prior), FirstLeg(t, env, ChainOf(t.steps, []), params), prior)
  {
    ClearFrom(t, env, 0, params);
    EnginesAgreeIff(t, env, params, prior);
  }
}
