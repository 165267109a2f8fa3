/** Controls hold over whole runs, resumed legs included: nothing runs behind a
    validation, a blocking judge or a gate that did not let it through. */
module Controls {
  import opened JsonValues
  import opened Templates
  import opened Execution
  import opened Judging
  import opened GraphBuild
  import opened Sequential
  import opened GraphRun
  import opened Pausing

  /** `k` steps from `start`, if each of them gets anywhere. */
  function Steps<S>(step: (nat, S) -> Option<S>, start: S, k: nat): Option<S>
  {
    if k == 0 then Some(start)
    else
      match Steps(step, start, k - 1)
      case None => None
      case Some(s) => step(k - 1, s)
  }

  lemma {:induction false} StepsBefore<S>(step: (nat, S) -> Option<S>, start: S, i: nat, k: nat)
    requires i < k && Steps(step, start, k).Some?
    ensures Steps(step, start, i).Some? && step(i, Steps(step, start, i).value).Some?
    decreases k
  {
    if i < k - 1 { StepsBefore(step, start, i, k - 1); }
  }

  /** The state a node leaves, if it produces something. */
  function StateAfter(node: Node, env: Env, answer: Option<Json>, s: GraphState): Option<GraphState>
  {
    match NodeEffect(node, env, s.pool, answer)
    case Waits(_) => None
    case Does(w) =>
      match w.end
      case Produced(value, notes, record) => Some(Merge(s, value, notes, record))
      case _ => None
  }

  function StepOf(chain: seq<Node>, env: Env, answers: map<nat, Json>): (nat, GraphState) -> Option<GraphState>
  {
    (k: nat, s: GraphState) => if k < |chain| then StateAfter(chain[k], env, AnswerAt(answers, k), s) else None
  }

  /** The state before node `k` of a pass, if the pass gets there. */
  function StateBefore(chain: seq<Node>, env: Env, answers: map<nat, Json>, params: Pool, k: nat): Option<GraphState>
  {
    Steps(StepOf(chain, env, answers), Initial(params), k)
  }

  lemma NextState(chain: seq<Node>, env: Env, answers: map<nat, Json>, params: Pool, k: nat, s: GraphState)
    requires k < |chain| && StateBefore(chain, env, answers, params, k) == Some(s)
    ensures StateBefore(chain, env, answers, params, k + 1) == StateAfter(chain[k], env, AnswerAt(answers, k), s)
  {
  }

  /** What each kind of control demands of the run before anything behind it. */
  ghost predicate Passed(node: Node, env: Env, pool: Pool, answer: Option<Json>)
  {
    match node
    case JudgeNode(j) =>
      j.blocks ==>
        var evidence := Evidence(pool, j.inputs);
        && evidence.Some?
        && (|| Approves(j, env, evidence.value, 1)
            || (Unread(j, env, evidence.value, 1) && Approves(j, env, evidence.value, 2)))
    case StepNode(step) =>
      && (step.executor == Validate ==> step.input in pool && env.validate(step.schema, pool[step.input]).valid)
      && (step.executor == Gate ==>
            || answer.Some?
            || (step.when != "" && Dotted(pool, step.when).Some? && !Truthy(Dotted(pool, step.when).value)))
  }

  /** A node that produces something has passed its control. */
  lemma ProducedMeansPassed(node: Node, env: Env, answer: Option<Json>, s: GraphState)
    requires StateAfter(node, env, answer, s).Some?
    ensures Passed(node, env, s.pool, answer)
  {
    match node
    case JudgeNode(j) => JudgePassesIff(j, env, s.pool);
    case StepNode(step) =>
  }

  /** The pass gets to node `i`, and the control there passed. */
  ghost predicate PassedAt(chain: seq<Node>, env: Env, answers: map<nat, Json>, params: Pool, i: nat)
    requires i < |chain|
  {
    var s := StateBefore(chain, env, answers, params, i);
    s.Some? && Passed(chain[i], env, s.value.pool, AnswerAt(answers, i))
  }

  /** Whatever a pass gets to, every node before it has passed. */
  lemma ReachedMeansPassed(chain: seq<Node>, env: Env, answers: map<nat, Json>, params: Pool, i: nat, k: nat)
    requires i < k <= |chain| && StateBefore(chain, env, answers, params, k).Some?
    ensures PassedAt(chain, env, answers, params, i)
  {
    StepsBefore(StepOf(chain, env, answers), Initial(params), i, k);
    ProducedMeansPassed(chain[i], env, AnswerAt(answers, i), StateBefore(chain, env, answers, params, i).value);
  }

  /** A node works only when the pass gets to it. */
  lemma {:induction false} WorkedMeansReached(chain: seq<Node>, env: Env, answers: map<nat, Json>, params: Pool,
                                              k: nat, s: GraphState, i: nat)
    requires k <= |chain| && StateBefore(chain, env, answers, params, k) == Some(s)
    requires i in WorkedFrom(chain, env, answers, k, s)
    ensures i < |chain| && StateBefore(chain, env, answers, params, i).Some?
    decreases |chain| - k
  {
    if i == k {
      WorkedHere(chain, env, answers, k, s);
    } else {
      var next := WorkedGoesOn(chain, env, answers, k, s, i);
      NextState(chain, env, answers, params, k, s);
      WorkedMeansReached(chain, env, answers, params, k + 1, next, i);
    }
  }

  lemma WorkedHere(chain: seq<Node>, env: Env, answers: map<nat, Json>, k: nat, s: GraphState)
    requires k <= |chain| && k in WorkedFrom(chain, env, answers, k, s)
    ensures k < |chain|
  {
  }

  lemma WorkedGoesOn(chain: seq<Node>, env: Env, answers: map<nat, Json>, k: nat, s: GraphState, i: nat)
    returns (next: GraphState)
    requires k <= |chain| && i in WorkedFrom(chain, env, answers, k, s) && i != k
    ensures k < |chain| && StateAfter(chain[k], env, AnswerAt(answers, k), s) == Some(next)
    ensures i in WorkedFrom(chain, env, answers, k + 1, next)
  {
    var end := NodeEffect(chain[k], env, s.pool, AnswerAt(answers, k)).work.end;
    next := Merge(s, end.value, end.notes, end.record);
  }

  lemma FinishedGoesOn(chain: seq<Node>, env: Env, answers: map<nat, Json>, k: nat, s: GraphState, rows: seq<Row>)
    returns (next: GraphState, added: seq<Row>)
    requires k < |chain| && GraphFrom(chain, env, answers, k, s, rows).stop == Finished
    ensures StateAfter(chain[k], env, AnswerAt(answers, k), s) == Some(next)
    ensures GraphFrom(chain, env, answers, k + 1, next, rows + added).stop == Finished
  {
    var e := NodeEffect(chain[k], env, s.pool, AnswerAt(answers, k));
    next, added := Merge(s, e.work.end.value, e.work.end.notes, e.work.end.record), e.work.rows;
  }

  lemma {:induction false} FinishedMeansReached(chain: seq<Node>, env: Env, answers: map<nat, Json>, params: Pool,
                                                k: nat, s: GraphState, rows: seq<Row>)
    requires k <= |chain| && StateBefore(chain, env, answers, params, k) == Some(s)
    requires GraphFrom(chain, env, answers, k, s, rows).stop == Finished
    ensures StateBefore(chain, env, answers, params, |chain|).Some?
    decreases |chain| - k
  {
    if k < |chain| {
      var next, added := FinishedGoesOn(chain, env, answers, k, s, rows);
      NextState(chain, env, answers, params, k, s);
      FinishedMeansReached(chain, env, answers, params, k + 1, next, rows + added);
    }
  }

  /** The theorem: in a run of any number of legs, if a node was worked, every
      validation and every blocking judge before it on the chain passed, and
      every gate before it had a verdict or a condition that resolved to a falsy
      value. */
  lemma ControlsHold(t: Template, env: Env, chain: seq<Node>, params: Pool, verdicts: seq<Json>, i: nat, k: nat)
    requires k in SessionWorked(t, env, chain, params, verdicts) && i < k
    ensures
      var answers := Answered(t, env, chain, params, verdicts);
      k < |chain| && PassedAt(chain, env, answers, params, i)
  {
    var answers := Answered(t, env, chain, params, verdicts);
    if env.absent != [] { NothingWorked(t, env, chain, params, verdicts); }
    PausingInvisible(t, env, chain, params, verdicts);
    WorkedMeansReached(chain, env, answers, params, 0, Initial(params), k);
    ReachedMeansPassed(chain, env, answers, params, i, k);
  }

  /** ... and a run that finished has passed every one of them. */
  lemma FinishedPassedAll(t: Template, env: Env, chain: seq<Node>, params: Pool, verdicts: seq<Json>, i: nat)
    requires Session(t, env, chain, params, verdicts).stop == Finished && i < |chain|
    ensures PassedAt(chain, env, Answered(t, env, chain, params, verdicts), params, i)
  {
    var answers := Answered(t, env, chain, params, verdicts);
    if env.absent != [] { NothingWorked(t, env, chain, params, verdicts); }
    PausingInvisible(t, env, chain, params, verdicts);
    FinishedMeansReached(chain, env, answers, params, 0, Initial(params), Opening(t, env));
    ReachedMeansPassed(chain, env, answers, params, i, |chain|);
  }

  /** This report is not of a pause, or of one at a gate that asks. */
  ghost predicate AtGate(chain: seq<Node>, r: Report)
  {
    r.stop.Paused? ==>
      r.stop.at < |chain| && IsGate(chain[r.stop.at]) && GateRequired(chain[r.stop.at].step, r.pool)
  }

  /** A pass that paused stands before a gate that asks. */
  lemma {:induction false} PausedAtGate(chain: seq<Node>, env: Env, answers: map<nat, Json>, k: nat, s: GraphState,
                                        rows: seq<Row>)
    requires k <= |chain|
    ensures AtGate(chain, GraphFrom(chain, env, answers, k, s, rows))
    decreases |chain| - k, 1
  {
    if k == |chain| {
    } else if GoesOn(chain, env, answers, k, s) {
      PausedBehind(chain, env, answers, k, s, rows);
    } else {
      StopsAtGate(chain, env, answers, k, s, rows);
    }
  }

  lemma {:induction false} PausedBehind(chain: seq<Node>, env: Env, answers: map<nat, Json>, k: nat, s: GraphState,
                                        rows: seq<Row>)
    requires k < |chain| && GoesOn(chain, env, answers, k, s)
    ensures AtGate(chain, GraphFrom(chain, env, answers, k, s, rows))
    decreases |chain| - k, 0
  {
    var next, added := GoesAlike(chain, env, answers, answers, k, s, rows, rows);
    PausedAtGate(chain, env, answers, k + 1, next, rows + added);
  }

  lemma StopsAtGate(chain: seq<Node>, env: Env, answers: map<nat, Json>, k: nat, s: GraphState, rows: seq<Row>)
    requires k < |chain| && !GoesOn(chain, env, answers, k, s)
    ensures AtGate(chain, GraphFrom(chain, env, answers, k, s, rows))
  {
    var stop := StopsWith(chain, env, answers, k, s, rows);
    if NodeEffect(chain[k], env, s.pool, AnswerAt(answers, k)).Waits? {
      WaitsAtGate(chain[k], env, s.pool, AnswerAt(answers, k));
    }
  }

  lemma WaitsAtGate(node: Node, env: Env, pool: Pool, answer: Option<Json>)
    requires NodeEffect(node, env, pool, answer).Waits?
    ensures IsGate(node) && GateRequired(node.step, pool)
  {
  }

  lemma {:induction false} SessionPausedAtGate(t: Template, env: Env, chain: seq<Node>, params: Pool,
                                               verdicts: seq<Json>)
    ensures AtGate(chain, Session(t, env, chain, params, verdicts))
    decreases |verdicts|
  {
    if verdicts == [] {
      PausedAtGate(chain, env, map[], 0, Initial(params), Opening(t, env));
    } else {
      var before, last := Session(t, env, chain, params, verdicts[..|verdicts| - 1]), verdicts[|verdicts| - 1];
      SessionPausedAtGate(t, env, chain, params, verdicts[..|verdicts| - 1]);
      if before.stop.Paused? {
        PausedAtGate(chain, env, map[before.stop.at := last], before.stop.at, Saved(before), [ResumedRow(last)]);
      }
    }
  }

  /** What a verdict says is no control: however a gate is answered, `reject`
      included, the node behind it is worked. */
  lemma AnyVerdictGoesOn(t: Template, env: Env, chain: seq<Node>, params: Pool, verdicts: seq<Json>, verdict: Json,
                         at: nat, payload: Json)
    requires Session(t, env, chain, params, verdicts).stop == Paused(at, payload)
    requires at + 1 < |chain| && !IsGate(chain[at + 1])
    ensures at + 1 in SessionWorked(t, env, chain, params, verdicts + [verdict])
  {
    var s := Saved(Session(t, env, chain, params, verdicts));
    SessionPausedAtGate(t, env, chain, params, verdicts);
    LastLegWorked(t, env, chain, params, verdicts, verdict);
    GateAnswered(chain, env, at, s, verdict);
    InEither(SessionWorked(t, env, chain, params, verdicts), WorkedFrom(chain, env, map[at := verdict], at, s), at + 1);
  }

  lemma InEither<T>(a: seq<T>, b: seq<T>, x: T)
    requires x in b
    ensures x in a + b
  {
  }

  lemma LastLegWorked(t: Template, env: Env, chain: seq<Node>, params: Pool, verdicts: seq<Json>, verdict: Json)
    requires Session(t, env, chain, params, verdicts).stop.Paused?
    ensures var before := Session(t, env, chain, params, verdicts);
            SessionWorked(t, env, chain, params, verdicts + [verdict]) ==
            SessionWorked(t, env, chain, params, verdicts) +
            WorkedFrom(chain, env, map[before.stop.at := verdict], before.stop.at, Saved(before))
  {
    assert (verdicts + [verdict])[..|verdicts|] == verdicts;
  }

  lemma GateAnswered(chain: seq<Node>, env: Env, at: nat, s: GraphState, verdict: Json)
    requires at + 1 < |chain| && IsGate(chain[at]) && GateRequired(chain[at].step, s.pool) && !IsGate(chain[at + 1])
    ensures at + 1 in WorkedFrom(chain, env, map[at := verdict], at, s)
  {
    var answers := map[at := verdict];
    assert AnswerAt(answers, at) == Some(verdict);
    var next := Merge(s, verdict, [], GateRecord(chain[at].step, "human"));
    assert WorkedFrom(chain, env, answers, at, s) == [] + WorkedFrom(chain, env, answers, at + 1, next);
    NodeBehind(chain, env, answers, at + 1, next);
  }

  lemma NodeBehind(chain: seq<Node>, env: Env, answers: map<nat, Json>, k: nat, s: GraphState)
    requires k < |chain| && !IsGate(chain[k])
    ensures k in WorkedFrom(chain, env, answers, k, s)
  {
  }

  /** A judge placed before a step guards it: if the step was worked, a blocking
      judge had read a pass, in its first readable answer of two at most, on the
      evidence of the pool at that point. */
  lemma JudgeGuardsStep(t: Template, judges: seq<Judge>, env: Env, params: Pool, verdicts: seq<Json>, k: nat, j: Judge)
    returns (i: nat, at: nat)
    requires k < |t.steps| && j in judges && t.steps[k].name in j.before && j.blocks
    ensures var chain := ChainOf(t.steps, judges);
            i < at < |chain| && chain[i] == JudgeNode(j) && chain[at] == StepNode(t.steps[k])
    ensures
      var chain := ChainOf(t.steps, judges);
      at in SessionWorked(t, env, chain, params, verdicts) ==>
        var s := StateBefore(chain, env, Answered(t, env, chain, params, verdicts), params, i);
        && s.Some? && Evidence(s.value.pool, j.inputs).Some?
        && var evidence := Evidence(s.value.pool, j.inputs).value;
        && (Approves(j, env, evidence, 1) || (Unread(j, env, evidence, 1) && Approves(j, env, evidence, 2)))
  {
    var chain := ChainOf(t.steps, judges);
    var left, between, rest := BeforeAnchor(t, judges, k, j);
    var earlier := ChainOf(t.steps[..k], judges);
    i := |earlier| + |left|;
    at := i + 1 + |between|;
    assert chain[i] == JudgeNode(j) && chain[at] == StepNode(t.steps[k]);
    if at in SessionWorked(t, env, chain, params, verdicts) {
      ControlsHold(t, env, chain, params, verdicts, i, at);
    }
  }
}
