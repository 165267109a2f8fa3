/** The graph runner: nodes, reducers, checkpoints, pauses and resumed legs.
    LangGraph itself is taken at its documented word: nodes run along the edges,
    each update is merged by the reducers and checkpointed, `interrupt` stops the
    node the first time and returns the verdict when the node is run again. */
module GraphRun {
  import opened JsonValues
  import opened Strings
  import opened Templates
  import opened Execution
  import opened Judging
  import opened GraphBuild
  import opened Sequential

  /** The parameters of `_Recorder.__call__(self, step, status, **detail)`. */
  const GRAPH_NAMES: set<string> := {"self", "step", "status"}

  // ------------------------------------------------------------------------- state

  datatype GraphState = GraphState(pool: Pool, notes: seq<string>, steps: seq<StepRecord>)

  /** The reducers: products are merged, notes and steps concatenated. */
  function Merge(s: GraphState, value: Json, notes: seq<string>, record: StepRecord): GraphState
  {
    GraphState(s.pool[record.produced := value], s.notes + notes, s.steps + [record])
  }

  // ------------------------------------------------------------------------- gates

  /** `gate_is_required`: it fails closed on a path nothing produced. */
  predicate GateRequired(step: Step, pool: Pool)
  {
    step.when == "" || match Dotted(pool, step.when) case None => true case Some(value) => Truthy(value)
  }

  function GatePayload(step: Step, pool: Pool): Json
  {
    Obj(map["step" := Str(step.name), "doc" := Str(step.doc),
            "payload" := Obj(map key | key in step.kwargs && key in pool :: pool[key])])
  }

  /** What a gate that was not required leaves in the pool. */
  function NotRequired(step: Step): Json
  {
    Obj(map["verdict" := Str("not_required"), "reason" := Str(step.when + " is not set for this run")])
  }

  function GateRecord(step: Step, source: string): StepRecord
  {
    StepRecord(step.name, ExecutorName(step.executor), source, step.produces)
  }

  // ------------------------------------------------------------------------- nodes

  function VerdictKey(j: Judge): string
  {
    "verdict_" + j.id
  }

  /** The rows after the first one, and how the judge's node ends. */
  function JudgeEnd(j: Judge, effect: Effect): Work
  {
    match effect.ending
    case Raises(error, _, message) =>
      Work([Row(j.NodeName(), FailedRow, map["error" := Str(error), "detail" := Str(Truncate(message, 300))]),
            StopRow(FailedRow, j.NodeName())], Broken)
    case Blocks(reason) =>
      Work([Row(j.NodeName(), BlockedRow, map["reason" := Str(Truncate(reason, 300))] + effect.detail),
            StopRow(BlockedRow, j.NodeName())], Refused)
    case Product(value) =>
      Work([Row(j.NodeName(), StepOk, (if value.Obj? then value.fields else map[]) + effect.detail)],
           Produced(value, effect.notes, StepRecord(j.NodeName(), "judge", j.Ref(), VerdictKey(j))))
  }

  function JudgeWork(j: Judge, env: Env, pool: Pool): Work
  {
    var rest := JudgeEnd(j, JudgeEffect(j, env, pool));
    Work([StartedRow(j.NodeName(), "judge", j.Ref())] + rest.rows, rest.end)
  }

  datatype NodeEnd = Does(work: Work) | Waits(payload: Json)

  /** One node on a pool; `answer` is the verdict `interrupt` would return. */
  function NodeEffect(node: Node, env: Env, pool: Pool, answer: Option<Json>): NodeEnd
  {
    match node
    case JudgeNode(j) => Does(JudgeWork(j, env, pool))
    case StepNode(step) =>
      if step.executor != Gate then Does(StepWork(step, env, pool, GRAPH_NAMES))
      else if !GateRequired(step, pool) then
        Does(Work([], Produced(NotRequired(step), [], GateRecord(step, "engine"))))
      else match answer
        case None => Waits(GatePayload(step, pool))
        case Some(verdict) => Does(Work([], Produced(verdict, [], GateRecord(step, "human"))))
  }

  // -------------------------------------------------------------------------- legs

  function PausedName(name: string): string
  {
    if name == "" then "gate" else name
  }

  /** A summary of what the person deciding is shown, not the payload. */
  function PauseDetail(payload: Json): map<string, Json>
  {
    var fields := if payload.Obj? then payload.fields else map[];
    var shown := if "payload" in fields && fields["payload"].Obj? then SortedKeys(fields["payload"].fields.Keys) else [];
    map["doc" := if "doc" in fields then fields["doc"] else Str(""),
        "keys" := Arr(seq(|shown|, i requires 0 <= i < |shown| => Str(shown[i])))]
  }

  /** The rows `_finish` adds for a pause. */
  function PauseRows(name: string, payload: Json): seq<Row>
  {
    [Row(PausedName(name), AwaitingHuman, PauseDetail(payload)), StopRow(AwaitingHuman, PausedName(name))]
  }

  /** From node `k` on. `answers` gives the verdicts interrupts return, by node. */
  function GraphFrom(chain: seq<Node>, env: Env, answers: map<nat, Json>, k: nat, s: GraphState, rows: seq<Row>)
    : (r: Report)
    requires k <= |chain|
    ensures r.stop.Paused? ==> k <= r.stop.at < |chain| && r.stop.at !in answers
    decreases |chain| - k
  {
    if k == |chain| then Report(Finished, s.pool, s.steps, s.notes, rows + [RunOk(|s.steps|)])
    else
      var name := chain[k].Name();
      match NodeEffect(chain[k], env, s.pool, AnswerAt(answers, k))
      case Waits(payload) => Report(Paused(k, payload), s.pool, s.steps, s.notes, rows + PauseRows(name, payload))
      case Does(w) =>
        match w.end
        case Produced(value, notes, record) =>
          GraphFrom(chain, env, answers, k + 1, Merge(s, value, notes, record), rows + w.rows)
        case Refused => Report(BlockedAt(name), s.pool, s.steps, s.notes, rows + w.rows)
        case Broken => Report(FailedAt(name), s.pool, s.steps, s.notes, rows + w.rows)
        case Crashed(fault) => Report(CrashedAt(name, fault), s.pool, s.steps, s.notes, rows + w.rows)
  }

  function Initial(params: Pool): GraphState
  {
    GraphState(params, [], [])
  }

  /** `run_template_graph`, once the graph is built. */
  function FirstLeg(t: Template, env: Env, chain: seq<Node>, params: Pool): Report
  {
    if env.absent != [] then Report(NotStarted, params, [], [], Opening(t, env))
    else GraphFrom(chain, env, map[], 0, Initial(params), Opening(t, env))
  }

  function ResumedRow(verdict: Json): Row
  {
    Row("run", Resumed, map["verdict" := if verdict.Obj? && "verdict" in verdict.fields then verdict.fields["verdict"]
                                         else Str("approve")])
  }

  /** `resume_template_graph`: from the checkpoint, with one verdict. */
  function ResumedLeg(env: Env, chain: seq<Node>, at: nat, s: GraphState, verdict: Json): Report
    requires at <= |chain|
  {
    GraphFrom(chain, env, map[at := verdict], at, s, [ResumedRow(verdict)])
  }

  // ---------------------------------------------------------------------- the code

  /** What a checkpointer holds for a run: the next node, and the state before it. */
  class Checkpointer {
    var at: nat
    var state: GraphState

    constructor (params: Pool)
      ensures at == 0 && state == Initial(params)
    {
      at, state := 0, Initial(params);
    }

    method Save(at: nat, state: GraphState)
      modifies this
      ensures this.at == at && this.state == state
    {
      this.at, this.state := at, state;
    }
  }

  /** A judge's node, logged as it goes. */
  method RunJudgeNode(j: Judge, env: Env, ctx: Ctx, pool: Pool, record: Recorder) returns (end: WorkEnd)
    requires record.Valid() && record.reserved == GRAPH_NAMES
    modifies ctx, record
    ensures record.Valid()
    ensures end == JudgeWork(j, env, pool).end && record.Rows() == old(record.Rows()) + JudgeWork(j, env, pool).rows
  {
    record.Append(StartedRow(j.NodeName(), "judge", j.Ref()));
    var before := |ctx.notes|;
    ctx.Clear();
    var effect, _ := RunJudge(j, env, pool);
    ctx.Absorb(effect);
    assert ctx.notes[before..] == effect.notes && ctx.detail == effect.detail;
    JudgeKeysFree(j, env, pool);
    end := ConcludeJudge(j, ctx, record, effect.ending, before);
    AppendRest(old(record.Rows()), StartedRow(j.NodeName(), "judge", j.Ref()), JudgeEnd(j, effect).rows);
  }

  /** The `except` clauses of a judge's node, and the row after them. */
  method ConcludeJudge(j: Judge, ctx: Ctx, record: Recorder, ending: Ending, before: nat) returns (end: WorkEnd)
    requires record.Valid() && record.reserved == GRAPH_NAMES && before <= |ctx.notes|
    requires ctx.detail.Keys !! GRAPH_NAMES + {"reason"}
    requires ending.Product? ==> ending.value.Obj? && ending.value.fields.Keys !! GRAPH_NAMES
    modifies record
    ensures record.Valid()
    ensures var w := JudgeEnd(j, Effect(ending, ctx.notes[before..], "", ctx.detail));
            end == w.end && record.Rows() == old(record.Rows()) + w.rows
  {
    match ending
    case Raises(error, _, message) =>
      record.Append(Row(j.NodeName(), FailedRow, map["error" := Str(error), "detail" := Str(Truncate(message, 300))]));
      record.Append(StopRow(FailedRow, j.NodeName()));
      end := Broken;
    case Blocks(reason) =>
      var fixed := map["reason" := Str(Truncate(reason, 300))];
      assert fixed.Keys == {"reason"};
      var ok := record.Spread(j.NodeName(), BlockedRow, fixed, ctx.detail);
      record.Append(StopRow(BlockedRow, j.NodeName()));
      end := Refused;
    case Product(value) =>
      var none: map<string, Json> := map[];
      var detail := value.fields + ctx.detail;
      assert none.Keys == {} && none + detail == detail && detail.Keys == value.fields.Keys + ctx.detail.Keys;
      var ok := record.Spread(j.NodeName(), StepOk, none, detail);
      end := Produced(value, ctx.notes[before..], StepRecord(j.NodeName(), "judge", j.Ref(), VerdictKey(j)));
  }

  /** A judge's row never repeats a name of the recorder. */
  lemma JudgeKeysFree(j: Judge, env: Env, pool: Pool)
    ensures var e := JudgeEffect(j, env, pool);
            && e.detail.Keys !! GRAPH_NAMES + {"reason"}
            && (e.ending.Product? ==> e.ending.value.Obj? && e.ending.value.fields.Keys !! GRAPH_NAMES)
  {
  }

  /** One node: `None` when it interrupts. */
  method RunNode(node: Node, env: Env, ctx: Ctx, pool: Pool, answer: Option<Json>, record: Recorder)
    returns (end: Option<WorkEnd>)
    requires record.Valid() && record.reserved == GRAPH_NAMES
    modifies ctx, record
    ensures record.Valid()
    ensures match NodeEffect(node, env, pool, answer)
            case Waits(_) => end == None && record.Rows() == old(record.Rows())
            case Does(w) => end == Some(w.end) && record.Rows() == old(record.Rows()) + w.rows
  {
    if node.JudgeNode? {
      var e := RunJudgeNode(node.judge, env, ctx, pool, record);
      return Some(e);
    }
    var step := node.step;
    if step.executor != Gate {
      var e := RunStep(step, env, ctx, pool, record);
      return Some(e);
    }
    assert record.Rows() + [] == record.Rows();
    if !GateRequired(step, pool) { return Some(Produced(NotRequired(step), [], GateRecord(step, "engine"))); }
    if answer.None? { return None; }
    end := Some(Produced(answer.value, [], GateRecord(step, "human")));
  }

  function AnswerAt(answers: map<nat, Json>, k: nat): Option<Json>
  {
    if k in answers then Some(answers[k]) else None
  }

  lemma NextNode(chain: seq<Node>, env: Env, answers: map<nat, Json>, k: nat, s: GraphState, rows: seq<Row>)
    requires k < |chain|
    requires var e := NodeEffect(chain[k], env, s.pool, AnswerAt(answers, k)); e.Does? && e.work.end.Produced?
    ensures
      var w := NodeEffect(chain[k], env, s.pool, AnswerAt(answers, k)).work;
      GraphFrom(chain, env, answers, k, s, rows) ==
      GraphFrom(chain, env, answers, k + 1, Merge(s, w.end.value, w.end.notes, w.end.record), rows + w.rows)
  {
  }

  function StopOf(name: string, end: WorkEnd): Stop
    requires !end.Produced?
  {
    match end
    case Refused => BlockedAt(name)
    case Broken => FailedAt(name)
    case Crashed(fault) => CrashedAt(name, fault)
  }

  lemma StopsHere(chain: seq<Node>, env: Env, answers: map<nat, Json>, k: nat, s: GraphState, rows: seq<Row>, w: Work)
    requires k < |chain| && NodeEffect(chain[k], env, s.pool, AnswerAt(answers, k)) == Does(w) && !w.end.Produced?
    ensures GraphFrom(chain, env, answers, k, s, rows) ==
            Report(StopOf(chain[k].Name(), w.end), s.pool, s.steps, s.notes, rows + w.rows)
  {
  }

  lemma WaitsHere(chain: seq<Node>, env: Env, answers: map<nat, Json>, k: nat, s: GraphState, rows: seq<Row>, payload: Json)
    requires k < |chain| && NodeEffect(chain[k], env, s.pool, AnswerAt(answers, k)) == Waits(payload)
    ensures GraphFrom(chain, env, answers, k, s, rows) ==
            Report(Paused(k, payload), s.pool, s.steps, s.notes, rows + PauseRows(chain[k].Name(), payload))
  {
  }

  method LogPause(record: Recorder, name: string, payload: Json)
    requires record.Valid()
    modifies record
    ensures record.Valid() && record.Rows() == old(record.Rows()) + PauseRows(name, payload)
  {
    record.Append(Row(PausedName(name), AwaitingHuman, PauseDetail(payload)));
    record.Append(StopRow(AwaitingHuman, PausedName(name)));
  }

  /** One node, its update merged and checkpointed; a report when the leg stops. */
  method Advance(chain: seq<Node>, env: Env, ghost answers: map<nat, Json>, ctx: Ctx, record: Recorder,
                 saved: Checkpointer, answer: Option<Json>) returns (stop: Option<Report>)
    requires record.Valid() && record.reserved == GRAPH_NAMES
    requires saved.at < |chain| && answer == AnswerAt(answers, saved.at)
    modifies ctx, record, saved
    ensures record.Valid()
    ensures
      var whole := GraphFrom(chain, env, answers, old(saved.at), old(saved.state), old(record.Rows()));
      if stop.None? then
        && saved.at == old(saved.at) + 1
        && whole == GraphFrom(chain, env, answers, saved.at, saved.state, record.Rows())
      else
        && saved.at == old(saved.at) && saved.state == old(saved.state)
        && whole == stop.value && record.Rows() == whole.rows
        && (whole.stop.Paused? ==> whole.stop.at == saved.at && saved.state == GraphState(whole.pool, whole.notes, whole.steps))
  {
    ghost var before := record.Rows();
    var k, s, node, name := saved.at, saved.state, chain[saved.at], chain[saved.at].Name();
    var end := RunNode(node, env, ctx, s.pool, answer, record);
    if end.None? {
      var payload := GatePayload(node.step, s.pool);
      LogPause(record, name, payload);
      WaitsHere(chain, env, answers, k, s, before, payload);
      return Some(Report(Paused(k, payload), s.pool, s.steps, s.notes, record.Rows()));
    }
    if end.value.Produced? {
      NextNode(chain, env, answers, k, s, before);
      saved.Save(k + 1, Merge(s, end.value.value, end.value.notes, end.value.record));
      stop := None;
    } else {
      StopsHere(chain, env, answers, k, s, before, NodeEffect(node, env, s.pool, answer).work);
      stop := Some(Report(StopOf(name, end.value), s.pool, s.steps, s.notes, record.Rows()));
    }
  }

  /** `ainvoke` from the checkpoint, then `_finish`. The verdict, if there is one,
      is for the node the run stopped at. */
  method Invoke(chain: seq<Node>, env: Env, ctx: Ctx, record: Recorder, saved: Checkpointer, verdict: Option<Json>)
    returns (r: Report)
    requires record.Valid() && record.reserved == GRAPH_NAMES && saved.at <= |chain|
    modifies ctx, record, saved
    ensures record.Valid()
    ensures
      var answers := if verdict.Some? then map[old(saved.at) := verdict.value] else map[];
      r == GraphFrom(chain, env, answers, old(saved.at), old(saved.state), old(record.Rows()))
    ensures record.Rows() == r.rows
    ensures r.stop.Paused? ==> saved.at == r.stop.at && saved.state == GraphState(r.pool, r.notes, r.steps)
    ensures saved.at <= |chain|
  {
    var from := saved.at;
    ghost var answers: map<nat, Json> := if verdict.Some? then map[from := verdict.value] else map[];
    ghost var whole := GraphFrom(chain, env, answers, from, saved.state, record.Rows());
    while saved.at < |chain|
      invariant from <= saved.at <= |chain| && record.Valid()
      invariant whole == GraphFrom(chain, env, answers, saved.at, saved.state, record.Rows())
      decreases |chain| - saved.at
    {
      var stop := Advance(chain, env, answers, ctx, record, saved, if saved.at == from then verdict else None);
      if stop.Some? { return stop.value; }
    }
    var s := saved.state;
    record.Append(RunOk(|s.steps|));
    r := Report(Finished, s.pool, s.steps, s.notes, record.Rows());
  }

  /** `run_template_graph`: placements are checked after preflight. */
  method RunTemplateGraph(t: Template, judges: seq<Judge>, env: Env, ctx: Ctx, params: Pool, record: Recorder,
                          saved: Checkpointer) returns (r: Result<Report, PlacementError>)
    requires record.Valid() && record.Rows() == [] && record.reserved == GRAPH_NAMES
    requires saved.at == 0 && saved.state == Initial(params)
    modifies ctx, record, saved
    ensures record.Valid()
    ensures r.Err? <==> env.absent == [] && !PlacementsOk(t, judges)
    ensures r.Err? ==> record.Rows() == Opening(t, env)
    ensures r.Ok? ==> r.value == FirstLeg(t, env, ChainOf(t.steps, judges), params)
    ensures r.Ok? ==> record.Rows() == r.value.rows
    ensures r.Ok? && r.value.stop.Paused? ==>
              saved.at == r.value.stop.at && saved.state == GraphState(r.value.pool, r.value.notes, r.value.steps)
  {
    var ready := Begin(t, env, record);
    assert record.Rows() == Opening(t, env);
    if !ready { return Ok(Report(NotStarted, params, [], [], record.Rows())); }
    var graph := BuildGraph(t, judges);
    if graph.Err? { return Err(graph.error); }
    var report := Invoke(graph.value.nodes, env, ctx, record, saved, None);
    r := Ok(report);
  }

  /** `resume_template_graph` on a run that is paused. */
  method ResumeTemplateGraph(t: Template, judges: seq<Judge>, env: Env, ctx: Ctx, verdict: Json, record: Recorder,
                             saved: Checkpointer) returns (r: Result<Report, PlacementError>)
    requires record.Valid() && record.Rows() == [] && record.reserved == GRAPH_NAMES
    requires saved.at < |ChainOf(t.steps, judges)|
    modifies ctx, record, saved
    ensures record.Valid()
    ensures r.Err? <==> !PlacementsOk(t, judges)
    ensures r.Err? ==> record.Rows() == [ResumedRow(verdict)]
    ensures r.Ok? ==>
              r.value == ResumedLeg(env, ChainOf(t.steps, judges), old(saved.at), old(saved.state), verdict)
    ensures r.Ok? ==> record.Rows() == r.value.rows
    ensures r.Ok? && r.value.stop.Paused? ==>
              saved.at == r.value.stop.at && saved.state == GraphState(r.value.pool, r.value.notes, r.value.steps)
  {
    record.Append(ResumedRow(verdict));
    assert record.Rows() == [ResumedRow(verdict)];
    var graph := BuildGraph(t, judges);
    if graph.Err? { return Err(graph.error); }
    var report := Invoke(graph.value.nodes, env, ctx, record, saved, Some(verdict));
    r := Ok(report);
  }
}
