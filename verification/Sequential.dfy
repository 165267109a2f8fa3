/** `run_template`: the steps of a template in declared order, in one pass. */
module Sequential {
  import opened JsonValues
  import opened Templates
  import opened Execution

  /** The parameters of the closure `record(step_name, status, **detail)`. */
  const SEQUENTIAL_NAMES: set<string> := {"step_name", "status"}

  /** How a run, or one leg of it, ends. */
  datatype Stop =
    | Finished
    | Paused(at: nat, payload: Json)
    | BlockedAt(step: string)
    | FailedAt(step: string)
    | CrashedAt(step: string, fault: Fault)
    | NotStarted                       // preflight found a requirement missing

  /** What a run comes to. The pool, steps and notes are those gathered up to the
      stop; a caller is handed them when the run finished or paused. */
  datatype Report = Report(stop: Stop, pool: Pool, steps: seq<StepRecord>, notes: seq<string>, rows: seq<Row>)

  // ------------------------------------------------------------ before the first step

  function RunStarted(t: Template): Row
  {
    Row("run", Started, map["steps" := Int(|t.steps|)])
  }

  /** The opening rows, preflight included. */
  function Opening(t: Template, env: Env): seq<Row>
  {
    [RunStarted(t)] +
    if env.absent != [] then
      [Row("preflight", BlockedRow, map["missing" := Int(|env.absent|)]), StopRow(BlockedRow, "preflight")]
    else if env.required != [] then [Row("preflight", StepOk, map["checked" := Int(|env.required|)])]
    else []
  }

  function RunOk(n: nat): Row
  {
    Row("run", StepOk, map["steps" := Int(n)])
  }

  // ------------------------------------------------------------------ the specification

  /** From step `k` on, with what has been gathered so far. */
  function SequentialFrom(t: Template, env: Env, k: nat, pool: Pool, steps: seq<StepRecord>, notes: seq<string>,
                          rows: seq<Row>): Report
    requires k <= |t.steps|
    decreases |t.steps| - k
  {
    if k == |t.steps| then Report(Finished, pool, steps, notes, rows + [RunOk(|steps|)])
    else
      var step := t.steps[k];
      var w := StepWork(step, env, pool, SEQUENTIAL_NAMES);
      match w.end
      case Produced(value, added, record) =>
        SequentialFrom(t, env, k + 1, pool[step.produces := value], steps + [record], notes + added, rows + w.rows)
      case Refused => Report(BlockedAt(step.name), pool, steps, notes, rows + w.rows)
      case Broken => Report(FailedAt(step.name), pool, steps, notes, rows + w.rows)
      case Crashed(fault) => Report(CrashedAt(step.name, fault), pool, steps, notes, rows + w.rows)
  }

  function SequentialRun(t: Template, env: Env, params: Pool, notes: seq<string>): Report
  {
    if env.absent != [] then Report(NotStarted, params, [], notes, Opening(t, env))
    else SequentialFrom(t, env, 0, params, [], notes, Opening(t, env))
  }

  lemma GoesOnTo(t: Template, env: Env, k: nat, pool: Pool, steps: seq<StepRecord>, notes: seq<string>, rows: seq<Row>)
    requires k < |t.steps| && StepWork(t.steps[k], env, pool, SEQUENTIAL_NAMES).end.Produced?
    ensures
      var w := StepWork(t.steps[k], env, pool, SEQUENTIAL_NAMES);
      SequentialFrom(t, env, k, pool, steps, notes, rows) ==
      SequentialFrom(t, env, k + 1, pool[t.steps[k].produces := w.end.value], steps + [w.end.record],
                     notes + w.end.notes, rows + w.rows)
  {
  }

  // ------------------------------------------------------------------------ the code

  /** Preflight and its rows; false when the run may not start. */
  method Begin(t: Template, env: Env, record: Recorder) returns (ready: bool)
    requires record.Valid()
    modifies record
    ensures record.Valid() && ready == (env.absent == [])
    ensures record.Rows() == old(record.Rows()) + Opening(t, env)
  {
    record.Append(RunStarted(t));
    if env.absent != [] {
      record.Append(Row("preflight", BlockedRow, map["missing" := Int(|env.absent|)]));
      record.Append(StopRow(BlockedRow, "preflight"));
      return false;
    }
    if env.required != [] {
      record.Append(Row("preflight", StepOk, map["checked" := Int(|env.required|)]));
    }
    ready := true;
  }

  /** `run_template(template, hooks, ctx)` */
  method RunTemplate(t: Template, env: Env, ctx: Ctx, params: Pool, record: Recorder) returns (r: Report)
    requires record.Valid() && record.Rows() == [] && record.reserved == SEQUENTIAL_NAMES
    modifies ctx, record
    ensures record.Valid() && record.Rows() == r.rows
    ensures r == SequentialRun(t, env, params, old(ctx.notes))
  {
    ghost var notes0 := ctx.notes;
    var ready := Begin(t, env, record);
    assert record.Rows() == Opening(t, env);
    if !ready { return Report(NotStarted, params, [], ctx.notes, record.Rows()); }
    var pool := params;
    var steps: seq<StepRecord> := [];
    ghost var rows := Opening(t, env);
    for k := 0 to |t.steps|
      invariant record.Valid() && record.Rows() == rows
      invariant SequentialFrom(t, env, 0, params, [], notes0, Opening(t, env)) ==
                SequentialFrom(t, env, k, pool, steps, ctx.notes, rows)
    {
      var step := t.steps[k];
      var notes := ctx.notes;
      var end := RunStep(step, env, ctx, pool, record);
      ghost var before := rows;
      rows := rows + StepWork(step, env, pool, SEQUENTIAL_NAMES).rows;
      match end {
        case Produced(value, _, rec) =>
          GoesOnTo(t, env, k, pool, steps, notes, before);
          pool := pool[step.produces := value];
          steps := steps + [rec];
        case Refused => return Report(BlockedAt(step.name), pool, steps, notes, record.Rows());
        case Broken => return Report(FailedAt(step.name), pool, steps, notes, record.Rows());
        case Crashed(fault) => return Report(CrashedAt(step.name, fault), pool, steps, notes, record.Rows());
      }
    }
    record.Append(RunOk(|steps|));
    r := Report(Finished, pool, steps, ctx.notes, record.Rows());
  }
}
