/** One step: its hook, the arguments bound for it, the call, and the rows that
    report it. Both engines run steps through this. */
module Execution {
  import opened JsonValues
  import opened Strings
  import opened Templates

  // ------------------------------------------------------------------ event rows

  datatype Status = Started | StepOk | Skipped | BlockedRow | FailedRow | AwaitingHuman | Resumed

  /** One row of the event log; its sequence number is its place in the log. */
  datatype Row = Row(step: string, status: Status, detail: map<string, Json>)

  /** One executed step, as the run reports it. */
  datatype StepRecord = StepRecord(step: string, executor: string, source: string, produced: string)

  function Truncate(s: string, n: nat): string
  {
    if |s| <= n then s else s[..n]
  }

  // ------------------------------------------------------------- finding the hook

  datatype Fault = NotImplemented | CannotBind | RowRejected

  /** `resolve_hook`: the workflow file first, then `uses`, then the default. */
  function ResolveHook(step: Step, env: Env): Result<(Hook, string), Fault>
  {
    if step.name in env.hooks then Ok((env.hooks[step.name], "file"))
    else if step.uses != "" then
      if step.uses in env.registry then Ok((env.registry[step.uses], "uses")) else Err(NotImplemented)
    else match step.default
      case None => Err(NotImplemented)
      case Some(hook) => Ok((hook, "default"))
  }

  /** A declared parameter without a default that the pool does not have. */
  predicate Missing(hook: Hook, pool: Pool)
  {
    !hook.varKeyword && exists p :: p in hook.params && p.name !in pool && !p.hasDefault
  }

  /** What a hook can be handed: with `**kw` what the step lists, otherwise
      whatever it declares. */
  predicate Takes(hook: Hook, allowed: seq<string>, name: string)
  {
    if hook.varKeyword then name in allowed else exists p :: p in hook.params && p.name == name
  }

  function BindKwargs(hook: Hook, pool: Pool, allowed: seq<string>): Result<map<string, Json>, Fault>
  {
    if Missing(hook, pool) then Err(CannotBind)
    else Ok(map name | name in pool && Takes(hook, allowed, name) :: pool[name])
  }

  /** A step's `kwargs` confine what its hook is handed, whatever is in the pool,
      if and only if the hook takes `**kw` or declares listed names only. */
  lemma ConfinedIff(hook: Hook, allowed: seq<string>)
    ensures
      (forall pool :: BindKwargs(hook, pool, allowed).Ok? ==>
         forall name :: name in BindKwargs(hook, pool, allowed).value ==> name in allowed) <==>
      hook.varKeyword || forall p :: p in hook.params ==> p.name in allowed
  {
    if !hook.varKeyword && exists p :: p in hook.params && p.name !in allowed {
      var p :| p in hook.params && p.name !in allowed;
      var names := set q | q in hook.params :: q.name;
      var pool: Pool := map name | name in names :: Null;
      assert p.name in pool;
      assert p.name in BindKwargs(hook, pool, allowed).value;
    }
  }

  /** So a step that lists nothing can still be handed a product. */
  lemma BoundBeyondKwargs(hook: Hook, product: Json)
    requires hook.params == [Param("dossier", false)] && !hook.varKeyword
    ensures BindKwargs(hook, map["dossier" := product], []) == Ok(map["dossier" := product])
  {
    var pool: Pool := map["dossier" := product];
    assert hook.params[0] in hook.params;
    assert Takes(hook, [], "dossier") && !Missing(hook, pool);
    assert (map name | name in pool && Takes(hook, [], name) :: pool[name]) == pool;
  }

  // ---------------------------------------------------------------- engine steps

  function Raised(message: string): Effect
  {
    Effect(Raises("RuntimeError", false, message), [], "", map[])
  }

  /** `run_engine_step` for shell, service and validate. */
  function EngineStep(step: Step, env: Env, pool: Pool): Effect
  {
    if step.executor != Validate then env.engine(step, pool)
    else if !env.hasProject then Raised("needs a workflow project")
    else if step.input !in pool then Raised("cannot find pool input")
    else if !env.schema(step.schema) then Effect(Raises("SchemaContractError", true, "no lock"), [], "", map[])
    else
      var v := env.validate(step.schema, pool[step.input]);
      Effect(if v.valid then Product(v.report) else Blocks(v.problem), [], "", v.detail)
  }

  // ----------------------------------------------------------------- hook calls

  function Later(skipped: string, earlier: string): string
  {
    if skipped != "" then skipped else earlier
  }

  /** Where the attempts start from: nothing usable, nothing left behind. */
  function Untried(): Effect
  {
    Effect(Raises("", true, ""), [], "", map[])
  }

  /** The effect after `n` attempts, none of them usable. */
  function Tried(step: Step, hook: Hook, env: Env, kwargs: map<string, Json>, n: nat): Effect
  {
    if n == 0 then Untried() else Attempt(step, hook, env, kwargs, n, Tried(step, hook, env, kwargs, n - 1))
  }

  /** One attempt at structured output, after what earlier attempts left. */
  function Attempt(step: Step, hook: Hook, env: Env, kwargs: map<string, Json>, n: nat, prior: Effect): Effect
  {
    var r := hook.run(kwargs, n);
    var notes, skipped := prior.notes + r.notes, Later(r.skipped, prior.skipped);
    match r.ending
    case Product(value) =>
      var v := env.validate(step.outputSchema, value);
      Effect(if v.valid then r.ending else Raises("ValidationError", true, v.problem), notes, skipped, v.detail)
    case _ => Effect(r.ending, notes, skipped, prior.detail + r.detail)
  }

  predicate Unusable(e: Effect)
  {
    e.ending.Raises? && e.ending.shapeError
  }

  /** `call_step_hook`: an agent with an output contract gets two attempts. */
  function StepHook(step: Step, hook: Hook, env: Env, kwargs: map<string, Json>): Effect
  {
    if step.executor != Agent || step.outputSchema == "" then hook.run(kwargs, 1)
    else if !env.hasProject then Raised("needs a workflow project")
    else if !env.schema(step.outputSchema) then Effect(Raises("SchemaContractError", true, "no lock"), [], "", map[])
    else
      var first := Tried(step, hook, env, kwargs, 1);
      if !Unusable(first) then first
      else
        var second := Tried(step, hook, env, kwargs, 2);
        if !Unusable(second) then second
        else second.(ending := Blocks("no structured output after 2 attempts: " + second.ending.message))
  }

  predicate Acceptable(step: Step, env: Env, ending: Ending)
  {
    ending.Product? && env.validate(step.outputSchema, ending.value).valid
  }

  /** Not structured, or not valid: worth another attempt. */
  predicate Malformed(step: Step, env: Env, ending: Ending)
  {
    if ending.Product? then !env.validate(step.outputSchema, ending.value).valid
    else ending.Raises? && ending.shapeError
  }

  /** An agent step with an output contract produces something if and only if
      the first answer meets the contract, or the first was malformed and the
      second meets it; and that answer is what it produces. */
  lemma AgentProductIff(step: Step, hook: Hook, env: Env, kwargs: map<string, Json>)
    requires step.executor == Agent && step.outputSchema != ""
    ensures
      var ending := StepHook(step, hook, env, kwargs).ending;
      var first, second := hook.run(kwargs, 1).ending, hook.run(kwargs, 2).ending;
      && (ending.Product? ==> Acceptable(step, env, ending))
      && (ending.Product? <==>
            && env.hasProject && env.schema(step.outputSchema)
            && (Acceptable(step, env, first) || (Malformed(step, env, first) && Acceptable(step, env, second))))
      && (ending.Product? ==> ending == if Acceptable(step, env, first) then first else second)
  {
  }

  // -------------------------------------------------------------------- summaries

  /** `summarise_product`: sizes and named scalars, never the payload; of a value
      that is none of those, such as a validation report, its type. */
  function Summary(value: Json, keys: seq<string>, env: Env): map<string, Json>
  {
    match value
    case Obj(fields) =>
      var names := SortedKeys(fields.Keys);
      var shown := if |names| <= 12 then names else names[..12];
      SummaryKeys(map["keys" := Arr(seq(|shown|, i requires 0 <= i < |shown| => Str(shown[i])))], fields, keys)
    case Arr(items) => map["count" := Int(|items|)]
    case Str(text) =>
      if env.foreign(text).Some? then map["type" := Str(env.foreign(text).value)]
      else map["value" := Str(Truncate(env.render(value), 120))]
    case _ => map["value" := Str(Truncate(env.render(value), 120))]
  }

  function SummaryKeys(detail: map<string, Json>, fields: map<string, Json>, keys: seq<string>): map<string, Json>
    decreases |keys|
  {
    if keys == [] then detail
    else if keys[0] !in fields then SummaryKeys(detail, fields, keys[1..])
    else
      SummaryKeys(detail[keys[0] := Shown(fields[keys[0]])], fields, keys[1..])
  }

  /** A scalar as it is, the size of a container. */
  function Shown(value: Json): Json
  {
    match value
    case Arr(items) => Int(|items|)
    case Obj(inner) => Int(|inner|)
    case scalar => scalar
  }

  // ------------------------------------------------------------- one step, whole

  /** What running a step comes to before anything is logged about its end. */
  datatype Performed = Unready(fault: Fault) | Ran(source: string, effect: Effect)

  function Perform(step: Step, env: Env, pool: Pool): Performed
  {
    if step.executor in ENGINE_IMPLEMENTED && step.executor != Gate then Ran("engine", EngineStep(step, env, pool))
    else match ResolveHook(step, env)
      case Err(e) => Unready(e)
      case Ok((hook, source)) =>
        match BindKwargs(hook, pool, step.kwargs)
        case Err(e) => Unready(e)
        case Ok(kwargs) => Ran(source, StepHook(step, hook, env, kwargs))
  }

  datatype WorkEnd =
    | Produced(value: Json, notes: seq<string>, record: StepRecord)
    | Refused                      // `Blocked` is raised on
    | Broken                       // `StepFailed` is raised
    | Crashed(fault: Fault)        // an exception no row accounts for

  datatype Work = Work(rows: seq<Row>, end: WorkEnd)

  function StartedRow(name: string, executor: string, source: string): Row
  {
    Row(name, Started, map["executor" := Str(executor), "source" := Str(source)])
  }

  function StopRow(status: Status, step: string): Row
  {
    Row("run", status, map["at_step" := Str(step)])
  }

  /** The keyword arguments spread into the last row of a step. */
  function SpreadDetail(step: Step, effect: Effect, env: Env): map<string, Json>
    requires !effect.ending.Raises?
  {
    match effect.ending
    case Blocks(_) => effect.detail
    case Product(value) =>
      var detail := Summary(value, step.summaryKeys, env) + effect.detail;
      if effect.skipped != "" then detail["reason" := Str(Truncate(effect.skipped, 300))] else detail
  }

  /** Python refuses a call that names a parameter twice. `reserved` are the
      recorder's own parameter names; a blocked row also passes `reason`. */
  predicate Collides(step: Step, effect: Effect, env: Env, reserved: set<string>)
    requires !effect.ending.Raises?
  {
    var keys := SpreadDetail(step, effect, env).Keys;
    keys * (if effect.ending.Blocks? then reserved + {"reason"} else reserved) != {}
  }

  /** The rows after the first one, and how the step ends. */
  function Concluded(step: Step, env: Env, effect: Effect, reserved: set<string>, source: string): Work
  {
    if effect.ending.Raises? then
      Work([Row(step.name, FailedRow, map["error" := Str(effect.ending.error),
                                          "detail" := Str(Truncate(effect.ending.message, 300))]),
            StopRow(FailedRow, step.name)], Broken)
    else if Collides(step, effect, env, reserved) then Work([], Crashed(RowRejected))
    else
      var detail := SpreadDetail(step, effect, env);
      match effect.ending
      case Blocks(reason) =>
        Work([Row(step.name, BlockedRow, map["reason" := Str(Truncate(reason, 300))] + detail),
              StopRow(BlockedRow, step.name)], Refused)
      case Product(value) =>
        Work([Row(step.name, if effect.skipped != "" then Skipped else StepOk, detail)],
             Produced(value, effect.notes,
                      StepRecord(step.name, ExecutorName(step.executor), source, step.produces)))
  }

  /** A step that is not a gate in the graph runner, or any step in the
      sequential one: the same code but for the recorder's parameter names. */
  function StepWork(step: Step, env: Env, pool: Pool, reserved: set<string>): Work
  {
    match Perform(step, env, pool)
    case Unready(fault) => Work([], Crashed(fault))
    case Ran(source, effect) =>
      var rest := Concluded(step, env, effect, reserved, source);
      Work([StartedRow(step.name, ExecutorName(step.executor), source)] + rest.rows, rest.end)
  }

  // ------------------------------------------------------------------ the code

  datatype LoggedRow = LoggedRow(seqNo: nat, row: Row)

  /** A recorder numbers what it appends. `reserved` are the names of its own
      parameters, which a keyword argument may not repeat. */
  class Recorder {
    const reserved: set<string>
    var count: nat
    var log: seq<LoggedRow>

    constructor (reserved: set<string>)
      ensures this.reserved == reserved && log == [] && Valid()
    {
      this.reserved := reserved;
      count, log := 0, [];
    }

    /** Numbered 1, 2, 3, ... */
    ghost predicate Valid()
      reads this
    {
      count == |log| && forall i :: 0 <= i < |log| ==> log[i].seqNo == i + 1
    }

    function Rows(): (rows: seq<Row>)
      reads this
      ensures |rows| == |log|
    {
      seq(|log|, i requires 0 <= i < |log| reads this => log[i].row)
    }

    method Append(row: Row)
      requires Valid()
      modifies this
      ensures Valid() && Rows() == old(Rows()) + [row]
    {
      count := count + 1;
      log := log + [LoggedRow(count, row)];
    }

    /** `record(step, status, **fixed, **spread)`: false when Python refuses it. */
    method Spread(step: string, status: Status, fixed: map<string, Json>, spread: map<string, Json>) returns (ok: bool)
      requires Valid()
      modifies this
      ensures Valid() && ok == (spread.Keys * (reserved + fixed.Keys) == {})
      ensures Rows() == if ok then old(Rows()) + [Row(step, status, fixed + spread)] else old(Rows())
    {
      ok := spread.Keys * (reserved + fixed.Keys) == {};
      if ok { Append(Row(step, status, fixed + spread)); }
    }
  }

  /** The parts of `ctx` that outlive a call into a hook. */
  class Ctx {
    var notes: seq<string>
    var skipped: string
    var detail: map<string, Json>

    constructor (notes: seq<string>)
      ensures this.notes == notes
    {
      this.notes := notes;
      skipped, detail := "", map[];
    }

    /** Cleared before each step: `ctx` outlives one step. */
    method Clear()
      modifies this`skipped, this`detail
      ensures skipped == "" && detail == map[]
    {
      skipped, detail := "", map[];
    }

    /** What a call leaves behind. */
    method Absorb(r: Effect)
      modifies this
      ensures notes == old(notes) + r.notes && skipped == Later(r.skipped, old(skipped)) && detail == old(detail) + r.detail
    {
      notes := notes + r.notes;
      if r.skipped != "" { skipped := r.skipped; }
      detail := detail + r.detail;
    }

    /** This context is what `effect` makes of a cleared one. */
    ghost predicate Shows(effect: Effect, before: seq<string>)
      reads this
    {
      notes == before + effect.notes && skipped == effect.skipped && detail == effect.detail
    }
  }

  /** `call_step_hook`: the loop over two attempts. */
  method CallStepHook(step: Step, hook: Hook, env: Env, ctx: Ctx, kwargs: map<string, Json>) returns (ending: Ending)
    requires ctx.skipped == "" && ctx.detail == map[]
    modifies ctx
    ensures ending == StepHook(step, hook, env, kwargs).ending
    ensures ctx.Shows(StepHook(step, hook, env, kwargs), old(ctx.notes))
  {
    if step.executor != Agent || step.outputSchema == "" {
      var r := hook.run(kwargs, 1);
      ctx.Absorb(r);
      return r.ending;
    }
    if !env.hasProject {
      return Raises("RuntimeError", false, "needs a workflow project");
    }
    if !env.schema(step.outputSchema) {
      return Raises("SchemaContractError", true, "no lock");
    }
    var problem := "";
    var attempt := 1;
    while attempt <= 2
      invariant 1 <= attempt <= 3
      invariant ctx.Shows(Tried(step, hook, env, kwargs, attempt - 1), old(ctx.notes))
      invariant attempt > 1 ==> Unusable(Tried(step, hook, env, kwargs, 1))
      invariant attempt == 3 ==> Unusable(Tried(step, hook, env, kwargs, 2))
      invariant attempt > 1 ==> problem == Tried(step, hook, env, kwargs, attempt - 1).ending.message
    {
      ending := AttemptOnce(step, hook, env, ctx, kwargs, attempt, old(ctx.notes));
      if !ending.Raises? || !ending.shapeError { return; }
      problem := ending.message;
      attempt := attempt + 1;
    }
    ending := Blocks("no structured output after 2 attempts: " + problem);
  }

  /** One turn of that loop: ask, and hold a product to the schema. */
  method AttemptOnce(step: Step, hook: Hook, env: Env, ctx: Ctx, kwargs: map<string, Json>, n: nat,
                     ghost before: seq<string>) returns (ending: Ending)
    requires n > 0 && ctx.Shows(Tried(step, hook, env, kwargs, n - 1), before)
    modifies ctx
    ensures ctx.Shows(Tried(step, hook, env, kwargs, n), before)
    ensures ending == Tried(step, hook, env, kwargs, n).ending
  {
    var r := hook.run(kwargs, n);
    ctx.Absorb(r);
    ending := r.ending;
    if ending.Product? {
      var v := env.validate(step.outputSchema, ending.value);
      ctx.detail := v.detail;
      if !v.valid { ending := Raises("ValidationError", true, v.problem); }
    }
  }

  /** `bind_kwargs`: the loop over the declared parameters. */
  method Bind(hook: Hook, pool: Pool, allowed: seq<string>) returns (r: Result<map<string, Json>, Fault>)
    ensures r.Err? <==> !hook.varKeyword && exists p :: p in hook.params && p.name !in pool && !p.hasDefault
    ensures r.Ok? ==> forall name :: name in r.value <==> name in pool && Takes(hook, allowed, name)
    ensures r.Ok? ==> forall name :: name in r.value ==> r.value[name] == pool[name]
    ensures r == BindKwargs(hook, pool, allowed)
  {
    ghost var result := map name | name in pool && Takes(hook, allowed, name) :: pool[name];
    if hook.varKeyword {
      var listed := map name | name in allowed && name in pool :: pool[name];
      assert listed == result;
      return Ok(listed);
    }
    var bound: map<string, Json> := map[];
    for i := 0 to |hook.params|
      invariant forall name :: name in bound <==> name in pool && exists j :: 0 <= j < i && hook.params[j].name == name
      invariant forall name :: name in bound ==> bound[name] == pool[name]
      invariant forall j :: 0 <= j < i ==> hook.params[j].name in pool || hook.params[j].hasDefault
    {
      var param := hook.params[i];
      if param.name in pool {
        bound := bound[param.name := pool[param.name]];
      } else if !param.hasDefault {
        assert param in hook.params;
        return Err(CannotBind);
      }
    }
    assert bound == result;
    r := Ok(bound);
  }

  /** The hook a step runs and its arguments, or `None` for an engine step. */
  datatype Ready = Ready(hook: Option<Hook>, source: string, kwargs: map<string, Json>)

  method Prepare(step: Step, env: Env, pool: Pool) returns (r: Result<Ready, Fault>)
    ensures r.Err? ==> Perform(step, env, pool) == Unready(r.error)
    ensures r.Ok? ==>
              Perform(step, env, pool) ==
              Ran(r.value.source, if r.value.hook.None? then EngineStep(step, env, pool)
                                  else StepHook(step, r.value.hook.value, env, r.value.kwargs))
  {
    if step.executor in ENGINE_IMPLEMENTED && step.executor != Gate {
      return Ok(Ready(None, "engine", map[]));
    }
    var found := ResolveHook(step, env);
    if found.Err? { return Err(found.error); }
    var bound := Bind(found.value.0, pool, step.kwargs);
    if bound.Err? { return Err(bound.error); }
    r := Ok(Ready(Some(found.value.0), found.value.1, bound.value));
  }

  /** The body both runners share: everything one step does, logged as it goes.
      The notes it returns are the tail of `ctx.notes` the step added. */
  method RunStep(step: Step, env: Env, ctx: Ctx, pool: Pool, record: Recorder) returns (end: WorkEnd)
    requires record.Valid()
    modifies ctx, record
    ensures record.Valid()
    ensures end == StepWork(step, env, pool, record.reserved).end
    ensures record.Rows() == old(record.Rows()) + StepWork(step, env, pool, record.reserved).rows
    ensures end.Produced? ==> ctx.notes == old(ctx.notes) + end.notes
  {
    var ready := Prepare(step, env, pool);
    if ready.Err? {
      assert record.Rows() + [] == record.Rows();
      return Crashed(ready.error);
    }
    record.Append(StartedRow(step.name, ExecutorName(step.executor), ready.value.source));
    var before := |ctx.notes|;
    ctx.Clear();
    var ending := Call(step, ready.value, env, ctx, pool);
    ghost var effect := Perform(step, env, pool).effect;
    assert ctx.notes[before..] == effect.notes;
    assert effect == Effect(ending, ctx.notes[before..], ctx.skipped, ctx.detail);
    ghost var logged := record.Rows();
    end := Conclude(step, env, ctx, record, ready.value.source, ending, before);
    AppendRest(old(record.Rows()), StartedRow(step.name, ExecutorName(step.executor), ready.value.source),
               Concluded(step, env, effect, record.reserved, ready.value.source).rows);
  }

  lemma AppendRest(rows: seq<Row>, first: Row, rest: seq<Row>)
    ensures (rows + [first]) + rest == rows + ([first] + rest)
  {
  }

  method Call(step: Step, ready: Ready, env: Env, ctx: Ctx, pool: Pool) returns (ending: Ending)
    requires ctx.skipped == "" && ctx.detail == map[]
    modifies ctx
    ensures
      var effect := if ready.hook.None? then EngineStep(step, env, pool)
                    else StepHook(step, ready.hook.value, env, ready.kwargs);
      ending == effect.ending && ctx.Shows(effect, old(ctx.notes))
  {
    if ready.hook.None? {
      var r := EngineStep(step, env, pool);
      ctx.Absorb(r);
      ending := r.ending;
    } else {
      ending := CallStepHook(step, ready.hook.value, env, ctx, ready.kwargs);
    }
  }

  /** The `except` clauses and the row after them. */
  method Conclude(step: Step, env: Env, ctx: Ctx, record: Recorder, source: string, ending: Ending, before: nat)
    returns (end: WorkEnd)
    requires record.Valid() && before <= |ctx.notes|
    modifies record
    ensures record.Valid()
    ensures
      var w := Concluded(step, env, Effect(ending, ctx.notes[before..], ctx.skipped, ctx.detail), record.reserved, source);
      end == w.end && record.Rows() == old(record.Rows()) + w.rows
  {
    match ending
    case Raises(error, _, message) =>
      record.Append(Row(step.name, FailedRow, map["error" := Str(error), "detail" := Str(Truncate(message, 300))]));
      record.Append(StopRow(FailedRow, step.name));
      end := Broken;
    case Blocks(reason) =>
      var fixed := map["reason" := Str(Truncate(reason, 300))];
      assert fixed.Keys == {"reason"};
      var ok := record.Spread(step.name, BlockedRow, fixed, ctx.detail);
      if !ok {
        assert old(record.Rows()) + [] == old(record.Rows());
        return Crashed(RowRejected);
      }
      record.Append(StopRow(BlockedRow, step.name));
      end := Refused;
    case Product(value) =>
      var detail := Summary(value, step.summaryKeys, env) + ctx.detail;
      if ctx.skipped != "" { detail := detail["reason" := Str(Truncate(ctx.skipped, 300))]; }
      var none: map<string, Json> := map[];
      assert none.Keys == {} && record.reserved + none.Keys == record.reserved && none + detail == detail;
      var ok := record.Spread(step.name, if ctx.skipped != "" then Skipped else StepOk, none, detail);
      if !ok {
        assert old(record.Rows()) + [] == old(record.Rows());
        return Crashed(RowRejected);
      }
      end := Produced(value, ctx.notes[before..],
                      StepRecord(step.name, ExecutorName(step.executor), source, step.produces));
  }
}
