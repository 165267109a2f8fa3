/** Templates, hooks and the environment a run executes in. */
module Templates {
  import opened JsonValues

  type Pool = map<string, Json>

  datatype Executor = Local | Agent | Gate | Service | Scheduled | Shell | Validate

  /** Executors the engine implements itself. */
  const ENGINE_IMPLEMENTED: set<Executor> := {Gate, Shell, Service, Validate}

  function ExecutorName(e: Executor): string
  {
    match e
    case Local => "local"
    case Agent => "agent"
    case Gate => "gate"
    case Service => "service"
    case Scheduled => "scheduled"
    case Shell => "shell"
    case Validate => "validate"
  }

  // --------------------------------------------------------------------- hooks

  /** How a call into authored code, a shell or a service ends. */
  datatype Ending =
    | Product(value: Json)
    | Blocks(reason: string)                                       // `Blocked`
    | Raises(error: string, shapeError: bool, message: string)    // `shapeError`: TypeError or ValueError

  /** ... and what it leaves on `ctx`: notes added, the skip reason (empty when
      `skip` was not called), keys set in `detail`. */
  datatype Effect = Effect(ending: Ending, notes: seq<string>, skipped: string, detail: map<string, Json>)

  datatype Param = Param(name: string, hasDefault: bool)

  /** An implementation: its declared parameters after `ctx`, and its behaviour
      on bound arguments. The second argument is the attempt, 1 or 2. */
  datatype Hook = Hook(params: seq<Param>, varKeyword: bool, run: (map<string, Json>, nat) -> Effect)

  // ----------------------------------------------------------------- templates

  datatype Step = Step(
    name: string,
    executor: Executor,
    produces: string,
    kwargs: seq<string>,
    default: Option<Hook>,
    uses: string,
    summaryKeys: seq<string>,
    doc: string,
    when: string,
    schema: string,
    input: string,
    outputSchema: string)

  datatype Template = Template(name: string, steps: seq<Step>)

  /** `Template.__post_init__`: no step is declared twice. */
  ghost predicate DistinctSteps(t: Template)
  {
    forall i, j :: 0 <= i < j < |t.steps| ==> t.steps[i].name != t.steps[j].name
  }

  // --------------------------------------------------------------------- judges

  datatype Judge = Judge(
    id: string,
    version: string,
    inputs: seq<string>,
    before: seq<string>,
    after: seq<string>,
    blocks: bool)   // `on_fail: block`, as opposed to `warn`
  {
    function Ref(): string { id + "@" + version }

    function NodeName(): string { "judge-" + id }

    function Anchors(): seq<string> { if before != [] then before else after }
  }

  datatype Opinion = Opinion(passed: bool, reason: string, offending: seq<string>)

  /** A model's answer: it failed, or it said something. */
  datatype Answer = ModelFailed(error: string) | Said(text: string)

  // ---------------------------------------------------------------- environment

  /** The verdict of the JSON Schema validator on one candidate. */
  datatype Validation = Validation(valid: bool, report: Json, detail: map<string, Json>, problem: string)

  /** Everything outside the two runners, as arbitrary functions. */
  datatype Env = Env(
    hooks: map<string, Hook>,                        // functions of the workflow file
    registry: map<string, Hook>,                     // implementations a step may name
    hasProject: bool,
    engine: (Step, Pool) -> Effect,                  // shell and service steps
    schema: string -> bool,                          // can this locked schema be loaded
    validate: (string, Json) -> Validation,
    ask: (Judge, seq<Json>, nat) -> Answer,          // a judge's model, by attempt
    parse: string -> Option<Opinion>,
    render: Json -> string,                          // Python's `str`
    foreign: string -> Option<string>,               // type of a product that is no JSON value, by its text
    required: seq<string>,                           // preflight requirements
    absent: seq<string>)
}
