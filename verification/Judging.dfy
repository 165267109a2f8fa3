/** A judge: one question to a model, and the rule that failure is not a pass. */
module Judging {
  import opened JsonValues
  import opened Templates
  import opened Execution

  /** The declared evidence; `None` when the run has not produced all of it. */
  function Evidence(pool: Pool, inputs: seq<string>): Option<seq<Json>>
  {
    if inputs == [] then Some([])
    else
      match Evidence(pool, inputs[..|inputs| - 1])
      case None => None
      case Some(before) =>
        match Dotted(pool, inputs[|inputs| - 1])
        case None => None
        case Some(value) => Some(before + [value])
  }

  // -------------------------------------------------------------------- run_judge

  /** The opinion one answer carries, if it can be read. */
  function Read(env: Env, a: Answer): Option<Opinion>
  {
    match a case ModelFailed(_) => None case Said(text) => env.parse(text)
  }

  /** The answers asked for: a second one only when the first was unreadable. */
  function OpinionOf(judge: Judge, env: Env, evidence: seq<Json>): Option<Opinion>
  {
    var first := env.ask(judge, evidence, 1);
    if first.ModelFailed? then None
    else if env.parse(first.text).Some? then env.parse(first.text)
    else Read(env, env.ask(judge, evidence, 2))
  }

  /** The n-th answer reads as a pass. */
  predicate Approves(judge: Judge, env: Env, evidence: seq<Json>, n: nat)
  {
    var o := Read(env, env.ask(judge, evidence, n));
    o.Some? && o.value.passed
  }

  /** The n-th answer was given and cannot be read. */
  predicate Unread(judge: Judge, env: Env, evidence: seq<Json>, n: nat)
  {
    var a := env.ask(judge, evidence, n);
    a.Said? && env.parse(a.text).None?
  }

  function Unreadable(judge: Judge): string
  {
    "judge " + judge.Ref() + ": unreadable verdict"
  }

  /** The notes `run_judge` adds, one for each unreadable answer and one for the end. */
  function JudgeNotes(judge: Judge, env: Env, evidence: seq<Json>): seq<string>
  {
    var first := env.ask(judge, evidence, 1);
    var second := env.ask(judge, evidence, 2);
    var asked :=
      if first.ModelFailed? || env.parse(first.text).Some? then []
      else if second.ModelFailed? || env.parse(second.text).Some? then [Unreadable(judge)]
      else [Unreadable(judge), Unreadable(judge)];
    match OpinionOf(judge, env, evidence)
    case None => if judge.blocks then asked else asked + ["judge " + judge.Ref() + ": no verdict"]
    case Some(o) =>
      if o.passed then asked + ["judge " + judge.Ref() + ": pass"]
      else if judge.blocks then asked
      else asked + ["judge " + judge.Ref() + ": FAIL (warn only)"]
  }

  function JudgeDetail(judge: Judge, opinion: Option<Opinion>): map<string, Json>
  {
    var common := map["judge" := Str(judge.Ref()), "on_fail" := Str(if judge.blocks then "block" else "warn")];
    match opinion
    case None => common["verdict" := Str("none")]["error" := Str("no verdict")]
    case Some(o) => common["verdict" := Str(if o.passed then "pass" else "fail")]
  }

  /** The verdict that goes into the pool and the event log. */
  function VerdictSummary(o: Opinion): map<string, Json>
  {
    var verdict := map["verdict" := Str(if o.passed then "pass" else "fail")];
    var reasoned := if o.reason != "" then verdict["reason" := Str(Truncate(o.reason, 300))] else verdict;
    if o.offending == [] then reasoned
    else
      var shown := if |o.offending| <= 10 then o.offending else o.offending[..10];
      reasoned["offending" := Arr(seq(|shown|, i requires 0 <= i < |shown| => Str(shown[i])))]
  }

  /** A judge that warns turns "no verdict" into a failing verdict. */
  function Effective(opinion: Option<Opinion>): Opinion
  {
    if opinion.Some? then opinion.value else Opinion(false, "no verdict", [])
  }

  /** `run_judge`, as a value. */
  function JudgeEffect(judge: Judge, env: Env, pool: Pool): Effect
  {
    match Evidence(pool, judge.inputs)
    case None => Effect(Raises("JudgeError", false, "missing input"), [], "", map[])
    case Some(evidence) =>
      var opinion := OpinionOf(judge, env, evidence);
      var passed := opinion.Some? && opinion.value.passed;
      Effect(if passed || !judge.blocks then Product(Obj(VerdictSummary(Effective(opinion))))
             else Blocks("judge " + judge.Ref() + " did not pass this"),
             JudgeNotes(judge, env, evidence), "", JudgeDetail(judge, opinion))
  }

  /** `run_judge`: the loop over at most two attempts. */
  method RunJudge(judge: Judge, env: Env, pool: Pool) returns (r: Effect, asked: nat)
    ensures r == JudgeEffect(judge, env, pool)
    ensures asked <= 2
    // Failure is not a pass: without a readable passing answer, a blocking judge blocks.
    ensures r.ending.Product? && judge.blocks ==>
              var evidence := Evidence(pool, judge.inputs);
              evidence.Some? && 1 <= asked && Approves(judge, env, evidence.value, asked)
  {
    asked := 0;
    var evidence := Evidence(pool, judge.inputs);
    if evidence.None? { return Effect(Raises("JudgeError", false, "missing input"), [], "", map[]), 0; }
    var opinion: Option<Opinion> := None;
    var notes: seq<string> := [];
    while asked < 2 && opinion.None?
      invariant asked <= 2
      invariant asked == 0 ==> opinion.None? && notes == []
      invariant asked > 0 && opinion.Some? ==> opinion == Read(env, env.ask(judge, evidence.value, asked))
      invariant asked > 0 && opinion.None? ==>
                  Unread(judge, env, evidence.value, asked)
      invariant asked == 2 ==>
                  Unread(judge, env, evidence.value, 1)
      invariant notes == if asked == 0 || (asked == 1 && opinion.Some?) then []
                         else if asked == 1 || opinion.Some? then [Unreadable(judge)]
                         else [Unreadable(judge), Unreadable(judge)]
      decreases 2 - asked
    {
      asked := asked + 1;
      var answer := env.ask(judge, evidence.value, asked);
      if answer.ModelFailed? { break; }
      opinion := env.parse(answer.text);
      if opinion.None? { notes := notes + [Unreadable(judge)]; }
    }
    var passed := opinion.Some? && opinion.value.passed;
    if passed {
      notes := notes + ["judge " + judge.Ref() + ": pass"];
    } else if !judge.blocks {
      notes := notes + (if opinion.None? then ["judge " + judge.Ref() + ": no verdict"]
                        else ["judge " + judge.Ref() + ": FAIL (warn only)"]);
    }
    r := Effect(if passed || !judge.blocks then Product(Obj(VerdictSummary(Effective(opinion))))
                else Blocks("judge " + judge.Ref() + " did not pass this"),
                notes, "", JudgeDetail(judge, opinion));
  }

  /** A judge sees its declared inputs and nothing else of the pool. */
  lemma {:induction false} EvidenceOnly(p: Pool, q: Pool, inputs: seq<string>)
    requires forall i :: 0 <= i < |inputs| ==> Dotted(p, inputs[i]) == Dotted(q, inputs[i])
    ensures Evidence(p, inputs) == Evidence(q, inputs)
  {
    if inputs != [] {
      EvidenceOnly(p, q, inputs[..|inputs| - 1]);
    }
  }

  lemma JudgeSeesInputsOnly(judge: Judge, env: Env, p: Pool, q: Pool)
    requires forall i :: 0 <= i < |judge.inputs| ==> Dotted(p, judge.inputs[i]) == Dotted(q, judge.inputs[i])
    ensures JudgeEffect(judge, env, p) == JudgeEffect(judge, env, q)
  {
    EvidenceOnly(p, q, judge.inputs);
  }

  /** A judge lets the run go on if and only if its evidence is there and it
      only warns, or its first readable answer, of two at most, is a pass. */
  lemma JudgePassesIff(judge: Judge, env: Env, pool: Pool)
    ensures
      var evidence := Evidence(pool, judge.inputs);
      JudgeEffect(judge, env, pool).ending.Product? <==>
        && evidence.Some?
        && (|| !judge.blocks
            || Approves(judge, env, evidence.value, 1)
            || (Unread(judge, env, evidence.value, 1) && Approves(judge, env, evidence.value, 2)))
  {
  }
}
