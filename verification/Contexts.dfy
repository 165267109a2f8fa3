/** Hooks that read `ctx`: what they are handed besides their arguments. A
    resumed leg has a fresh `ctx`, without the notes so far and without the
    params, so pausing is invisible exactly to hooks that read neither. */
module Contexts {
  import opened JsonValues
  import opened Templates
  import opened Execution
  import opened GraphBuild
  import opened Sequential
  import opened Strings
  import opened GraphRun
  import opened Pausing

  /** What of `ctx` a node may read: `ctx.params`, and the notes added so far in
      this leg. */
  datatype Seen = Seen(params: Pool, notes: seq<string>)

  /** The `ctx` of a resumed leg. */
  const BLANK := Seen(map[], [])

  /** A node, and an environment, for every `ctx` they may be handed. */
  type Reader = Seen -> Node
  type Setting = Seen -> Env

  function EffectOf(node: Reader, env: Setting, seen: Seen, pool: Pool, answer: Option<Json>): NodeEnd
  {
    NodeEffect(node(seen), env(seen), pool, answer)
  }

  // -------------------------------------------------------------- a run in legs

  /** `GraphRun.GraphFrom`, with the `ctx` every node is handed. */
  function SeenFrom(chain: seq<Reader>, env: Setting, answers: map<nat, Json>, k: nat, s: GraphState, seen: Seen,
                    rows: seq<Row>): (r: Report)
    requires k <= |chain|
    ensures r.stop.Paused? ==> k <= r.stop.at < |chain|
    decreases |chain| - k
  {
    if k == |chain| then Report(Finished, s.pool, s.steps, s.notes, rows + [RunOk(|s.steps|)])
    else
      var name := chain[k](seen).Name();
      match EffectOf(chain[k], env, seen, s.pool, AnswerAt(answers, k))
      case Waits(payload) => Report(Paused(k, payload), s.pool, s.steps, s.notes, rows + PauseRows(name, payload))
      case Does(w) =>
        match w.end
        case Produced(value, notes, record) =>
          SeenFrom(chain, env, answers, k + 1, Merge(s, value, notes, record), seen.(notes := seen.notes + notes),
                   rows + w.rows)
        case _ => Report(StopOf(name, w.end), s.pool, s.steps, s.notes, rows + w.rows)
  }

  function FirstLegSeen(t: Template, env: Setting, chain: seq<Reader>, params: Pool): Report
  {
    var seen := Seen(params, []);
    if env(seen).absent != [] then Report(NotStarted, params, [], [], Opening(t, env(seen)))
    else SeenFrom(chain, env, map[], 0, Initial(params), seen, Opening(t, env(seen)))
  }

  function SessionSeen(t: Template, env: Setting, chain: seq<Reader>, params: Pool, verdicts: seq<Json>): (r: Report)
    ensures r.stop.Paused? ==> r.stop.at < |chain|
    decreases |verdicts|
  {
    if verdicts == [] then FirstLegSeen(t, env, chain, params)
    else
      var before, last := SessionSeen(t, env, chain, params, verdicts[..|verdicts| - 1]), verdicts[|verdicts| - 1];
      if before.stop.Paused? then
        SeenFrom(chain, env, map[before.stop.at := last], before.stop.at, Saved(before), BLANK, [ResumedRow(last)])
      else before
  }

  function AnsweredSeen(t: Template, env: Setting, chain: seq<Reader>, params: Pool, verdicts: seq<Json>): map<nat, Json>
    decreases |verdicts|
  {
    if verdicts == [] then map[]
    else
      var front, last := verdicts[..|verdicts| - 1], verdicts[|verdicts| - 1];
      var before := SessionSeen(t, env, chain, params, front);
      var answers := AnsweredSeen(t, env, chain, params, front);
      if before.stop.Paused? then answers[before.stop.at := last] else answers
  }

  function UncutSeen(t: Template, env: Setting, chain: seq<Reader>, params: Pool, answers: map<nat, Json>): Report
  {
    var seen := Seen(params, []);
    if env(seen).absent != [] then Report(NotStarted, params, [], [], Opening(t, env(seen)))
    else SeenFrom(chain, env, answers, 0, Initial(params), seen, Opening(t, env(seen)))
  }

  ghost predicate Invisible(t: Template, env: Setting, chain: seq<Reader>, params: Pool, verdicts: seq<Json>)
  {
    Same(SessionSeen(t, env, chain, params, verdicts),
         UncutSeen(t, env, chain, params, AnsweredSeen(t, env, chain, params, verdicts)))
  }

  // ------------------------------------------------------------ reading nothing

  /** What a node comes to, but for the rows it logs. */
  datatype Outcome = Asks(payload: Json) | Gets(name: string, end: WorkEnd)

  function OutcomeOf(node: Reader, env: Setting, seen: Seen, pool: Pool, answer: Option<Json>): Outcome
  {
    match EffectOf(node, env, seen, pool, answer)
    case Waits(payload) => Asks(payload)
    case Does(w) => Gets(if w.end.Produced? then "" else node(seen).Name(), w.end)
  }

  /** A gate is a gate whatever `ctx` is: it runs no hook. */
  ghost predicate GateOrNot(node: Reader)
  {
    forall seen {:trigger node(seen)} ::
      IsGate(node(seen)) == IsGate(node(BLANK)) && (IsGate(node(seen)) ==> node(seen) == node(BLANK))
  }

  /** Preflight is not handed a `ctx`. */
  ghost predicate SamePreflight(env: Setting)
  {
    forall seen {:trigger env(seen)} :: env(seen).absent == env(BLANK).absent
  }

  /** A pool there may be under this `ctx`: the run's params came first, and
      before a node that is not the first something was produced. */
  predicate Possible(seen: Seen, pool: Pool)
  {
    seen.params.Keys <= pool.Keys && pool != map[]
  }

  /** On every pool, the node comes to what it would in the `ctx` of a resumed leg. */
  ghost predicate Unread(node: Reader, env: Setting)
  {
    forall seen, pool {:trigger Possible(seen, pool)} :: Possible(seen, pool) ==>
      OutcomeOf(node, env, seen, pool, None) == OutcomeOf(node, env, BLANK, pool, None)
  }

  lemma AnswersForGates(node: Reader, env: Setting, seen: Seen, pool: Pool, answer: Option<Json>)
    requires GateOrNot(node) && Unread(node, env) && Possible(seen, pool)
    ensures OutcomeOf(node, env, seen, pool, answer) == OutcomeOf(node, env, BLANK, pool, answer)
  {
    assert IsGate(node(seen)) == IsGate(node(BLANK));
    if !IsGate(node(seen)) {
      assert OutcomeOf(node, env, seen, pool, None) == OutcomeOf(node, env, BLANK, pool, None);
    }
  }

  // --------------------------------------------------- unread means invisible

  /** The chain as a resumed leg sees it. */
  function Blanked(chain: seq<Reader>): (nodes: seq<Node>)
    ensures |nodes| == |chain|
  {
    seq(|chain|, i requires 0 <= i < |chain| => chain[i](BLANK))
  }

  ghost predicate AllUnread(chain: seq<Reader>, env: Setting)
  {
    forall i :: 0 <= i < |chain| ==> GateOrNot(chain[i]) && Unread(chain[i], env)
  }

  /** What is seen is blank as long as nothing has been produced. */
  ghost predicate Fits(seen: Seen, pool: Pool)
  {
    seen.params.Keys <= pool.Keys && (pool == map[] ==> seen == BLANK)
  }

  lemma OutcomeAlike(chain: seq<Reader>, env: Setting, answers: map<nat, Json>, k: nat, pool: Pool, seen: Seen)
    requires k < |chain| && AllUnread(chain, env) && Fits(seen, pool)
    ensures OutcomeOf(chain[k], env, seen, pool, AnswerAt(answers, k)) ==
            OutcomeOf(chain[k], env, BLANK, pool, AnswerAt(answers, k))
  {
    if pool != map[] { AnswersForGates(chain[k], env, seen, pool, AnswerAt(answers, k)); }
  }

  /** One node of such a pass, and of the blank one. */
  lemma SeenStops(chain: seq<Reader>, env: Setting, a: map<nat, Json>, k: nat, s: GraphState, seen: Seen, rows: seq<Row>)
    requires k < |chain|
    requires var o := OutcomeOf(chain[k], env, seen, s.pool, AnswerAt(a, k)); o.Asks? || !o.end.Produced?
    ensures
      var r, o := SeenFrom(chain, env, a, k, s, seen, rows), OutcomeOf(chain[k], env, seen, s.pool, AnswerAt(a, k));
      && r.pool == s.pool && r.steps == s.steps && r.notes == s.notes
      && r.stop == if o.Asks? then Paused(k, o.payload) else StopOf(o.name, o.end)
  {
  }

  lemma SeenGoesOn(chain: seq<Reader>, env: Setting, a: map<nat, Json>, k: nat, s: GraphState, seen: Seen,
                   rows: seq<Row>) returns (added: seq<Row>)
    requires k < |chain|
    requires var o := OutcomeOf(chain[k], env, seen, s.pool, AnswerAt(a, k)); o.Gets? && o.end.Produced?
    ensures EffectOf(chain[k], env, seen, s.pool, AnswerAt(a, k)) ==
            Does(Work(added, OutcomeOf(chain[k], env, seen, s.pool, AnswerAt(a, k)).end))
    ensures
      var end := OutcomeOf(chain[k], env, seen, s.pool, AnswerAt(a, k)).end;
      SeenFrom(chain, env, a, k, s, seen, rows) ==
      SeenFrom(chain, env, a, k + 1, Merge(s, end.value, end.notes, end.record),
               seen.(notes := seen.notes + end.notes), rows + added)
  {
    added := EffectOf(chain[k], env, seen, s.pool, AnswerAt(a, k)).work.rows;
  }

  /** The blank pass is an ordinary one. */
  lemma BlankStops(chain: seq<Reader>, env: Setting, a: map<nat, Json>, k: nat, s: GraphState, rows: seq<Row>)
    requires k < |chain|
    requires var o := OutcomeOf(chain[k], env, BLANK, s.pool, AnswerAt(a, k)); o.Asks? || !o.end.Produced?
    ensures
      var r, o := GraphFrom(Blanked(chain), env(BLANK), a, k, s, rows),
                  OutcomeOf(chain[k], env, BLANK, s.pool, AnswerAt(a, k));
      && r.pool == s.pool && r.steps == s.steps && r.notes == s.notes
      && r.stop == if o.Asks? then Paused(k, o.payload) else StopOf(o.name, o.end)
  {
    var nodes := Blanked(chain);
    var e := NodeEffect(nodes[k], env(BLANK), s.pool, AnswerAt(a, k));
    if e.Waits? {
      WaitsHere(nodes, env(BLANK), a, k, s, rows, e.payload);
    } else {
      StopsHere(nodes, env(BLANK), a, k, s, rows, e.work);
    }
  }

  lemma BlankGoesOn(chain: seq<Reader>, env: Setting, a: map<nat, Json>, k: nat, s: GraphState, rows: seq<Row>)
    returns (added: seq<Row>)
    requires k < |chain|
    requires var o := OutcomeOf(chain[k], env, BLANK, s.pool, AnswerAt(a, k)); o.Gets? && o.end.Produced?
    ensures
      var end := OutcomeOf(chain[k], env, BLANK, s.pool, AnswerAt(a, k)).end;
      GraphFrom(Blanked(chain), env(BLANK), a, k, s, rows) ==
      GraphFrom(Blanked(chain), env(BLANK), a, k + 1, Merge(s, end.value, end.notes, end.record), rows + added)
  {
    added := EffectOf(chain[k], env, BLANK, s.pool, AnswerAt(a, k)).work.rows;
    NextNode(Blanked(chain), env(BLANK), a, k, s, rows);
  }

  lemma FitsOn(seen: Seen, s: GraphState, value: Json, notes: seq<string>, record: StepRecord)
    requires Fits(seen, s.pool)
    ensures Fits(seen.(notes := seen.notes + notes), Merge(s, value, notes, record).pool)
  {
    assert record.produced in Merge(s, value, notes, record).pool;
  }

  lemma StopsLikeBlank(chain: seq<Reader>, env: Setting, a: map<nat, Json>, k: nat, s: GraphState, seen: Seen,
                       rows: seq<Row>, rows': seq<Row>)
    requires k < |chain|
    requires OutcomeOf(chain[k], env, seen, s.pool, AnswerAt(a, k)) == OutcomeOf(chain[k], env, BLANK, s.pool, AnswerAt(a, k))
    requires var o := OutcomeOf(chain[k], env, seen, s.pool, AnswerAt(a, k)); o.Asks? || !o.end.Produced?
    ensures Same(SeenFrom(chain, env, a, k, s, seen, rows), GraphFrom(Blanked(chain), env(BLANK), a, k, s, rows'))
  {
    SeenStops(chain, env, a, k, s, seen, rows);
    BlankStops(chain, env, a, k, s, rows');
  }

  lemma {:induction false} SeenIsBlank(chain: seq<Reader>, env: Setting, a: map<nat, Json>, k: nat, s: GraphState,
                                       seen: Seen, rows: seq<Row>, rows': seq<Row>)
    requires k <= |chain| && AllUnread(chain, env) && Fits(seen, s.pool)
    ensures Same(SeenFrom(chain, env, a, k, s, seen, rows), GraphFrom(Blanked(chain), env(BLANK), a, k, s, rows'))
    decreases |chain| - k, 1
  {
    if k < |chain| {
      OutcomeAlike(chain, env, a, k, s.pool, seen);
      var o := OutcomeOf(chain[k], env, seen, s.pool, AnswerAt(a, k));
      if o.Gets? && o.end.Produced? {
        GoesOnLikeBlank(chain, env, a, k, s, seen, rows, rows');
      } else {
        StopsLikeBlank(chain, env, a, k, s, seen, rows, rows');
      }
    }
  }

  lemma {:induction false} GoesOnLikeBlank(chain: seq<Reader>, env: Setting, a: map<nat, Json>, k: nat, s: GraphState,
                                           seen: Seen, rows: seq<Row>, rows': seq<Row>)
    requires k < |chain| && AllUnread(chain, env) && Fits(seen, s.pool)
    requires OutcomeOf(chain[k], env, seen, s.pool, AnswerAt(a, k)) == OutcomeOf(chain[k], env, BLANK, s.pool, AnswerAt(a, k))
    requires var o := OutcomeOf(chain[k], env, seen, s.pool, AnswerAt(a, k)); o.Gets? && o.end.Produced?
    ensures Same(SeenFrom(chain, env, a, k, s, seen, rows), GraphFrom(Blanked(chain), env(BLANK), a, k, s, rows'))
    decreases |chain| - k, 0
  {
    var end := OutcomeOf(chain[k], env, seen, s.pool, AnswerAt(a, k)).end;
    var added := SeenGoesOn(chain, env, a, k, s, seen, rows);
    var added' := BlankGoesOn(chain, env, a, k, s, rows');
    FitsOn(seen, s, end.value, end.notes, end.record);
    SeenIsBlank(chain, env, a, k + 1, Merge(s, end.value, end.notes, end.record),
                seen.(notes := seen.notes + end.notes), rows + added, rows' + added');
  }

  lemma FirstLegIsBlank(t: Template, env: Setting, chain: seq<Reader>, params: Pool, answers: map<nat, Json>)
    requires SamePreflight(env) && AllUnread(chain, env)
    ensures Same(FirstLegSeen(t, env, chain, params), FirstLeg(t, env(BLANK), Blanked(chain), params))
    ensures Same(UncutSeen(t, env, chain, params, answers), Uncut(t, env(BLANK), Blanked(chain), params, answers))
  {
    var seen := Seen(params, []);
    assert env(seen).absent == env(BLANK).absent;
    SeenIsBlank(chain, env, map[], 0, Initial(params), seen, Opening(t, env(seen)), Opening(t, env(BLANK)));
    SeenIsBlank(chain, env, answers, 0, Initial(params), seen, Opening(t, env(seen)), Opening(t, env(BLANK)));
  }

  lemma {:induction false} SessionIsBlank(t: Template, env: Setting, chain: seq<Reader>, params: Pool,
                                          verdicts: seq<Json>)
    requires SamePreflight(env) && AllUnread(chain, env)
    ensures Same(SessionSeen(t, env, chain, params, verdicts),
                 Session(t, env(BLANK), Blanked(chain), params, verdicts))
    ensures AnsweredSeen(t, env, chain, params, verdicts) ==
            Answered(t, env(BLANK), Blanked(chain), params, verdicts)
    decreases |verdicts|
  {
    if verdicts == [] {
      FirstLegIsBlank(t, env, chain, params, map[]);
    } else {
      var front, last := verdicts[..|verdicts| - 1], verdicts[|verdicts| - 1];
      SessionIsBlank(t, env, chain, params, front);
      var before := Session(t, env(BLANK), Blanked(chain), params, front);
      if before.stop.Paused? {
        SeenIsBlank(chain, env, map[before.stop.at := last], before.stop.at, Saved(before), BLANK,
                    [ResumedRow(last)], [ResumedRow(last)]);
      }
    }
  }

  lemma UnreadInvisible(t: Template, env: Setting, chain: seq<Reader>, params: Pool, verdicts: seq<Json>)
    requires SamePreflight(env) && AllUnread(chain, env)
    ensures Invisible(t, env, chain, params, verdicts)
  {
    var answers := AnsweredSeen(t, env, chain, params, verdicts);
    SessionIsBlank(t, env, chain, params, verdicts);
    FirstLegIsBlank(t, env, chain, params, answers);
    PausingInvisible(t, env(BLANK), Blanked(chain), params, verdicts);
  }

  // --------------------------------------------------- what is read shows

  function Hands(value: Json, notes: seq<string>): Hook
  {
    Hook([], false, (kwargs: map<string, Json>, attempt: nat) => Effect(Product(value), notes, "", map[]))
  }

  /** A step that produces this, and takes these notes. */
  function Setter(name: string, key: string, value: Json, notes: seq<string>): Step
  {
    Step(name, Local, key, [], Some(Hands(value, notes)), "", [], "", "", "", "", "")
  }

  function Asker(name: string, key: string): Step
  {
    Step(name, Gate, key, [], None, "", [], "", "", "", "", "")
  }

  lemma SummaryIsFree(value: Json, env: Env)
    ensures Summary(value, [], env).Keys !! GRAPH_NAMES
  {
  }

  lemma SetterPerforms(name: string, key: string, value: Json, notes: seq<string>, env: Env, pool: Pool)
    requires name !in env.hooks
    ensures Perform(Setter(name, key, value, notes), env, pool) ==
            Ran("default", Effect(Product(value), notes, "", map[]))
  {
    var step := Setter(name, key, value, notes);
    assert !Missing(step.default.value, pool);
  }

  lemma SetterWorks(name: string, key: string, value: Json, notes: seq<string>, env: Env, pool: Pool,
                    answer: Option<Json>)
    requires name !in env.hooks
    ensures
      var e := NodeEffect(StepNode(Setter(name, key, value, notes)), env, pool, answer);
      e.Does? && e.work.end == Produced(value, notes, StepRecord(name, "local", "default", key))
  {
    var step := Setter(name, key, value, notes);
    SetterPerforms(name, key, value, notes, env, pool);
    SummaryIsFree(value, env);
    var effect := Effect(Product(value), notes, "", map[]);
    assert SpreadDetail(step, effect, env) == Summary(value, [], env);
    assert !Collides(step, effect, env, GRAPH_NAMES);
  }

  /** The steps that make the pool what it is to be; the first takes the notes. */
  function Setters(keys: seq<string>, pool: Pool, notes: seq<string>, base: string): (chain: seq<Reader>)
    requires forall key :: key in keys ==> key in pool
    ensures |chain| == |keys|
  {
    seq(|keys|, i requires 0 <= i < |keys| =>
      (seen: Seen) => StepNode(Setter(base + "s" + keys[i], keys[i], pool[keys[i]], if i == 0 then notes else [])))
  }

  /** ... then a gate, and the node in question. */
  function Showing(keys: seq<string>, pool: Pool, notes: seq<string>, base: string, node: Reader): (chain: seq<Reader>)
    requires keys != [] && forall key :: key in keys ==> key in pool
    ensures |chain| == |keys| + 2
  {
    Setters(keys, pool, notes, base) + [(seen: Seen) => StepNode(Asker(base + "g", keys[0])), node]
  }

  /** No hook of the workflow has this name, nor could it with more behind it. */
  ghost predicate FreshFor(base: string, env: Setting, seen: Seen)
  {
    forall name :: name in env(seen).hooks ==> |name| < |base|
  }

  lemma {:induction false} LongerThanAll(names: set<string>) returns (base: string)
    ensures forall name :: name in names ==> |name| < |base|
  {
    if names == {} {
      base := "x";
    } else {
      var name :| name in names;
      base := LongerThanAll(names - {name});
      if |base| <= |name| { base := name + "x"; }
    }
  }

  // What the setters leave.

  function NotesOf(notes: seq<string>, j: nat): seq<string>
  {
    if j == 0 then notes else []
  }

  function RecordOf(base: string, key: string): StepRecord
  {
    StepRecord(base + "s" + key, "local", "default", key)
  }

  function SeenAfter(seen: Seen, j: nat): Seen
  {
    Seen(seen.params, if j == 0 then [] else seen.notes)
  }

  /** The state after the first `j` of them. */
  function After(seen: Seen, keys: seq<string>, pool: Pool, base: string, j: nat): GraphState
    requires j <= |keys| && forall key :: key in keys ==> key in pool
  {
    if j == 0 then Initial(seen.params)
    else
      Merge(After(seen, keys, pool, base, j - 1), pool[keys[j - 1]], NotesOf(seen.notes, j - 1),
            RecordOf(base, keys[j - 1]))
  }

  lemma {:induction false} AfterHolds(seen: Seen, keys: seq<string>, pool: Pool, base: string, j: nat)
    requires j <= |keys| && (forall key :: key in keys ==> key in pool) && seen.params.Keys <= pool.Keys
    ensures var now := After(seen, keys, pool, base, j).pool;
            && (forall key :: key in keys[..j] ==> key in now && now[key] == pool[key])
            && now.Keys == seen.params.Keys + set key | key in keys[..j]
  {
    if j > 0 {
      AfterHolds(seen, keys, pool, base, j - 1);
      assert keys[..j] == keys[..j - 1] + [keys[j - 1]];
    }
  }

  lemma AllSet(seen: Seen, keys: seq<string>, pool: Pool, base: string)
    requires (forall key :: key in keys <==> key in pool) && seen.params.Keys <= pool.Keys
    ensures After(seen, keys, pool, base, |keys|).pool == pool
  {
    AfterHolds(seen, keys, pool, base, |keys|);
    assert keys[..|keys|] == keys;
  }

  /** The chain starts with such steps, and they work under this `ctx`. */
  ghost predicate StartsWithSetters(chain: seq<Reader>, env: Setting, seen: Seen, keys: seq<string>, pool: Pool,
                                    base: string)
  {
    && |keys| <= |chain| && (forall key :: key in keys ==> key in pool)
    && forall j: nat, at, answer {:trigger OutcomeOf(chain[j], env, SeenAfter(seen, j), at, answer)} :: j < |keys| ==>
         OutcomeOf(chain[j], env, SeenAfter(seen, j), at, answer) ==
         Gets("", Produced(pool[keys[j]], NotesOf(seen.notes, j), RecordOf(base, keys[j])))
  }

  lemma SettersStart(keys: seq<string>, pool: Pool, base: string, node: Reader, env: Setting, seen: Seen)
    requires keys != [] && (forall key :: key in keys ==> key in pool)
    requires FreshFor(base, env, Seen(seen.params, [])) && FreshFor(base, env, seen)
    ensures StartsWithSetters(Showing(keys, pool, seen.notes, base, node), env, seen, keys, pool, base)
  {
    var chain := Showing(keys, pool, seen.notes, base, node);
    forall j: nat, at, answer | j < |keys|
      ensures OutcomeOf(chain[j], env, SeenAfter(seen, j), at, answer) ==
              Gets("", Produced(pool[keys[j]], NotesOf(seen.notes, j), RecordOf(base, keys[j])))
    {
      SetterWorks(base + "s" + keys[j], keys[j], pool[keys[j]], NotesOf(seen.notes, j), env(SeenAfter(seen, j)),
                  at, answer);
    }
  }

  /** Where a pass stands: it has come to node `k` in this state. */
  datatype Stand = Stand(k: nat, s: GraphState, seen: Seen, rows: seq<Row>)

  function From(chain: seq<Reader>, env: Setting, a: map<nat, Json>, x: Stand): Report
    requires x.k <= |chain|
  {
    SeenFrom(chain, env, a, x.k, x.s, x.seen, x.rows)
  }

  /** One node further, if the node produces something. */
  function Further(chain: seq<Reader>, env: Setting, a: map<nat, Json>, x: Stand): Stand
    requires x.k < |chain|
  {
    match EffectOf(chain[x.k], env, x.seen, x.s.pool, AnswerAt(a, x.k))
    case Waits(_) => x
    case Does(w) =>
      match w.end
      case Produced(value, notes, record) =>
        Stand(x.k + 1, Merge(x.s, value, notes, record), x.seen.(notes := x.seen.notes + notes), x.rows + w.rows)
      case _ => x
  }

  lemma OneOn(chain: seq<Reader>, env: Setting, a: map<nat, Json>, x: Stand, value: Json, notes: seq<string>,
              record: StepRecord) returns (y: Stand)
    requires x.k < |chain|
    requires OutcomeOf(chain[x.k], env, x.seen, x.s.pool, AnswerAt(a, x.k)) == Gets("", Produced(value, notes, record))
    ensures y == Further(chain, env, a, x)
    ensures y.k == x.k + 1 && y.s == Merge(x.s, value, notes, record)
    ensures y.seen == Seen(x.seen.params, x.seen.notes + notes)
    ensures From(chain, env, a, x) == From(chain, env, a, y)
  {
    var added := SeenGoesOn(chain, env, a, x.k, x.s, x.seen, x.rows);
    y := Stand(x.k + 1, Merge(x.s, value, notes, record), x.seen.(notes := x.seen.notes + notes), x.rows + added);
  }

  // A pass through the setters, stand by stand.

  function Iterated<S>(next: S -> S, s: S, n: nat): S
  {
    if n == 0 then s else next(Iterated(next, s, n - 1))
  }

  /** This step keeps the invariant, and the view. */
  ghost predicate Keeps<S(!new), R(!new)>(next: S -> S, view: S -> R, holds: (S, nat) -> bool, s: S, i: nat)
  {
    holds(s, i) ==> holds(next(s), i + 1) && view(next(s)) == view(s)
  }

  lemma {:induction false} IteratedKeeps<S(!new), R(!new)>(next: S -> S, view: S -> R, holds: (S, nat) -> bool, s: S,
                                                          n: nat)
    requires holds(s, 0) && forall x: S, i: nat :: i < n ==> Keeps(next, view, holds, x, i)
    ensures holds(Iterated(next, s, n), n) && view(Iterated(next, s, n)) == view(s)
  {
    if n > 0 {
      IteratedKeeps(next, view, holds, s, n - 1);
      assert Keeps(next, view, holds, Iterated(next, s, n - 1), n - 1);
    }
  }

  function Beginning(seen: Seen, rows: seq<Row>): Stand
  {
    Stand(0, Initial(seen.params), Seen(seen.params, []), rows)
  }

  /** After `j` setters a pass stands here. */
  ghost predicate StandsAfter(x: Stand, seen: Seen, keys: seq<string>, pool: Pool, base: string, j: nat)
    requires j <= |keys| && forall key :: key in keys ==> key in pool
  {
    x.k == j && x.s == After(seen, keys, pool, base, j) && x.seen == SeenAfter(seen, j)
  }

  lemma NextSetter(chain: seq<Reader>, env: Setting, a: map<nat, Json>, seen: Seen, keys: seq<string>, pool: Pool,
                   base: string, x: Stand)
    requires StartsWithSetters(chain, env, seen, keys, pool, base) && x.k < |keys|
    requires StandsAfter(x, seen, keys, pool, base, x.k)
    ensures StandsAfter(Further(chain, env, a, x), seen, keys, pool, base, x.k + 1)
    ensures From(chain, env, a, x) == From(chain, env, a, Further(chain, env, a, x))
  {
    SetterAt(chain, env, seen, keys, pool, base, x.k, x.s.pool, AnswerAt(a, x.k));
    var y := OneOn(chain, env, a, x, pool[keys[x.k]], NotesOf(seen.notes, x.k), RecordOf(base, keys[x.k]));
    NextAfter(seen, keys, pool, base, x, y);
  }

  lemma NextAfter(seen: Seen, keys: seq<string>, pool: Pool, base: string, x: Stand, y: Stand)
    requires x.k < |keys| && forall key :: key in keys ==> key in pool
    requires StandsAfter(x, seen, keys, pool, base, x.k) && y.k == x.k + 1
    requires y.s == Merge(x.s, pool[keys[x.k]], NotesOf(seen.notes, x.k), RecordOf(base, keys[x.k]))
    requires y.seen == Seen(x.seen.params, x.seen.notes + NotesOf(seen.notes, x.k))
    ensures StandsAfter(y, seen, keys, pool, base, x.k + 1)
  {
  }

  lemma SetterAt(chain: seq<Reader>, env: Setting, seen: Seen, keys: seq<string>, pool: Pool, base: string, j: nat,
                 at: Pool, answer: Option<Json>)
    requires StartsWithSetters(chain, env, seen, keys, pool, base) && j < |keys|
    ensures OutcomeOf(chain[j], env, SeenAfter(seen, j), at, answer) ==
            Gets("", Produced(pool[keys[j]], NotesOf(seen.notes, j), RecordOf(base, keys[j])))
  {
  }

  /** The report of the pass that stands there. */
  function ReportAt(chain: seq<Reader>, env: Setting, a: map<nat, Json>, x: Stand): Report
  {
    if x.k <= |chain| then From(chain, env, a, x) else Report(NotStarted, map[], [], [], [])
  }

  lemma NextReport(chain: seq<Reader>, env: Setting, a: map<nat, Json>, seen: Seen, keys: seq<string>, pool: Pool,
                   base: string, x: Stand, i: nat)
    requires StartsWithSetters(chain, env, seen, keys, pool, base) && i < |keys|
    requires StandsAfter(x, seen, keys, pool, base, i)
    ensures x.k < |chain| && StandsAfter(Further(chain, env, a, x), seen, keys, pool, base, i + 1)
    ensures ReportAt(chain, env, a, Further(chain, env, a, x)) == ReportAt(chain, env, a, x)
  {
    NextSetter(chain, env, a, seen, keys, pool, base, x);
  }

  lemma SettersKeep(chain: seq<Reader>, env: Setting, a: map<nat, Json>, seen: Seen, keys: seq<string>, pool: Pool,
                    base: string, start: Stand) returns (y: Stand)
    requires StartsWithSetters(chain, env, seen, keys, pool, base)
    requires StandsAfter(start, seen, keys, pool, base, 0)
    ensures StandsAfter(y, seen, keys, pool, base, |keys|)
    ensures ReportAt(chain, env, a, start) == ReportAt(chain, env, a, y)
  {
    var next := (x: Stand) => if x.k < |chain| then Further(chain, env, a, x) else x;
    var view := (x: Stand) => ReportAt(chain, env, a, x);
    var holds := (x: Stand, i: nat) => i <= |keys| && StandsAfter(x, seen, keys, pool, base, i);
    forall x: Stand, i: nat | i < |keys| ensures Keeps(next, view, holds, x, i) {
      if holds(x, i) { NextReport(chain, env, a, seen, keys, pool, base, x, i); }
    }
    IteratedKeeps(next, view, holds, start, |keys|);
    y := Iterated(next, start, |keys|);
  }

  /** The pass gets through them, whatever the answers. */
  lemma SettersRun(chain: seq<Reader>, env: Setting, a: map<nat, Json>, seen: Seen, keys: seq<string>, pool: Pool,
                   base: string, rows: seq<Row>) returns (y: Stand)
    requires StartsWithSetters(chain, env, seen, keys, pool, base)
    ensures StandsAfter(y, seen, keys, pool, base, |keys|)
    ensures From(chain, env, a, Beginning(seen, rows)) == From(chain, env, a, y)
  {
    y := SettersKeep(chain, env, a, seen, keys, pool, base, Beginning(seen, rows));
  }

  // The gate behind them.

  lemma GateAnswers(keys: seq<string>, pool: Pool, notes: seq<string>, base: string, node: Reader, env: Setting,
                    ctx: Seen, at: Pool, answer: Option<Json>)
    requires keys != [] && (forall key :: key in keys ==> key in pool)
    ensures
      var o := OutcomeOf(Showing(keys, pool, notes, base, node)[|keys|], env, ctx, at, answer);
      if answer.None? then o.Asks?
      else o == Gets("", Produced(answer.value, [], StepRecord(base + "g", "gate", "human", keys[0])))
  {
  }

  /** Answered with what the pool has there, it goes on in the same pool. */
  lemma GateLeads(chain: seq<Reader>, env: Setting, a: map<nat, Json>, x: Stand, key: string, record: StepRecord)
    returns (y: Stand)
    requires x.k < |chain| && key in x.s.pool && record.produced == key
    requires OutcomeOf(chain[x.k], env, x.seen, x.s.pool, AnswerAt(a, x.k)) ==
             Gets("", Produced(x.s.pool[key], [], record))
    ensures y.k == x.k + 1 && y.s == Merge(x.s, x.s.pool[key], [], record) && y.s.pool == x.s.pool && y.seen == x.seen
    ensures From(chain, env, a, x) == From(chain, env, a, y)
  {
    y := OneOn(chain, env, a, x, x.s.pool[key], [], record);
    assert x.seen.notes + [] == x.seen.notes;
  }

  /** Two passes at the last node, which comes to different things in them, end
      differently. */
  lemma LastNodeShows(chain: seq<Reader>, env: Setting, a: map<nat, Json>, x: Stand, y: Stand)
    requires x.k + 1 == |chain| && y.k == x.k && x.s == y.s && AnswerAt(a, x.k) == None
    requires OutcomeOf(chain[x.k], env, x.seen, x.s.pool, None) != OutcomeOf(chain[x.k], env, y.seen, x.s.pool, None)
    requires GateOrNot(chain[x.k])
    ensures !Same(From(chain, env, a, x), From(chain, env, a, y))
  {
    NotAGate(chain[x.k], env, x.seen, y.seen, x.s.pool);
    LastNode(chain, env, a, x);
    LastNode(chain, env, a, y);
    EndsApart(x.s, OutcomeOf(chain[x.k], env, x.seen, x.s.pool, None), OutcomeOf(chain[x.k], env, y.seen, x.s.pool, None),
              From(chain, env, a, x), From(chain, env, a, y));
  }

  /** How the report of a pass shows what its last node came to. */
  ghost predicate EndsAs(s: GraphState, o: Outcome, r: Report)
  {
    && o.Gets?
    && if o.end.Produced? then
         && o.name == "" && r.stop == Finished
         && r.pool == s.pool[o.end.record.produced := o.end.value]
         && r.steps == s.steps + [o.end.record] && r.notes == s.notes + o.end.notes
       else r.stop == StopOf(o.name, o.end)
  }

  lemma EndsApart(s: GraphState, o: Outcome, o': Outcome, r: Report, r': Report)
    requires EndsAs(s, o, r) && EndsAs(s, o', r') && o != o'
    ensures !Same(r, r')
  {
    if o.end.Produced? && o'.end.Produced? {
      assert r.steps[|s.steps|] == o.end.record && r'.steps[|s.steps|] == o'.end.record;
      Put(s.pool, o.end.record.produced, o.end.value);
      Put(s.pool, o'.end.record.produced, o'.end.value);
      assert r.notes[|s.notes|..] == o.end.notes && r'.notes[|s.notes|..] == o'.end.notes;
    }
  }

  lemma Put(pool: Pool, key: string, value: Json)
    ensures key in pool[key := value] && pool[key := value][key] == value
  {
  }

  lemma NotAGate(node: Reader, env: Setting, seen: Seen, seen': Seen, pool: Pool)
    requires GateOrNot(node)
    requires OutcomeOf(node, env, seen, pool, None) != OutcomeOf(node, env, seen', pool, None)
    ensures !IsGate(node(seen)) && !IsGate(node(seen'))
  {
    assert IsGate(node(seen)) == IsGate(node(BLANK)) == IsGate(node(seen'));
  }

  lemma LastNode(chain: seq<Reader>, env: Setting, a: map<nat, Json>, x: Stand)
    requires x.k + 1 == |chain| && AnswerAt(a, x.k) == None && !IsGate(chain[x.k](x.seen))
    ensures EndsAs(x.s, OutcomeOf(chain[x.k], env, x.seen, x.s.pool, None),
                   From(chain, env, a, x))
  {
    if OutcomeOf(chain[x.k], env, x.seen, x.s.pool, None).end.Produced? {
      var added := SeenGoesOn(chain, env, a, x.k, x.s, x.seen, x.rows);
    } else {
      SeenStops(chain, env, a, x.k, x.s, x.seen, x.rows);
    }
  }

  // ------------------------------------------------------------- the condition

  lemma {:induction false} KeysInOrder(keys: set<string>) returns (order: seq<string>)
    ensures forall key :: key in order <==> key in keys
    ensures forall i, j :: 0 <= i < j < |order| ==> order[i] != order[j]
  {
    if keys == {} {
      order := [];
    } else {
      var key :| key in keys;
      var rest := KeysInOrder(keys - {key});
      order := [key] + rest;
    }
  }

  /** A chain that is legitimate: names are distinct, gates are gates; and no node
      but this one reads `ctx`. */
  ghost predicate OnlyReader(chain: seq<Reader>, env: Setting, node: Reader)
  {
    && Distinct(Names(Blanked(chain)))
    && forall i :: 0 <= i < |chain| ==> GateOrNot(chain[i]) && (chain[i] == node || Unread(chain[i], env))
  }

  /** The first leg stops at the gate. */
  lemma FirstLegPauses(t: Template, env: Setting, chain: seq<Reader>, seen: Seen, keys: seq<string>, pool: Pool,
                       base: string, node: Reader)
    requires env(Seen(seen.params, [])).absent == []
    requires keys != [] && (forall key :: key in keys ==> key in pool)
    requires chain == Showing(keys, pool, seen.notes, base, node)
    requires StartsWithSetters(chain, env, seen, keys, pool, base)
    ensures var r := FirstLegSeen(t, env, chain, seen.params);
            r.stop.Paused? && r.stop.at == |keys| && Saved(r) == After(seen, keys, pool, base, |keys|)
  {
    var m, s := |keys|, After(seen, keys, pool, base, |keys|);
    var opening := Opening(t, env(Seen(seen.params, [])));
    var r := FirstLegSeen(t, env, chain, seen.params);
    var x := SettersRun(chain, env, map[], seen, keys, pool, base, opening);
    GateAnswers(keys, pool, seen.notes, base, node, env, SeenAfter(seen, m), s.pool, None);
    SeenStops(chain, env, map[], m, s, SeenAfter(seen, m), x.rows);
  }

  /** One verdict: a resumed leg, against a pass with that answer. */
  lemma OneVerdict(t: Template, env: Setting, chain: seq<Reader>, params: Pool, verdict: Json)
    requires FirstLegSeen(t, env, chain, params).stop.Paused?
    ensures
      var before := FirstLegSeen(t, env, chain, params);
      var a: map<nat, Json> := map[before.stop.at := verdict];
      && SessionSeen(t, env, chain, params, [verdict]) ==
         SeenFrom(chain, env, a, before.stop.at, Saved(before), BLANK, [ResumedRow(verdict)])
      && AnsweredSeen(t, env, chain, params, [verdict]) == a
  {
    assert [verdict][..0] == [];
    assert SessionSeen(t, env, chain, params, []) == FirstLegSeen(t, env, chain, params);
    assert AnsweredSeen(t, env, chain, params, []) == map[];
  }

  /** From the answered gate on, the two go apart at the node behind it. */
  lemma GoApart(env: Setting, chain: seq<Reader>, seen: Seen, keys: seq<string>, pool: Pool, base: string,
                node: Reader, a: map<nat, Json>, x: Stand, y: Stand)
    requires keys != [] && (forall key :: key in keys ==> key in pool)
    requires chain == Showing(keys, pool, seen.notes, base, node) && a == map[|keys| := pool[keys[0]]]
    requires x.k == y.k == |keys| && x.s == y.s && x.s.pool == pool && x.seen == seen && y.seen == BLANK
    requires GateOrNot(node) && OutcomeOf(node, env, seen, pool, None) != OutcomeOf(node, env, BLANK, pool, None)
    ensures !Same(From(chain, env, a, x), From(chain, env, a, y))
  {
    var record := StepRecord(base + "g", "gate", "human", keys[0]);
    assert AnswerAt(a, |keys|) == Some(pool[keys[0]]) && AnswerAt(a, |keys| + 1) == None;
    GateAnswers(keys, pool, seen.notes, base, node, env, seen, pool, AnswerAt(a, |keys|));
    GateAnswers(keys, pool, seen.notes, base, node, env, BLANK, pool, AnswerAt(a, |keys|));
    var x' := GateLeads(chain, env, a, x, keys[0], record);
    var y' := GateLeads(chain, env, a, y, keys[0], record);
    assert chain[|keys| + 1] == node;
    LastNodeShows(chain, env, a, x', y');
  }

  /** A run that goes through such a chain shows the difference. */
  lemma DifferenceShows(t: Template, env: Setting, chain: seq<Reader>, seen: Seen, keys: seq<string>, pool: Pool,
                        base: string, node: Reader)
    requires env(Seen(seen.params, [])).absent == []
    requires keys != [] && (forall key :: key in keys <==> key in pool) && seen.params.Keys <= pool.Keys
    requires chain == Showing(keys, pool, seen.notes, base, node)
    requires FreshFor(base, env, Seen(seen.params, [])) && FreshFor(base, env, seen)
    requires GateOrNot(node) && OutcomeOf(node, env, seen, pool, None) != OutcomeOf(node, env, BLANK, pool, None)
    ensures !Invisible(t, env, chain, seen.params, [pool[keys[0]]])
  {
    var verdict, m, rows := pool[keys[0]], |keys|, Opening(t, env(Seen(seen.params, [])));
    var a: map<nat, Json> := map[m := verdict];
    SettersStart(keys, pool, base, node, env, seen);
    AllSet(seen, keys, pool, base);
    FirstLegPauses(t, env, chain, seen, keys, pool, base, node);
    OneVerdict(t, env, chain, seen.params, verdict);
    var s := After(seen, keys, pool, base, m);
    var r := UncutSeen(t, env, chain, seen.params, a);
    var uncut := SettersRun(chain, env, a, seen, keys, pool, base, rows);
    GoApart(env, chain, seen, keys, pool, base, node, a, uncut, Stand(m, s, BLANK, [ResumedRow(verdict)]));
  }

  /** Such a chain is legitimate: the setters and the gate read nothing, and have
      names of their own. */
  lemma ShowingOnlyReads(env: Setting, keys: seq<string>, pool: Pool, notes: seq<string>, base: string, node: Reader)
    requires keys != [] && (forall key :: key in keys ==> key in pool) && GateOrNot(node)
    requires forall i, j :: 0 <= i < j < |keys| ==> keys[i] != keys[j]
    requires forall seen :: FreshFor(base, env, seen)
    requires |node(BLANK).Name()| < |base|
    ensures OnlyReader(Showing(keys, pool, notes, base, node), env, node)
  {
    var chain := Showing(keys, pool, notes, base, node);
    ShowingNames(keys, pool, notes, base, node);
    forall i | 0 <= i < |chain| ensures GateOrNot(chain[i]) && (chain[i] == node || Unread(chain[i], env)) {
      if i < |keys| {
        SetterUnread(keys, pool, notes, base, node, env, i);
      } else if i == |keys| {
        AskerUnread(keys, pool, notes, base, node, env);
      }
    }
  }

  lemma SetterUnread(keys: seq<string>, pool: Pool, notes: seq<string>, base: string, node: Reader, env: Setting, i: nat)
    requires keys != [] && (forall key :: key in keys ==> key in pool) && i < |keys|
    requires forall seen :: FreshFor(base, env, seen)
    ensures var n := Showing(keys, pool, notes, base, node)[i]; GateOrNot(n) && Unread(n, env)
  {
    var n := Showing(keys, pool, notes, base, node)[i];
    forall seen, at | Possible(seen, at)
      ensures OutcomeOf(n, env, seen, at, None) == OutcomeOf(n, env, BLANK, at, None)
    {
      assert FreshFor(base, env, seen) && FreshFor(base, env, BLANK);
      SetterWorks(base + "s" + keys[i], keys[i], pool[keys[i]], NotesOf(notes, i), env(seen), at, None);
      SetterWorks(base + "s" + keys[i], keys[i], pool[keys[i]], NotesOf(notes, i), env(BLANK), at, None);
    }
  }

  lemma AskerUnread(keys: seq<string>, pool: Pool, notes: seq<string>, base: string, node: Reader, env: Setting)
    requires keys != [] && (forall key :: key in keys ==> key in pool)
    ensures var n := Showing(keys, pool, notes, base, node)[|keys|]; GateOrNot(n) && Unread(n, env)
  {
  }

  lemma ShowingNames(keys: seq<string>, pool: Pool, notes: seq<string>, base: string, node: Reader)
    requires keys != [] && (forall key :: key in keys ==> key in pool)
    requires forall i, j :: 0 <= i < j < |keys| ==> keys[i] != keys[j]
    requires |node(BLANK).Name()| < |base|
    ensures Distinct(Names(Blanked(Showing(keys, pool, notes, base, node))))
  {
    var names := Names(Blanked(Showing(keys, pool, notes, base, node)));
    forall i | 0 <= i < |keys| ensures names[i] == base + ("s" + keys[i]) {
      Associative(base, "s", keys[i]);
    }
    assert names[|keys|] == base + "g" && names[|keys| + 1] == node(BLANK).Name();
    forall i, j | 0 <= i < j < |names| ensures names[i] != names[j] {
      if j < |keys| {
        assert keys[i] != keys[j];
        assert ("s" + keys[i])[1..] == keys[i] && ("s" + keys[j])[1..] == keys[j];
        NamesApart(base, "s" + keys[i], "s" + keys[j]);
      } else if j == |keys| {
        assert ("s" + keys[i])[0] != "g"[0];
        NamesApart(base, "s" + keys[i], "g");
      } else {
        assert |names[i]| > |base| > |names[j]|;
      }
    }
  }

  lemma NamesApart(base: string, a: string, b: string)
    ensures a != b ==> base + a != base + b
  {
    assert (base + a)[|base|..] == a && (base + b)[|base|..] == b;
  }

  /** The hooks of the workflow file have the same names under any `ctx`. */
  ghost predicate SameNames(env: Setting)
  {
    forall seen {:trigger env(seen)} :: env(seen).hooks.Keys == env(BLANK).hooks.Keys
  }

  /** The theorem with hooks that read `ctx`: pausing is invisible in every run, on
      every chain in which this node is the only one that may read it, if and only
      if the node comes to the same whatever params and notes it is handed. */
  lemma PausingInvisibleIff(t: Template, env: Setting, node: Reader)
    requires SamePreflight(env) && SameNames(env) && env(BLANK).absent == [] && GateOrNot(node)
    ensures (forall chain, params, verdicts :: OnlyReader(chain, env, node) ==>
               Invisible(t, env, chain, params, verdicts)) <==>
            Unread(node, env)
  {
    if Unread(node, env) {
      forall chain, params, verdicts | OnlyReader(chain, env, node) ensures Invisible(t, env, chain, params, verdicts) {
        UnreadInvisible(t, env, chain, params, verdicts);
      }
    } else {
      var chain, params, verdicts := PausingShows(t, env, node);
    }
  }

  lemma PausingShows(t: Template, env: Setting, node: Reader) returns (chain: seq<Reader>, params: Pool, verdicts: seq<Json>)
    requires SamePreflight(env) && SameNames(env) && env(BLANK).absent == [] && GateOrNot(node) && !Unread(node, env)
    ensures OnlyReader(chain, env, node) && !Invisible(t, env, chain, params, verdicts)
  {
    var seen, pool :| Possible(seen, pool) && OutcomeOf(node, env, seen, pool, None) != OutcomeOf(node, env, BLANK, pool, None);
    var keys := KeysInOrder(pool.Keys);
    var base := LongerThanAll(env(BLANK).hooks.Keys + {node(BLANK).Name()});
    forall ctx ensures FreshFor(base, env, ctx) {
      assert env(ctx).hooks.Keys == env(BLANK).hooks.Keys;
    }
    assert env(Seen(seen.params, [])).absent == env(BLANK).absent;
    var key :| key in pool;
    assert key in keys;
    chain := Showing(keys, pool, seen.notes, base, node);
    ShowingOnlyReads(env, keys, pool, seen.notes, base, node);
    DifferenceShows(t, env, chain, seen, keys, pool, base, node);
    params, verdicts := seen.params, [pool[keys[0]]];
  }

  /** A step that hands on what `ctx.params` holds. */
  function Digest(seen: Seen): Node
  {
    StepNode(Setter("digest", "digest", Obj(seen.params), []))
  }

  /** Such a hook, concretely: some run of it is not what it would be uncut. */
  lemma ParamsReaderShows(t: Template, env: Setting) returns (chain: seq<Reader>, params: Pool, verdicts: seq<Json>)
    requires SamePreflight(env) && SameNames(env) && env(BLANK).absent == [] && "digest" !in env(BLANK).hooks
    ensures OnlyReader(chain, env, Digest) && !Invisible(t, env, chain, params, verdicts)
  {
    var pool: Pool := map["q" := Null];
    var seen := Seen(pool, []);
    assert env(seen).hooks.Keys == env(BLANK).hooks.Keys;
    SetterWorks("digest", "digest", Obj(seen.params), [], env(seen), pool, None);
    SetterWorks("digest", "digest", Obj(BLANK.params), [], env(BLANK), pool, None);
    assert "q" in seen.params && "q" !in BLANK.params;
    assert Possible(seen, pool);
    chain, params, verdicts := PausingShows(t, env, Digest);
  }
}
