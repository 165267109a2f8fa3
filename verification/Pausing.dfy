/** Pausing is invisible: a run cut at its gates and resumed, each time in a
    fresh context, comes to what one uninterrupted pass would have come to. */
module Pausing {
  import opened JsonValues
  import opened Templates
  import opened Execution
  import opened GraphBuild
  import opened Sequential
  import opened Strings
  import opened GraphRun

  // -------------------------------------------------------------- a run in legs

  /** What a paused leg left in the checkpoint. */
  function Saved(r: Report): GraphState
  {
    GraphState(r.pool, r.notes, r.steps)
  }

  /** The last leg, after a first leg and one resumption for each verdict. A run
      that is not paused takes no further verdict. */
  function Session(t: Template, env: Env, chain: seq<Node>, params: Pool, verdicts: seq<Json>): (r: Report)
    ensures r.stop.Paused? ==> r.stop.at < |chain|
    decreases |verdicts|
  {
    if verdicts == [] then FirstLeg(t, env, chain, params)
    else
      var before := Session(t, env, chain, params, verdicts[..|verdicts| - 1]);
      if before.stop.Paused? then ResumedLeg(env, chain, before.stop.at, Saved(before), verdicts[|verdicts| - 1])
      else before
  }

  /** Which gate each verdict went to. */
  function Answered(t: Template, env: Env, chain: seq<Node>, params: Pool, verdicts: seq<Json>): map<nat, Json>
    decreases |verdicts|
  {
    if verdicts == [] then map[]
    else
      var front, last := verdicts[..|verdicts| - 1], verdicts[|verdicts| - 1];
      var before := Session(t, env, chain, params, front);
      var answers := Answered(t, env, chain, params, front);
      if before.stop.Paused? then answers[before.stop.at := last] else answers
  }

  /** One uninterrupted pass in which the gates simply produce `answers`. */
  function Uncut(t: Template, env: Env, chain: seq<Node>, params: Pool, answers: map<nat, Json>): Report
  {
    if env.absent != [] then Report(NotStarted, params, [], [], Opening(t, env))
    else GraphFrom(chain, env, answers, 0, Initial(params), Opening(t, env))
  }

  /** The nodes whose own work is done from node `k` on: every node but the gates. */
  function WorkedFrom(chain: seq<Node>, env: Env, answers: map<nat, Json>, k: nat, s: GraphState): seq<nat>
    requires k <= |chain|
    decreases |chain| - k
  {
    if k == |chain| then []
    else
      match NodeEffect(chain[k], env, s.pool, AnswerAt(answers, k))
      case Waits(_) => []
      case Does(w) =>
        (if IsGate(chain[k]) then [] else [k]) +
        match w.end
        case Produced(value, notes, record) => WorkedFrom(chain, env, answers, k + 1, Merge(s, value, notes, record))
        case _ => []
  }

  predicate IsGate(n: Node)
  {
    n.StepNode? && n.step.executor == Gate
  }

  /** The nodes worked over all the legs of a session, in the order they ran. */
  function SessionWorked(t: Template, env: Env, chain: seq<Node>, params: Pool, verdicts: seq<Json>): seq<nat>
    decreases |verdicts|
  {
    if verdicts == [] then
      if env.absent != [] then [] else WorkedFrom(chain, env, map[], 0, Initial(params))
    else
      var front, last := verdicts[..|verdicts| - 1], verdicts[|verdicts| - 1];
      var before := Session(t, env, chain, params, front);
      SessionWorked(t, env, chain, params, front) +
      if before.stop.Paused? then
        WorkedFrom(chain, env, map[before.stop.at := last], before.stop.at, Saved(before))
      else []
  }

  // ---------------------------------------------------------------------- the proof

  /** The same result, whatever was logged on the way. */
  ghost predicate Same(a: Report, b: Report)
  {
    a.stop == b.stop && a.pool == b.pool && a.steps == b.steps && a.notes == b.notes
  }

  /** The node `k` of a pass produces something. */
  predicate GoesOn(chain: seq<Node>, env: Env, a: map<nat, Json>, k: nat, s: GraphState)
    requires k < |chain|
  {
    var e := NodeEffect(chain[k], env, s.pool, AnswerAt(a, k));
    e.Does? && e.work.end.Produced?
  }

  lemma GoesOnTo(chain: seq<Node>, env: Env, a: map<nat, Json>, k: nat, s: GraphState, rows: seq<Row>)
    requires k < |chain| && GoesOn(chain, env, a, k, s)
    ensures
      var w := NodeEffect(chain[k], env, s.pool, AnswerAt(a, k)).work;
      var next := Merge(s, w.end.value, w.end.notes, w.end.record);
      && GraphFrom(chain, env, a, k, s, rows) == GraphFrom(chain, env, a, k + 1, next, rows + w.rows)
      && WorkedFrom(chain, env, a, k, s) ==
         (if IsGate(chain[k]) then [] else [k]) + WorkedFrom(chain, env, a, k + 1, next)
  {
  }

  /** The answers are the same from node `k` on. */
  ghost predicate AgreeAhead(a: map<nat, Json>, b: map<nat, Json>, k: nat)
  {
    forall i {:trigger AnswerAt(a, i)} {:trigger AnswerAt(b, i)} :: k <= i ==> AnswerAt(a, i) == AnswerAt(b, i)
  }

  /** How a pass ends at a node that produces nothing. */
  lemma StopsWith(chain: seq<Node>, env: Env, a: map<nat, Json>, k: nat, s: GraphState, rows: seq<Row>) returns (stop: Stop)
    requires k < |chain| && !GoesOn(chain, env, a, k, s)
    ensures stop == match NodeEffect(chain[k], env, s.pool, AnswerAt(a, k))
                    case Waits(payload) => Paused(k, payload)
                    case Does(w) =>
                      match w.end
                      case Refused => BlockedAt(chain[k].Name())
                      case Broken => FailedAt(chain[k].Name())
                      case Crashed(fault) => CrashedAt(chain[k].Name(), fault)
                      case _ => Finished
    ensures var r := GraphFrom(chain, env, a, k, s, rows);
            r.stop == stop && r.pool == s.pool && r.steps == s.steps && r.notes == s.notes
  {
    stop := GraphFrom(chain, env, a, k, s, rows).stop;
  }

  /** A node that does not go on ends the pass alike, whatever was logged. */
  lemma StopsAlike(chain: seq<Node>, env: Env, a: map<nat, Json>, b: map<nat, Json>, k: nat, s: GraphState,
                   rows: seq<Row>, rows': seq<Row>)
    requires k < |chain| && AnswerAt(a, k) == AnswerAt(b, k) && !GoesOn(chain, env, a, k, s)
    ensures Same(GraphFrom(chain, env, a, k, s, rows), GraphFrom(chain, env, b, k, s, rows'))
  {
    var stop := StopsWith(chain, env, a, k, s, rows);
    var stop' := StopsWith(chain, env, b, k, s, rows');
  }

  lemma GoesAlike(chain: seq<Node>, env: Env, a: map<nat, Json>, b: map<nat, Json>, k: nat, s: GraphState,
                  rows: seq<Row>, rows': seq<Row>) returns (next: GraphState, added: seq<Row>)
    requires k < |chain| && AnswerAt(a, k) == AnswerAt(b, k) && GoesOn(chain, env, a, k, s)
    ensures GraphFrom(chain, env, a, k, s, rows) == GraphFrom(chain, env, a, k + 1, next, rows + added)
    ensures GraphFrom(chain, env, b, k, s, rows') == GraphFrom(chain, env, b, k + 1, next, rows' + added)
    ensures var here := if IsGate(chain[k]) then [] else [k];
            && WorkedFrom(chain, env, a, k, s) == here + WorkedFrom(chain, env, a, k + 1, next)
            && WorkedFrom(chain, env, b, k, s) == here + WorkedFrom(chain, env, b, k + 1, next)
  {
    var w := NodeEffect(chain[k], env, s.pool, AnswerAt(a, k)).work;
    next, added := Merge(s, w.end.value, w.end.notes, w.end.record), w.rows;
    GoesOnTo(chain, env, a, k, s, rows);
    GoesOnTo(chain, env, b, k, s, rows');
  }

  lemma {:induction false} SameAhead(chain: seq<Node>, env: Env, a: map<nat, Json>, b: map<nat, Json>,
                                     k: nat, s: GraphState, rows: seq<Row>, rows': seq<Row>)
    requires k <= |chain| && AgreeAhead(a, b, k)
    ensures Same(GraphFrom(chain, env, a, k, s, rows), GraphFrom(chain, env, b, k, s, rows'))
    decreases |chain| - k, 1
  {
    if k < |chain| {
      assert AnswerAt(a, k) == AnswerAt(b, k);
      if GoesOn(chain, env, a, k, s) {
        SameThen(chain, env, a, b, k, s, rows, rows');
      } else {
        StopsAlike(chain, env, a, b, k, s, rows, rows');
      }
    }
  }

  lemma {:induction false} SameThen(chain: seq<Node>, env: Env, a: map<nat, Json>, b: map<nat, Json>,
                                    k: nat, s: GraphState, rows: seq<Row>, rows': seq<Row>)
    requires k < |chain| && AgreeAhead(a, b, k) && AnswerAt(a, k) == AnswerAt(b, k) && GoesOn(chain, env, a, k, s)
    ensures Same(GraphFrom(chain, env, a, k, s, rows), GraphFrom(chain, env, b, k, s, rows'))
    decreases |chain| - k, 0
  {
    var next, added := GoesAlike(chain, env, a, b, k, s, rows, rows');
    SameAhead(chain, env, a, b, k + 1, next, rows + added, rows' + added);
  }

  lemma WorkedAlike(chain: seq<Node>, env: Env, a: map<nat, Json>, b: map<nat, Json>, k: nat, s: GraphState)
    requires k < |chain| && AnswerAt(a, k) == AnswerAt(b, k) && !GoesOn(chain, env, a, k, s)
    ensures WorkedFrom(chain, env, a, k, s) == WorkedFrom(chain, env, b, k, s)
  {
  }

  lemma {:induction false} WorkedAhead(chain: seq<Node>, env: Env, a: map<nat, Json>, b: map<nat, Json>,
                                       k: nat, s: GraphState)
    requires k <= |chain| && AgreeAhead(a, b, k)
    ensures WorkedFrom(chain, env, a, k, s) == WorkedFrom(chain, env, b, k, s)
    decreases |chain| - k, 1
  {
    if k < |chain| {
      assert AnswerAt(a, k) == AnswerAt(b, k);
      if GoesOn(chain, env, a, k, s) {
        WorkedThen(chain, env, a, b, k, s);
      } else {
        WorkedAlike(chain, env, a, b, k, s);
      }
    }
  }

  lemma {:induction false} WorkedThen(chain: seq<Node>, env: Env, a: map<nat, Json>, b: map<nat, Json>,
                                      k: nat, s: GraphState)
    requires k < |chain| && AgreeAhead(a, b, k) && AnswerAt(a, k) == AnswerAt(b, k) && GoesOn(chain, env, a, k, s)
    ensures WorkedFrom(chain, env, a, k, s) == WorkedFrom(chain, env, b, k, s)
    decreases |chain| - k, 0
  {
    var next, _ := GoesAlike(chain, env, a, b, k, s, [], []);
    WorkedAhead(chain, env, a, b, k + 1, next);
  }

  /** Answers for nodes already passed do not matter. */
  lemma OnlyAnswersAhead(chain: seq<Node>, env: Env, a: map<nat, Json>, b: map<nat, Json>,
                         k: nat, s: GraphState, rows: seq<Row>, rows': seq<Row>)
    requires k <= |chain|
    requires forall i :: k <= i ==> AnswerAt(a, i) == AnswerAt(b, i)
    ensures Same(GraphFrom(chain, env, a, k, s, rows), GraphFrom(chain, env, b, k, s, rows'))
    ensures WorkedFrom(chain, env, a, k, s) == WorkedFrom(chain, env, b, k, s)
  {
    SameAhead(chain, env, a, b, k, s, rows, rows');
    WorkedAhead(chain, env, a, b, k, s);
  }

  /** Where a pass that pauses later goes after node `k`; so does any pass with
      the same answer there. */
  lemma OneNodeOn(chain: seq<Node>, env: Env, a: map<nat, Json>, b: map<nat, Json>, k: nat, s: GraphState, rows: seq<Row>)
    returns (next: GraphState, added: seq<Row>)
    requires k < |chain| && AnswerAt(b, k) == AnswerAt(a, k)
    requires GraphFrom(chain, env, a, k, s, rows).stop.Paused? && GraphFrom(chain, env, a, k, s, rows).stop.at > k
    ensures GraphFrom(chain, env, a, k, s, rows) == GraphFrom(chain, env, a, k + 1, next, rows + added)
    ensures GraphFrom(chain, env, b, k, s, rows) == GraphFrom(chain, env, b, k + 1, next, rows + added)
    ensures var here := if IsGate(chain[k]) then [] else [k];
            && WorkedFrom(chain, env, a, k, s) == here + WorkedFrom(chain, env, a, k + 1, next)
            && WorkedFrom(chain, env, b, k, s) == here + WorkedFrom(chain, env, b, k + 1, next)
  {
    var e := NodeEffect(chain[k], env, s.pool, AnswerAt(a, k));
    var end := e.work.end;
    next, added := Merge(s, end.value, end.notes, end.record), e.work.rows;
  }

  /** Answering the gate a pass stopped at continues that pass from where it
      stopped: what came before is the same, and is not done again. */
  lemma {:induction false} AnswerContinues(chain: seq<Node>, env: Env, a: map<nat, Json>, a': map<nat, Json>, k: nat,
                                           s: GraphState, rows: seq<Row>, cut: Report, verdict: Json)
    requires k <= |chain| && cut == GraphFrom(chain, env, a, k, s, rows) && cut.stop.Paused?
    requires a' == a[cut.stop.at := verdict]
    ensures Same(GraphFrom(chain, env, a', k, s, rows), GraphFrom(chain, env, a', cut.stop.at, Saved(cut), rows))
    ensures WorkedFrom(chain, env, a', k, s) ==
            WorkedFrom(chain, env, a, k, s) + WorkedFrom(chain, env, a', cut.stop.at, Saved(cut))
    decreases |chain| - k
  {
    if cut.stop.at == k {
      PausedHere(chain, env, a, k, s, rows);
    } else {
      AnswerContinuesOn(chain, env, a, a', k, s, rows, cut, verdict);
    }
  }

  lemma {:induction false} AnswerContinuesOn(chain: seq<Node>, env: Env, a: map<nat, Json>, a': map<nat, Json>, k: nat,
                                             s: GraphState, rows: seq<Row>, cut: Report, verdict: Json)
    requires k < |chain| && cut == GraphFrom(chain, env, a, k, s, rows) && cut.stop.Paused? && cut.stop.at > k
    requires a' == a[cut.stop.at := verdict]
    ensures Same(GraphFrom(chain, env, a', k, s, rows), GraphFrom(chain, env, a', cut.stop.at, Saved(cut), rows))
    ensures WorkedFrom(chain, env, a', k, s) ==
            WorkedFrom(chain, env, a, k, s) + WorkedFrom(chain, env, a', cut.stop.at, Saved(cut))
    decreases |chain| - k, 0
  {
    var next, added := OneNodeOn(chain, env, a, a', k, s, rows);
    var here := if IsGate(chain[k]) then [] else [k];
    var later := WorkedFrom(chain, env, a', cut.stop.at, Saved(cut));
    AnswerContinues(chain, env, a, a', k + 1, next, rows + added, cut, verdict);
    OnlyAnswersAhead(chain, env, a', a', cut.stop.at, Saved(cut), rows, rows + added);
    Associative(here, WorkedFrom(chain, env, a, k + 1, next), later);
  }

  lemma PausedHere(chain: seq<Node>, env: Env, a: map<nat, Json>, k: nat, s: GraphState, rows: seq<Row>)
    requires k <= |chain| && GraphFrom(chain, env, a, k, s, rows).stop.Paused?
    requires GraphFrom(chain, env, a, k, s, rows).stop.at == k
    ensures Saved(GraphFrom(chain, env, a, k, s, rows)) == s
    ensures WorkedFrom(chain, env, a, k, s) == []
  {
  }

  /** A leg that starts at an answered gate pauses only further on. */
  lemma ResumedPausesLater(env: Env, chain: seq<Node>, at: nat, s: GraphState, verdict: Json)
    requires at < |chain| && ResumedLeg(env, chain, at, s, verdict).stop.Paused?
    ensures at < ResumedLeg(env, chain, at, s, verdict).stop.at
  {
  }

  lemma {:induction false} AnsweredBehind(t: Template, env: Env, chain: seq<Node>, params: Pool, verdicts: seq<Json>)
    requires Session(t, env, chain, params, verdicts).stop.Paused?
    ensures forall i :: i in Answered(t, env, chain, params, verdicts) ==>
              i < Session(t, env, chain, params, verdicts).stop.at
    decreases |verdicts|
  {
    if verdicts != [] {
      var front, last := verdicts[..|verdicts| - 1], verdicts[|verdicts| - 1];
      var before := Session(t, env, chain, params, front);
      AnsweredBehind(t, env, chain, params, front);
      ResumedPausesLater(env, chain, before.stop.at, Saved(before), last);
    }
  }

  /** The theorem: however often a run is paused and resumed, it ends as one
      uninterrupted pass in which those gates produced those verdicts, with the
      same pool, notes and step records; and the steps worked over all its legs
      are those of that one pass, none of them twice. */
  lemma {:induction false} PausingInvisible(t: Template, env: Env, chain: seq<Node>, params: Pool, verdicts: seq<Json>)
    ensures Same(Session(t, env, chain, params, verdicts),
                 Uncut(t, env, chain, params, Answered(t, env, chain, params, verdicts)))
    ensures env.absent == [] ==>
              SessionWorked(t, env, chain, params, verdicts) ==
              WorkedFrom(chain, env, Answered(t, env, chain, params, verdicts), 0, Initial(params))
    decreases |verdicts|
  {
    if verdicts != [] && env.absent == [] {
      var front, last := verdicts[..|verdicts| - 1], verdicts[|verdicts| - 1];
      PausingInvisible(t, env, chain, params, front);
      if Session(t, env, chain, params, front).stop.Paused? {
        LegContinues(t, env, chain, params, front, last);
      }
    } else if verdicts != [] {
      PausingInvisible(t, env, chain, params, verdicts[..|verdicts| - 1]);
    }
  }

  lemma LegContinues(t: Template, env: Env, chain: seq<Node>, params: Pool, front: seq<Json>, last: Json)
    requires env.absent == [] && Session(t, env, chain, params, front).stop.Paused?
    requires Same(Session(t, env, chain, params, front),
                  Uncut(t, env, chain, params, Answered(t, env, chain, params, front)))
    ensures
      var before, a := Session(t, env, chain, params, front), Answered(t, env, chain, params, front);
      var a' := a[before.stop.at := last];
      && Same(ResumedLeg(env, chain, before.stop.at, Saved(before), last), Uncut(t, env, chain, params, a'))
      && WorkedFrom(chain, env, a', 0, Initial(params)) ==
         WorkedFrom(chain, env, a, 0, Initial(params)) +
         WorkedFrom(chain, env, map[before.stop.at := last], before.stop.at, Saved(before))
  {
    var before, a := Session(t, env, chain, params, front), Answered(t, env, chain, params, front);
    var at := before.stop.at;
    var cut := Uncut(t, env, chain, params, a);
    AnswerContinues(chain, env, a, a[at := last], 0, Initial(params), Opening(t, env), cut, last);
    AnsweredBehind(t, env, chain, params, front);
    OnlyAnswersAhead(chain, env, a[at := last], map[at := last], at, Saved(before), Opening(t, env), [ResumedRow(last)]);
  }

  /** Within one pass each node is worked at most once, in chain order. */
  lemma {:induction false} WorkedInOrder(chain: seq<Node>, env: Env, a: map<nat, Json>, k: nat, s: GraphState)
    requires k <= |chain|
    ensures InOrder(WorkedFrom(chain, env, a, k, s), k)
    decreases |chain| - k
  {
    if k < |chain| {
      var e := NodeEffect(chain[k], env, s.pool, AnswerAt(a, k));
      var here := if IsGate(chain[k]) then [] else [k];
      if e.Does? && e.work.end.Produced? {
        var end := e.work.end;
        var rest := WorkedFrom(chain, env, a, k + 1, Merge(s, end.value, end.notes, end.record));
        WorkedInOrder(chain, env, a, k + 1, Merge(s, end.value, end.notes, end.record));
        InOrderCons(here, rest, k);
      } else {
        InOrderCons(here, [], k);
      }
    }
  }

  /** Increasing numbers, none below `k`. */
  ghost predicate InOrder(w: seq<nat>, k: nat)
  {
    && (forall i :: 0 <= i < |w| ==> k <= w[i])
    && (forall i, j :: 0 <= i < j < |w| ==> w[i] < w[j])
  }

  lemma InOrderCons(here: seq<nat>, rest: seq<nat>, k: nat)
    requires (here == [] || here == [k]) && InOrder(rest, k + 1)
    ensures InOrder(here + rest, k)
  {
  }

  /** So no step runs twice over all the legs of a run. */
  lemma NoStepRunsTwice(t: Template, env: Env, chain: seq<Node>, params: Pool, verdicts: seq<Json>)
    ensures InOrder(SessionWorked(t, env, chain, params, verdicts), 0)
    ensures var w := SessionWorked(t, env, chain, params, verdicts);
            forall i, j :: 0 <= i < j < |w| ==> w[i] < w[j]
  {
    PausingInvisible(t, env, chain, params, verdicts);
    if env.absent == [] {
      WorkedInOrder(chain, env, Answered(t, env, chain, params, verdicts), 0, Initial(params));
    } else {
      NothingWorked(t, env, chain, params, verdicts);
    }
  }

  lemma {:induction false} NothingWorked(t: Template, env: Env, chain: seq<Node>, params: Pool, verdicts: seq<Json>)
    requires env.absent != []
    ensures Session(t, env, chain, params, verdicts).stop == NotStarted
    ensures SessionWorked(t, env, chain, params, verdicts) == []
    decreases |verdicts|
  {
    if verdicts != [] { NothingWorked(t, env, chain, params, verdicts[..|verdicts| - 1]); }
  }
}
