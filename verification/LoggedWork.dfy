/** What the log says ran is what ran: the `started` rows of all the legs of a
    run are those of the nodes worked, in order. */
module LoggedWork {
  import opened Controls
  import opened EventGrammar
  import opened Execution
  import opened GraphBuild
  import opened GraphRun
  import opened JsonValues
  import opened Pausing
  import opened Sequential
  import opened Strings
  import opened Templates

  /** The steps these rows say were started. */
  function StartedIn(rows: seq<Row>): seq<string>
  {
    if rows == [] then []
    else
      var last := rows[|rows| - 1];
      StartedIn(rows[..|rows| - 1]) + if last.status == Started then [last.step] else []
  }

  lemma {:induction false} StartedAppend(a: seq<Row>, b: seq<Row>)
    ensures StartedIn(a + b) == StartedIn(a) + StartedIn(b)
  {
    if b == [] {
      assert a + b == a;
    } else {
      assert (a + b)[..|a + b| - 1] == a + b[..|b| - 1];
      StartedAppend(a, b[..|b| - 1]);
    }
  }

  ghost predicate OnChain(chain: seq<Node>, w: seq<nat>)
  {
    forall i :: 0 <= i < |w| ==> w[i] < |chain|
  }

  ghost function NamesOf(chain: seq<Node>, w: seq<nat>): seq<string>
    requires OnChain(chain, w)
  {
    seq(|w|, i requires 0 <= i < |w| => chain[w[i]].Name())
  }

  /** The last node worked has no row when its hook is missing or cannot be bound. */
  predicate Silent(stop: Stop)
  {
    stop.CrashedAt? && stop.fault != RowRejected
  }

  function Begun(w: seq<nat>, stop: Stop): seq<nat>
  {
    if Silent(stop) && w != [] then w[..|w| - 1] else w
  }

  lemma OneRow(row: Row)
    ensures StartedIn([row]) == if row.status == Started then [row.step] else []
  {
    assert [row][..0] == [] && StartedIn([]) == [];
  }

  lemma {:induction false} NoneStarted(rows: seq<Row>)
    requires forall i :: 0 <= i < |rows| ==> rows[i].status != Started
    ensures StartedIn(rows) == []
  {
    if rows != [] { NoneStarted(rows[..|rows| - 1]); }
  }

  lemma FirstStarted(rows: seq<Row>)
    requires rows != [] && rows[0].status == Started
    requires forall i :: 0 < i < |rows| ==> rows[i].status != Started
    ensures StartedIn(rows) == [rows[0].step]
  {
    assert rows == [rows[0]] + rows[1..];
    OneRow(rows[0]);
    NoneStarted(rows[1..]);
    StartedAppend([rows[0]], rows[1..]);
  }

  /** What one node logs as started: itself, unless it is a gate or has no row. */
  lemma NodeStarts(node: Node, env: Env, pool: Pool, answer: Option<Json>)
    requires NodeEffect(node, env, pool, answer).Does?
    ensures var w := NodeEffect(node, env, pool, answer).work;
            StartedIn(w.rows) ==
            if IsGate(node) || (w.end.Crashed? && w.end.fault != RowRejected) then [] else [node.Name()]
    ensures var w := NodeEffect(node, env, pool, answer).work; IsGate(node) ==> w.end.Produced?
  {
    var w := NodeEffect(node, env, pool, answer).work;
    NodeRows(node, env, pool, answer);
    NodeHasRows(node, env, pool, answer);
    if w.rows != [] { FirstStarted(w.rows); }
  }

  lemma NodeHasRows(node: Node, env: Env, pool: Pool, answer: Option<Json>)
    requires NodeEffect(node, env, pool, answer).Does?
    ensures var w := NodeEffect(node, env, pool, answer).work;
            w.rows == [] <==> IsGate(node) || (w.end.Crashed? && w.end.fault != RowRejected)
    ensures IsGate(node) ==> NodeEffect(node, env, pool, answer).work.end.Produced?
  {
    match node
    case JudgeNode(j) =>
    case StepNode(step) =>
      if step.executor != Gate { StepHasRows(step, env, pool); }
  }

  lemma StepHasRows(step: Step, env: Env, pool: Pool)
    ensures var w := StepWork(step, env, pool, GRAPH_NAMES);
            w.rows == [] <==> w.end.Crashed? && w.end.fault != RowRejected
  {
  }

  /** Between two states of the log, the nodes `w` were started and no others. */
  ghost predicate Tells(chain: seq<Node>, w: seq<nat>, stop: Stop, before: seq<string>, after: seq<string>)
  {
    && OnChain(chain, w) && (Silent(stop) ==> w != [])
    && after == before + NamesOf(chain, Begun(w, stop))
  }

  lemma TellsThen(chain: seq<Node>, here: seq<nat>, rest: seq<nat>, stop: Stop, before: seq<string>, after: seq<string>)
    requires OnChain(chain, here) && Tells(chain, rest, stop, before + NamesOf(chain, here), after)
    ensures Tells(chain, here + rest, stop, before, after)
  {
    BegunThen(here, rest, stop);
    NamesThen(chain, here, Begun(rest, stop));
    Associative(before, NamesOf(chain, here), NamesOf(chain, Begun(rest, stop)));
  }

  lemma BegunThen(here: seq<nat>, rest: seq<nat>, stop: Stop)
    requires Silent(stop) ==> rest != []
    ensures Begun(here + rest, stop) == here + Begun(rest, stop)
  {
  }

  lemma NamesThen(chain: seq<Node>, a: seq<nat>, b: seq<nat>)
    requires OnChain(chain, a) && OnChain(chain, b)
    ensures OnChain(chain, a + b) && NamesOf(chain, a + b) == NamesOf(chain, a) + NamesOf(chain, b)
  {
  }

  lemma NothingTells(chain: seq<Node>, stop: Stop, before: seq<string>)
    requires !Silent(stop)
    ensures Tells(chain, [], stop, before, before)
  {
  }

  ghost function Here(chain: seq<Node>, k: nat): (w: seq<nat>)
    requires k < |chain|
    ensures OnChain(chain, w)
  {
    if IsGate(chain[k]) then [] else [k]
  }

  lemma HereNames(chain: seq<Node>, k: nat)
    requires k < |chain|
    ensures NamesOf(chain, Here(chain, k)) == if IsGate(chain[k]) then [] else [chain[k].Name()]
  {
  }

  /** A leg's `started` rows are those of the nodes it worked. */
  lemma {:induction false} LegStarts(chain: seq<Node>, env: Env, a: map<nat, Json>, k: nat, s: GraphState, rows: seq<Row>)
    requires k <= |chain|
    ensures var r := GraphFrom(chain, env, a, k, s, rows);
            Tells(chain, WorkedFrom(chain, env, a, k, s), r.stop, StartedIn(rows), StartedIn(r.rows))
    decreases |chain| - k, 1
  {
    if k == |chain| {
      LegFinishes(chain, env, a, s, rows);
    } else if GoesOn(chain, env, a, k, s) {
      LegGoesOn(chain, env, a, k, s, rows);
    } else {
      LegStopsHere(chain, env, a, k, s, rows);
    }
  }

  lemma {:induction false} LegGoesOn(chain: seq<Node>, env: Env, a: map<nat, Json>, k: nat, s: GraphState, rows: seq<Row>)
    requires k < |chain| && GoesOn(chain, env, a, k, s)
    ensures var r := GraphFrom(chain, env, a, k, s, rows);
            Tells(chain, WorkedFrom(chain, env, a, k, s), r.stop, StartedIn(rows), StartedIn(r.rows))
    decreases |chain| - k, 0
  {
    var next, added := NodeStartsAndGoesOn(chain, env, a, k, s, rows);
    LegStarts(chain, env, a, k + 1, next, rows + added);
    var rest, r := WorkedFrom(chain, env, a, k + 1, next), GraphFrom(chain, env, a, k + 1, next, rows + added);
    TellsThen(chain, Here(chain, k), rest, r.stop, StartedIn(rows), StartedIn(r.rows));
  }

  lemma LegFinishes(chain: seq<Node>, env: Env, a: map<nat, Json>, s: GraphState, rows: seq<Row>)
    ensures var r := GraphFrom(chain, env, a, |chain|, s, rows);
            Tells(chain, WorkedFrom(chain, env, a, |chain|, s), r.stop, StartedIn(rows), StartedIn(r.rows))
  {
    OneRow(RunOk(|s.steps|));
    StartedAppend(rows, [RunOk(|s.steps|)]);
    NothingTells(chain, Finished, StartedIn(rows));
  }

  lemma NodeStartsAndGoesOn(chain: seq<Node>, env: Env, a: map<nat, Json>, k: nat, s: GraphState, rows: seq<Row>)
    returns (next: GraphState, added: seq<Row>)
    requires k < |chain| && GoesOn(chain, env, a, k, s)
    ensures GraphFrom(chain, env, a, k, s, rows) == GraphFrom(chain, env, a, k + 1, next, rows + added)
    ensures WorkedFrom(chain, env, a, k, s) == Here(chain, k) + WorkedFrom(chain, env, a, k + 1, next)
    ensures StartedIn(rows + added) == StartedIn(rows) + NamesOf(chain, Here(chain, k))
  {
    var w := NodeEffect(chain[k], env, s.pool, AnswerAt(a, k)).work;
    next, added := Merge(s, w.end.value, w.end.notes, w.end.record), w.rows;
    Pausing.GoesOnTo(chain, env, a, k, s, rows);
    StartedAppend(rows, w.rows);
    NodeStarts(chain[k], env, s.pool, AnswerAt(a, k));
    HereNames(chain, k);
  }

  lemma LegStopsHere(chain: seq<Node>, env: Env, a: map<nat, Json>, k: nat, s: GraphState, rows: seq<Row>)
    requires k < |chain| && !GoesOn(chain, env, a, k, s)
    ensures var r := GraphFrom(chain, env, a, k, s, rows);
            Tells(chain, WorkedFrom(chain, env, a, k, s), r.stop, StartedIn(rows), StartedIn(r.rows))
  {
    var name := chain[k].Name();
    match NodeEffect(chain[k], env, s.pool, AnswerAt(a, k))
    case Waits(payload) => PauseStarts(rows, name, payload);
    case Does(w) =>
      NodeStarts(chain[k], env, s.pool, AnswerAt(a, k));
      StartedAppend(rows, w.rows);
      StoppedBy(chain, env, a, k, s, rows, w);
      HereNames(chain, k);
      assert [k][..0] == [];
  }

  lemma StoppedBy(chain: seq<Node>, env: Env, a: map<nat, Json>, k: nat, s: GraphState, rows: seq<Row>, w: Work)
    requires k < |chain| && NodeEffect(chain[k], env, s.pool, AnswerAt(a, k)) == Does(w) && !w.end.Produced?
    ensures var r := GraphFrom(chain, env, a, k, s, rows);
            r.rows == rows + w.rows && (Silent(r.stop) <==> w.end.Crashed? && w.end.fault != RowRejected)
    ensures WorkedFrom(chain, env, a, k, s) == Here(chain, k)
  {
  }

  lemma PauseStarts(rows: seq<Row>, name: string, payload: Json)
    ensures StartedIn(rows + PauseRows(name, payload)) == StartedIn(rows)
  {
    var pause := PauseRows(name, payload);
    assert pause == [pause[0]] + [pause[1]];
    OneRow(pause[0]);
    OneRow(pause[1]);
    StartedAppend([pause[0]], [pause[1]]);
    StartedAppend(rows, pause);
  }

  // ---------------------------------------------------------------- whole sessions

  /** The rows of all the legs, in order. */
  function SessionRows(t: Template, env: Env, chain: seq<Node>, params: Pool, verdicts: seq<Json>): seq<Row>
    decreases |verdicts|
  {
    if verdicts == [] then FirstLeg(t, env, chain, params).rows
    else
      var front, last := verdicts[..|verdicts| - 1], verdicts[|verdicts| - 1];
      var before := Session(t, env, chain, params, front);
      SessionRows(t, env, chain, params, front) +
      if before.stop.Paused? then ResumedLeg(env, chain, before.stop.at, Saved(before), last).rows else []
  }

  lemma OpeningStarts(t: Template, env: Env)
    ensures StartedIn(Opening(t, env)) == ["run"]
  {
    FirstStarted(Opening(t, env));
  }

  /** After the row that opens the run, the `started` rows of all its legs are
      those of the nodes worked, in the order they were worked. */
  lemma {:induction false} SessionStarts(t: Template, env: Env, chain: seq<Node>, params: Pool, verdicts: seq<Json>)
    ensures Tells(chain, SessionWorked(t, env, chain, params, verdicts), Session(t, env, chain, params, verdicts).stop,
                  ["run"], StartedIn(SessionRows(t, env, chain, params, verdicts)))
    decreases |verdicts|
  {
    if verdicts == [] {
      OpeningStarts(t, env);
      if env.absent == [] {
        LegStarts(chain, env, map[], 0, Initial(params), Opening(t, env));
      } else {
        NothingTells(chain, NotStarted, ["run"]);
      }
    } else {
      var front, last := verdicts[..|verdicts| - 1], verdicts[|verdicts| - 1];
      SessionStarts(t, env, chain, params, front);
      if Session(t, env, chain, params, front).stop.Paused? {
        LegAdds(t, env, chain, params, front, last);
      } else {
        assert SessionWorked(t, env, chain, params, front) + [] == SessionWorked(t, env, chain, params, front);
        assert SessionRows(t, env, chain, params, front) + [] == SessionRows(t, env, chain, params, front);
      }
    }
  }

  /** What one more leg adds to the rows. */
  lemma LegAdds(t: Template, env: Env, chain: seq<Node>, params: Pool, front: seq<Json>, last: Json)
    requires Session(t, env, chain, params, front).stop.Paused?
    requires Tells(chain, SessionWorked(t, env, chain, params, front), Session(t, env, chain, params, front).stop,
                   ["run"], StartedIn(SessionRows(t, env, chain, params, front)))
    ensures
      var before := Session(t, env, chain, params, front);
      var leg := ResumedLeg(env, chain, before.stop.at, Saved(before), last);
      Tells(chain, SessionWorked(t, env, chain, params, front) +
                   WorkedFrom(chain, env, map[before.stop.at := last], before.stop.at, Saved(before)),
            leg.stop, ["run"], StartedIn(SessionRows(t, env, chain, params, front) + leg.rows))
  {
    var before := Session(t, env, chain, params, front);
    var leg := ResumedLeg(env, chain, before.stop.at, Saved(before), last);
    var past, rows := SessionWorked(t, env, chain, params, front), SessionRows(t, env, chain, params, front);
    var now := WorkedFrom(chain, env, map[before.stop.at := last], before.stop.at, Saved(before));
    ResumedStarts(env, chain, before.stop.at, Saved(before), last);
    StartedAppend(rows, leg.rows);
    TellsThen(chain, past, now, leg.stop, ["run"], StartedIn(rows + leg.rows));
  }

  lemma ResumedStarts(env: Env, chain: seq<Node>, at: nat, s: GraphState, verdict: Json)
    requires at < |chain|
    ensures
      var leg := ResumedLeg(env, chain, at, s, verdict);
      var w := WorkedFrom(chain, env, map[at := verdict], at, s);
      && Tells(chain, w, leg.stop, [], StartedIn(leg.rows))
      && forall before {:trigger before + StartedIn(leg.rows)} :: Tells(chain, w, leg.stop, before, before + StartedIn(leg.rows))
  {
    OneRow(ResumedRow(verdict));
    LegStarts(chain, env, map[at := verdict], at, s, [ResumedRow(verdict)]);
    assert forall names: seq<string> :: [] + names == names;
  }

  /** So, over all the legs of a run, the log starts no step twice. */
  lemma NoStepStartsTwice(t: Template, env: Env, chain: seq<Node>, params: Pool, verdicts: seq<Json>, i: nat, j: nat)
    requires Distinct(Names(chain))
    requires 0 < i < j < |StartedIn(SessionRows(t, env, chain, params, verdicts))|
    ensures var started := StartedIn(SessionRows(t, env, chain, params, verdicts)); started[i] != started[j]
  {
    SessionStarts(t, env, chain, params, verdicts);
    NoStepRunsTwice(t, env, chain, params, verdicts);
    var w := SessionWorked(t, env, chain, params, verdicts);
    var begun := Begun(w, Session(t, env, chain, params, verdicts).stop);
    var x, y := i - 1, j - 1;
    assert y < |begun| <= |w|;
    assert w[x] < w[y];
    assert begun[x] == w[x] && begun[y] == w[y];
    DistinctNames(chain, begun, x, y);
  }

  lemma DistinctNames(chain: seq<Node>, w: seq<nat>, i: nat, j: nat)
    requires Distinct(Names(chain)) && OnChain(chain, w) && i < j < |w| && w[i] < w[j]
    ensures NamesOf(chain, w)[i] != NamesOf(chain, w)[j]
  {
    assert Names(chain)[w[i]] != Names(chain)[w[j]];
  }

  /** ... and the log starts no step behind a control that did not pass. */
  lemma LoggedMeansControlled(t: Template, env: Env, chain: seq<Node>, params: Pool, verdicts: seq<Json>, n: nat, i: nat,
                              k: nat)
    requires Distinct(Names(chain)) && i < k < |chain|
    requires 0 < n < |StartedIn(SessionRows(t, env, chain, params, verdicts))|
    requires StartedIn(SessionRows(t, env, chain, params, verdicts))[n] == chain[k].Name()
    ensures PassedAt(chain, env, Answered(t, env, chain, params, verdicts), params, i)
  {
    SessionStarts(t, env, chain, params, verdicts);
    var w := SessionWorked(t, env, chain, params, verdicts);
    assert Names(chain)[w[n - 1]] == Names(chain)[k];
    assert w[n - 1] == k;
    ControlsHold(t, env, chain, params, verdicts, i, k);
  }
}
