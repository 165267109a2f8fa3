/** The shape of every event log: what a reader may rely on row by row. */
module EventGrammar {
  import opened JsonValues
  import opened Templates
  import opened Execution
  import opened GraphBuild
  import opened Sequential
  import opened GraphRun
  import opened Pausing

  /** Where a reader is in the log of one leg. */
  datatype Phase =
    | Unread                     // nothing yet
    | Opened                     // the run has started; preflight may follow
    | Between                    // no step is open
    | InStep(step: string)       // one step is open
    | Closing(status: Status)    // only the closing `run` row may follow
    | Closed
    | Malformed

  function StepDelta(row: Row): Phase
  {
    match row.status
    case Started => InStep(row.step)
    case AwaitingHuman => Closing(AwaitingHuman)
    case StepOk => if row.step == "run" then Closed else Malformed
    case _ => Malformed
  }

  function Delta(q: Phase, row: Row): Phase
  {
    match q
    case Unread =>
      if row.step == "run" && row.status == Started then Opened
      else if row.step == "run" && row.status == Resumed then Between
      else Malformed
    case Opened =>
      if row.step == "preflight" && row.status == StepOk then Between
      else if row.step == "preflight" && row.status == BlockedRow then Closing(BlockedRow)
      else StepDelta(row)
    case Between => StepDelta(row)
    case InStep(step) =>
      if row.step != step then Malformed
      else (match row.status
            case StepOk => Between
            case Skipped => Between
            case BlockedRow => Closing(BlockedRow)
            case FailedRow => Closing(FailedRow)
            case _ => Malformed)
    case Closing(status) => if row.step == "run" && row.status == status then Closed else Malformed
    case _ => Malformed
  }

  function Scan(rows: seq<Row>): Phase
  {
    if rows == [] then Unread else Delta(Scan(rows[..|rows| - 1]), rows[|rows| - 1])
  }

  lemma ScanSnoc(rows: seq<Row>, row: Row)
    ensures Scan(rows + [row]) == Delta(Scan(rows), row)
  {
    assert (rows + [row])[..|rows|] == rows;
  }

  lemma ScanTwo(rows: seq<Row>, a: Row, b: Row)
    ensures Scan(rows + [a, b]) == Delta(Delta(Scan(rows), a), b)
  {
    assert rows + [a, b] == (rows + [a]) + [b];
    ScanSnoc(rows, a);
    ScanSnoc(rows + [a], b);
  }

  lemma ScanThree(rows: seq<Row>, a: Row, b: Row, c: Row)
    ensures Scan(rows + [a, b, c]) == Delta(Delta(Delta(Scan(rows), a), b), c)
  {
    assert rows + [a, b, c] == (rows + [a, b]) + [c];
    ScanTwo(rows, a, b);
    ScanSnoc(rows + [a, b], c);
  }

  predicate AtRest(q: Phase)
  {
    q == Opened || q == Between
  }

  /** What a log may look like after a crash no row accounts for. */
  predicate CutShort(q: Phase, step: string)
  {
    AtRest(q) || q == InStep(step)
  }

  lemma OpeningScans(t: Template, env: Env)
    ensures env.absent != [] ==> Scan(Opening(t, env)) == Closed
    ensures env.absent == [] ==> AtRest(Scan(Opening(t, env)))
  {
    assert Scan([]) == Unread;
    ScanSnoc([], RunStarted(t));
    assert [] + [RunStarted(t)] == [RunStarted(t)];
    if env.absent != [] {
      ScanTwo([RunStarted(t)], Row("preflight", BlockedRow, map["missing" := Int(|env.absent|)]),
              StopRow(BlockedRow, "preflight"));
    } else if env.required != [] {
      ScanSnoc([RunStarted(t)], Row("preflight", StepOk, map["checked" := Int(|env.required|)]));
    } else {
      assert Opening(t, env) == [RunStarted(t)];
    }
  }

  /** The rows of one node: none, or `started` and one terminal row of its own,
      with the closing `run` row when it stops the run. */
  ghost predicate WorkRows(w: Work, name: string)
  {
    match w.end
    case Produced(_, _, _) =>
      || w.rows == []
      || (|w.rows| == 2 && w.rows[0].step == w.rows[1].step == name && w.rows[0].status == Started &&
          (w.rows[1].status == StepOk || w.rows[1].status == Skipped))
    case Refused =>
      && |w.rows| == 3 && w.rows[0].step == w.rows[1].step == name && w.rows[2].step == "run"
      && w.rows[0].status == Started && w.rows[1].status == w.rows[2].status == BlockedRow
    case Broken =>
      && |w.rows| == 3 && w.rows[0].step == w.rows[1].step == name && w.rows[2].step == "run"
      && w.rows[0].status == Started && w.rows[1].status == w.rows[2].status == FailedRow
    case Crashed(_) =>
      w.rows == [] || (|w.rows| == 1 && w.rows[0].step == name && w.rows[0].status == Started)
  }

  lemma WorkScans(rows: seq<Row>, w: Work, name: string)
    requires AtRest(Scan(rows)) && WorkRows(w, name)
    ensures match w.end
            case Produced(_, _, _) => AtRest(Scan(rows + w.rows))
            case Crashed(_) => CutShort(Scan(rows + w.rows), name)
            case _ => Scan(rows + w.rows) == Closed
  {
    if w.rows == [] {
      assert rows + w.rows == rows;
    } else if |w.rows| == 1 {
      assert w.rows == [w.rows[0]];
      ScanSnoc(rows, w.rows[0]);
    } else if |w.rows| == 2 {
      assert w.rows == [w.rows[0], w.rows[1]];
      ScanTwo(rows, w.rows[0], w.rows[1]);
    } else {
      assert w.rows == [w.rows[0], w.rows[1], w.rows[2]];
      ScanThree(rows, w.rows[0], w.rows[1], w.rows[2]);
    }
  }

  lemma StepWorkRows(step: Step, env: Env, pool: Pool, reserved: set<string>)
    ensures WorkRows(StepWork(step, env, pool, reserved), step.name)
  {
  }

  lemma JudgeWorkRows(j: Judge, env: Env, pool: Pool)
    ensures WorkRows(JudgeWork(j, env, pool), j.NodeName())
  {
  }

  /** How a log reads at the end of a leg. */
  ghost predicate WellEnded(r: Report)
  {
    match r.stop
    case CrashedAt(step, _) => CutShort(Scan(r.rows), step)
    case _ => Scan(r.rows) == Closed
  }

  lemma {:induction false} SequentialScans(t: Template, env: Env, k: nat, pool: Pool, steps: seq<StepRecord>,
                                           notes: seq<string>, rows: seq<Row>)
    requires k <= |t.steps| && AtRest(Scan(rows))
    ensures WellEnded(SequentialFrom(t, env, k, pool, steps, notes, rows))
    decreases |t.steps| - k
  {
    if k == |t.steps| {
      ScanSnoc(rows, RunOk(|steps|));
    } else {
      var w := StepWork(t.steps[k], env, pool, SEQUENTIAL_NAMES);
      StepWorkRows(t.steps[k], env, pool, SEQUENTIAL_NAMES);
      WorkScans(rows, w, t.steps[k].name);
      if w.end.Produced? {
        SequentialScans(t, env, k + 1, pool[t.steps[k].produces := w.end.value], steps + [w.end.record],
                        notes + w.end.notes, rows + w.rows);
      }
    }
  }

  lemma {:induction false} GraphScans(chain: seq<Node>, env: Env, answers: map<nat, Json>, k: nat, s: GraphState,
                                      rows: seq<Row>)
    requires k <= |chain| && AtRest(Scan(rows))
    ensures WellEnded(GraphFrom(chain, env, answers, k, s, rows))
    decreases |chain| - k
  {
    if k == |chain| {
      ScanSnoc(rows, RunOk(|s.steps|));
    } else {
      var e, name := NodeEffect(chain[k], env, s.pool, AnswerAt(answers, k)), chain[k].Name();
      if e.Waits? {
        PauseScans(rows, name, e.payload);
      } else {
        NodeRows(chain[k], env, s.pool, AnswerAt(answers, k));
        WorkScans(rows, e.work, name);
        if e.work.end.Produced? {
          var next := Merge(s, e.work.end.value, e.work.end.notes, e.work.end.record);
          GraphScans(chain, env, answers, k + 1, next, rows + e.work.rows);
        }
      }
    }
  }

  lemma PauseScans(rows: seq<Row>, name: string, payload: Json)
    requires AtRest(Scan(rows))
    ensures Scan(rows + PauseRows(name, payload)) == Closed
  {
    ScanTwo(rows, Row(PausedName(name), AwaitingHuman, PauseDetail(payload)), StopRow(AwaitingHuman, PausedName(name)));
  }

  lemma NodeRows(node: Node, env: Env, pool: Pool, answer: Option<Json>)
    ensures var e := NodeEffect(node, env, pool, answer); e.Does? ==> WorkRows(e.work, node.Name())
  {
    match node
    case JudgeNode(j) => JudgeWorkRows(j, env, pool);
    case StepNode(step) => StepWorkRows(step, env, pool, GRAPH_NAMES);
  }

  /** Every log of the sequential runner is a complete sentence, unless the run
      crashed where no row accounts for it; then it stops at rest or with that
      one step open. */
  lemma SequentialLogs(t: Template, env: Env, params: Pool, notes: seq<string>)
    ensures WellEnded(SequentialRun(t, env, params, notes))
  {
    OpeningScans(t, env);
    if env.absent == [] {
      SequentialScans(t, env, 0, params, [], notes, Opening(t, env));
    }
  }

  /** The same for every leg of the graph runner, first or resumed. */
  lemma LegLogs(t: Template, env: Env, chain: seq<Node>, params: Pool, verdicts: seq<Json>)
    ensures WellEnded(Session(t, env, chain, params, verdicts))
    decreases |verdicts|
  {
    if verdicts == [] {
      OpeningScans(t, env);
      if env.absent == [] {
        GraphScans(chain, env, map[], 0, Initial(params), Opening(t, env));
      }
    } else {
      var front, last := verdicts[..|verdicts| - 1], verdicts[|verdicts| - 1];
      LegLogs(t, env, chain, params, front);
      var before := Session(t, env, chain, params, front);
      if before.stop.Paused? {
        assert Scan([]) == Unread;
        ScanSnoc([], ResumedRow(last));
        assert [] + [ResumedRow(last)] == [ResumedRow(last)];
        GraphScans(chain, env, map[before.stop.at := last], before.stop.at, Saved(before), [ResumedRow(last)]);
      }
    }
  }

  /** A leg refused for its placements logs its opening rows and no closing one:
      its log is the beginning of a sentence. */
  lemma RefusedLegLogs(t: Template, env: Env, verdict: Json)
    requires env.absent == []
    ensures AtRest(Scan(Opening(t, env))) && Scan(Opening(t, env)) != Closed
    ensures AtRest(Scan([ResumedRow(verdict)])) && Scan([ResumedRow(verdict)]) != Closed
  {
    OpeningScans(t, env);
    assert Scan([]) == Unread;
    ScanSnoc([], ResumedRow(verdict));
    assert [] + [ResumedRow(verdict)] == [ResumedRow(verdict)];
  }

  // ------------------------------------------------------------ reading the grammar

  /** In a log the grammar accepts, every row that opens a step is followed at
      once by the one row that ends that step. */
  lemma {:induction false} StartedIsAnswered(rows: seq<Row>, i: nat)
    requires Scan(rows) == Closed && i < |rows| && rows[i].status == Started && i > 0
    ensures i + 1 < |rows| && rows[i + 1].step == rows[i].step
    ensures rows[i + 1].status in {StepOk, Skipped, BlockedRow, FailedRow}
  {
    ScanAt(rows, i);
    assert rows[..|rows|] == rows;
    if i + 1 < |rows| { ScanAt(rows, i + 1); }
  }

  /** What one row does to the reading of an accepted log. */
  lemma ScanAt(rows: seq<Row>, i: nat)
    requires Scan(rows) == Closed && i < |rows|
    ensures Scan(rows[..i + 1]) == Delta(Scan(rows[..i]), rows[i])
    ensures Scan(rows[..i + 1]) != Malformed && (i + 1 < |rows| ==> Scan(rows[..i + 1]) != Closed)
    ensures i > 0 ==> Scan(rows[..i]) != Unread
  {
    ScanPrefix(rows, i + 1);
    ScanPrefix(rows, i);
    assert rows[..i + 1][..i] == rows[..i] && rows[..i + 1][i] == rows[i];
  }

  /** No prefix of an accepted log is malformed, and only the whole is closed. */
  lemma {:induction false} ScanPrefix(rows: seq<Row>, n: nat)
    requires n <= |rows| && Scan(rows) != Malformed
    ensures Scan(rows[..n]) != Malformed
    ensures n < |rows| ==> Scan(rows[..n]) != Closed
    ensures n > 0 ==> Scan(rows[..n]) != Unread
    decreases |rows|
  {
    if n == |rows| {
      assert rows[..n] == rows;
    } else {
      ScanPrefix(rows[..|rows| - 1], n);
      assert rows[..|rows| - 1][..n] == rows[..n];
      if n == |rows| - 1 { assert rows[..n] == rows[..|rows| - 1]; }
    }
  }
}
