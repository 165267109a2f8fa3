/** The decision endpoint: a human decision is recorded before the graph is
    re-entered, and every re-entry answers to a recorded decision. */
module Decisions {
  import opened JsonValues
  import opened RunStore
  import opened Leases

  // -------------------------------------------------------------- the endpoint

  datatype Request = Request(workflow: string, runId: string, verdict: Verdict, comment: Option<string>,
                             principal: Principal)

  datatype Response =
    | UnknownRun
    | WorkflowMismatch
    | Conflict(state: State)
    | AlreadyDecided(record: DecisionRecord)
    | Resume(record: DecisionRecord)   // the graph is re-entered when the stream is read

  /** What `decide` does up to the point where it resumes the run. */
  ghost predicate DecideEffect(s: Store, q: Request, uuid: string, now: int, s': Store, r: Response)
  {
    if q.runId !in s.runs then r == UnknownRun && s' == s
    else if s.runs[q.runId].workflow != q.workflow then r == WorkflowMismatch && s' == s
    else
      exists d {:trigger DecideStep(s, q.runId, q.verdict, q.principal, q.comment, uuid, now, s', d)} ::
        && DecideStep(s, q.runId, q.verdict, q.principal, q.comment, uuid, now, s', d)
        && r == match d {
                  case Err(RunNotFound) => UnknownRun
                  case Err(RunConflict(state)) => Conflict(state)
                  case Ok((record, isNew)) => if isNew then Resume(record) else AlreadyDecided(record)
                }
  }

  method Decide(store: InMemoryRunStore, q: Request, uuid: string, now: int) returns (r: Response)
    requires Sound(store.Contents())
    modifies store
    ensures Sound(store.Contents())
    ensures DecideEffect(old(store.Contents()), q, uuid, now, store.Contents(), r)
  {
    var run := store.GetRun(q.runId);
    if run.Err? { return UnknownRun; }
    if run.value.workflow != q.workflow { return WorkflowMismatch; }
    var d := store.AppendDecision(q.runId, q.verdict, q.principal, q.comment, uuid, now);
    match d
    case Err(RunNotFound) => r := UnknownRun;
    case Err(RunConflict(state)) => r := Conflict(state);
    case Ok(pair) => r := if pair.1 then Resume(pair.0) else AlreadyDecided(pair.0);
  }

  /** A repeat of the last decision on a run that has moved on changes nothing;
      any other decision on it is refused; a decision is recorded if and only if
      the run is awaiting one. */
  lemma DecideAnswers(s: Store, q: Request, uuid: string, now: int, s': Store, r: Response)
    requires Sound(s) && DecideEffect(s, q, uuid, now, s', r)
    requires q.runId in s.runs && s.runs[q.runId].workflow == q.workflow
    ensures r.Resume? <==> s.runs[q.runId].state == AwaitingDecision
    ensures !r.Resume? ==> s' == s
    ensures r.AlreadyDecided? || r.Conflict? || r.Resume?
    ensures
      var chain := Chain(s.decisions, q.runId);
      s.runs[q.runId].state != AwaitingDecision ==>
        (r.AlreadyDecided? <==> chain != [] && chain[|chain| - 1].Matches(q.verdict, q.comment, q.principal))
  {
  }

  // ---------------------------------------------------------------- the system

  /** What the graph is handed: the verdict, the comment and the subject. */
  datatype Reentry = Reentry(runId: string, verdict: Verdict, comment: Option<string>, decidedBy: string)

  function ReentryOf(d: DecisionRecord): Reentry
  {
    Reentry(d.runId, d.verdict, d.comment, d.principal.subject)
  }

  /** The store, the handlers between recording and resuming, and the re-entries so far. */
  datatype System = System(store: Store, inFlight: seq<DecisionRecord>, entered: seq<Reentry>)

  datatype Move =
    | Receive(q: Request, uuid: string, now: int, r: Response)
    | Reenter(i: nat)                // a handler's stream is read: the graph is re-entered
    | Crash(i: nat)                  // a handler dies, or its workflow is not registered
    | Other(op: Op, reply: Reply)    // anything else the store is asked to do

  function Dropped(inFlight: seq<DecisionRecord>, i: nat): seq<DecisionRecord>
    requires i < |inFlight|
  {
    inFlight[..i] + inFlight[i + 1..]
  }

  ghost predicate Moves(s: System, m: Move, s': System)
  {
    match m
    case Receive(q, uuid, now, r) =>
      && DecideEffect(s.store, q, uuid, now, s'.store, r)
      && s'.inFlight == (if r.Resume? then s.inFlight + [r.record] else s.inFlight)
      && s'.entered == s.entered
    case Reenter(i) =>
      && i < |s.inFlight|
      && s' == System(s.store, Dropped(s.inFlight, i), s.entered + [ReentryOf(s.inFlight[i])])
    case Crash(i) => i < |s.inFlight| && s' == s.(inFlight := Dropped(s.inFlight, i))
    case Other(op, reply) =>
      && !op.DecideOp?
      && Next(s.store, op, s'.store, reply)
      && s'.inFlight == s.inFlight && s'.entered == s.entered
  }

  ghost predicate Recorded(s: Store, d: DecisionRecord)
  {
    var chain := Chain(s.decisions, d.runId);
    1 <= d.seqNo <= |chain| && chain[d.seqNo - 1] == d
  }

  /** `sources[i]` is the decision behind the i-th re-entry; no decision is behind
      two, and none of those is still waiting to resume. */
  ghost predicate Explained(s: System, sources: seq<DecisionRecord>)
  {
    && |sources| == |s.entered|
    && (forall i :: 0 <= i < |sources| ==> Recorded(s.store, sources[i]) && s.entered[i] == ReentryOf(sources[i]))
    && (forall i :: 0 <= i < |s.inFlight| ==> Recorded(s.store, s.inFlight[i]))
    && (forall i, j :: 0 <= i < j < |sources| ==> sources[i] != sources[j])
    && (forall i, j :: 0 <= i < j < |s.inFlight| ==> s.inFlight[i] != s.inFlight[j])
    && (forall i, j :: 0 <= i < |sources| && 0 <= j < |s.inFlight| ==> sources[i] != s.inFlight[j])
  }

  lemma StillRecorded(s: Store, s': Store, d: DecisionRecord)
    requires Recorded(s, d) && Chain(s.decisions, d.runId) <= Chain(s'.decisions, d.runId)
    ensures Recorded(s', d)
  {
  }

  /** A new decision is recorded, was not before, and nothing recorded is lost. */
  lemma RequestRecords(s: Store, q: Request, uuid: string, now: int, s': Store, r: Response)
    requires Sound(s) && DecideEffect(s, q, uuid, now, s', r)
    ensures Sound(s')
    ensures forall d :: Recorded(s, d) ==> Recorded(s', d)
    ensures r.Resume? ==> Recorded(s', r.record) && !Recorded(s, r.record)
  {
    if r.Resume? {
      var chain := Chain(s.decisions, q.runId);
      assert s' == s.(decisions := s.decisions[q.runId := chain + [r.record]]);
      assert r.record.seqNo == |chain| + 1 && r.record.runId == q.runId;
    }
  }

  lemma OtherRecords(s: Store, op: Op, s': Store, reply: Reply)
    requires Sound(s) && Next(s, op, s', reply)
    ensures Sound(s')
    ensures forall d :: Recorded(s, d) ==> Recorded(s', d)
  {
    StepSound(s, op, s', reply);
    forall d | Recorded(s, d) ensures Recorded(s', d) {
      StepKeepsChains(s, op, s', reply, d.runId);
      StillRecorded(s, s', d);
    }
  }

  lemma ReceiveExplained(s: System, q: Request, uuid: string, now: int, r: Response, s': System,
                         sources: seq<DecisionRecord>)
    requires Sound(s.store) && Explained(s, sources) && Moves(s, Receive(q, uuid, now, r), s')
    ensures Sound(s'.store) && Explained(s', sources)
  {
    RequestRecords(s.store, q, uuid, now, s'.store, r);
  }

  lemma ReenterExplained(s: System, i: nat, s': System, sources: seq<DecisionRecord>)
    requires Explained(s, sources) && Moves(s, Reenter(i), s')
    ensures Explained(s', sources + [s.inFlight[i]])
  {
  }

  /** Every move keeps each re-entry explained by its own recorded decision. */
  lemma MoveExplained(s: System, m: Move, s': System, sources: seq<DecisionRecord>)
    returns (sources': seq<DecisionRecord>)
    requires Sound(s.store) && Explained(s, sources) && Moves(s, m, s')
    ensures Sound(s'.store) && Explained(s', sources')
    ensures sources <= sources' && s.entered <= s'.entered
  {
    sources' := sources;
    match m
    case Receive(q, uuid, now, r) => ReceiveExplained(s, q, uuid, now, r, s', sources);
    case Reenter(i) =>
      ReenterExplained(s, i, s', sources);
      sources' := sources + [s.inFlight[i]];
    case Crash(i) =>
    case Other(op, reply) => OtherRecords(s.store, op, s'.store, reply);
  }

  // ------------------------------------------------------------- whole histories

  /** A run of the system: `states[k + 1]` follows from `states[k]` by `moves[k]`. */
  ghost predicate StepsTo(states: seq<System>, moves: seq<Move>, k: nat)
    requires |states| == |moves| + 1 && k < |moves|
  {
    Moves(states[k], moves[k], states[k + 1])
  }

  ghost predicate Execution(states: seq<System>, moves: seq<Move>)
  {
    && |states| == |moves| + 1
    && forall k: nat {:trigger StepsTo(states, moves, k)} :: k < |moves| ==> StepsTo(states, moves, k)
  }

  /** Decisions precede re-entries: at any point of any execution, crashes
      included, the re-entries so far map one to one to decisions already in the
      chains, each carrying that decision's verdict, comment and subject. */
  lemma {:induction false} ReentriesAreDecided(states: seq<System>, moves: seq<Move>, k: nat)
    returns (sources: seq<DecisionRecord>)
    requires Execution(states, moves) && k < |states|
    requires Sound(states[0].store) && states[0].inFlight == [] && states[0].entered == []
    ensures Sound(states[k].store)
    ensures |sources| == |states[k].entered|
    ensures forall i :: 0 <= i < |sources| ==>
              Recorded(states[k].store, sources[i]) && states[k].entered[i] == ReentryOf(sources[i])
    ensures forall i, j :: 0 <= i < j < |sources| ==> sources[i] != sources[j]
    ensures Explained(states[k], sources)
  {
    if k == 0 {
      sources := [];
    } else {
      sources := ReentriesAreDecided(states, moves, k - 1);
      assert StepsTo(states, moves, k - 1);
      sources := MoveExplained(states[k - 1], moves[k - 1], states[k], sources);
    }
  }

  // ----------------------------------------------- not one decision per pause

  function PausedRun(): RunRecord
  {
    NewRun("r", "w", Null, None, 0, 0).(state := AwaitingDecision)
  }

  const ALICE := Principal("alice", {}, "")
  const BOB := Principal("bob", {}, "")
  const FIRST := DecisionRecord("a", "r", 1, Approve, None, ALICE, 1)
  const SECOND := DecisionRecord("b", "r", 2, Reject, None, BOB, 2)

  function PausedWith(chain: seq<DecisionRecord>): Store
  {
    Store(map["r" := PausedRun()], if chain == [] then map[] else map["r" := chain])
  }

  lemma DecidedTwice()
    ensures DecideEffect(PausedWith([]), Request("w", "r", Approve, None, ALICE), "a", 1, PausedWith([FIRST]), Resume(FIRST))
    ensures DecideEffect(PausedWith([FIRST]), Request("w", "r", Reject, None, BOB), "b", 2, PausedWith([FIRST, SECOND]),
                         Resume(SECOND))
  {
    var s0, s1, s2 := PausedWith([]), PausedWith([FIRST]), PausedWith([FIRST, SECOND]);
    assert Chain(s0.decisions, "r") == [] && [] + [FIRST] == [FIRST];
    assert s0.decisions["r" := [FIRST]] == s1.decisions;
    assert DecideStep(s0, "r", Approve, ALICE, None, "a", 1, s1, Ok((FIRST, true)));
    assert Chain(s1.decisions, "r") == [FIRST] && [FIRST] + [SECOND] == [FIRST, SECOND];
    assert s1.decisions["r" := [FIRST, SECOND]] == s2.decisions;
    assert DecideStep(s1, "r", Reject, BOB, None, "b", 2, s2, Ok((SECOND, true)));
  }

  /** Two people decide, one after the other, and both streams are read. */
  function TwiceStates(): seq<System>
  {
    var s0, s1, s2 := PausedWith([]), PausedWith([FIRST]), PausedWith([FIRST, SECOND]);
    [System(s0, [], []), System(s1, [FIRST], []), System(s2, [FIRST, SECOND], []),
     System(s2, [SECOND], [ReentryOf(FIRST)]), System(s2, [], [ReentryOf(FIRST), ReentryOf(SECOND)])]
  }

  function TwiceMoves(): seq<Move>
  {
    [Receive(Request("w", "r", Approve, None, ALICE), "a", 1, Resume(FIRST)),
     Receive(Request("w", "r", Reject, None, BOB), "b", 2, Resume(SECOND)), Reenter(0), Reenter(0)]
  }

  /** A resumed run stays `awaiting_decision` until its stream marks it, so one
      pause can take two contradicting decisions: an execution in which both are
      recorded, both re-enter the graph, and the run is paused throughout. */
  lemma TwoDecisionsOnePause() returns (states: seq<System>, moves: seq<Move>)
    ensures Execution(states, moves) && |moves| == 4
    ensures Sound(states[0].store) && states[0].inFlight == [] && states[0].entered == []
    ensures forall k :: 0 <= k < |states| ==>
              "r" in states[k].store.runs && states[k].store.runs["r"].state == AwaitingDecision
    ensures states[4].entered == [ReentryOf(FIRST), ReentryOf(SECOND)] && FIRST.verdict != SECOND.verdict
  {
    states, moves := TwiceStates(), TwiceMoves();
    TwiceExecutes();
    TwicePaused();
  }

  lemma TwiceExecutes()
    ensures Execution(TwiceStates(), TwiceMoves())
  {
    BothReceived(PausedWith([]), PausedWith([FIRST]), PausedWith([FIRST, SECOND]));
    BothReenter(PausedWith([FIRST, SECOND]));
    FourMoves(TwiceStates(), TwiceMoves());
  }

  lemma TwicePaused()
    ensures forall k :: 0 <= k < |TwiceStates()| ==>
              var store := TwiceStates()[k].store; "r" in store.runs && store.runs["r"].state == AwaitingDecision
    ensures Sound(TwiceStates()[0].store)
  {
  }

  lemma FourMoves(states: seq<System>, moves: seq<Move>)
    requires |states| == 5 && |moves| == 4
    requires Moves(states[0], moves[0], states[1]) && Moves(states[1], moves[1], states[2])
    requires Moves(states[2], moves[2], states[3]) && Moves(states[3], moves[3], states[4])
    ensures Execution(states, moves)
  {
    forall k: nat {:trigger StepsTo(states, moves, k)} | k < |moves| ensures StepsTo(states, moves, k) {
      assert k == 0 || k == 1 || k == 2 || k == 3;
    }
  }

  lemma BothReceived(s0: Store, s1: Store, s2: Store)
    requires s0 == PausedWith([]) && s1 == PausedWith([FIRST]) && s2 == PausedWith([FIRST, SECOND])
    ensures Moves(System(s0, [], []), Receive(Request("w", "r", Approve, None, ALICE), "a", 1, Resume(FIRST)),
                  System(s1, [FIRST], []))
    ensures Moves(System(s1, [FIRST], []), Receive(Request("w", "r", Reject, None, BOB), "b", 2, Resume(SECOND)),
                  System(s2, [FIRST, SECOND], []))
  {
    DecidedTwice();
    assert [] + [FIRST] == [FIRST] && [FIRST] + [SECOND] == [FIRST, SECOND];
  }

  lemma BothReenter(s: Store)
    ensures Moves(System(s, [FIRST, SECOND], []), Reenter(0), System(s, [SECOND], [ReentryOf(FIRST)]))
    ensures Moves(System(s, [SECOND], [ReentryOf(FIRST)]), Reenter(0), System(s, [], [ReentryOf(FIRST), ReentryOf(SECOND)]))
  {
    assert Dropped([FIRST, SECOND], 0) == [SECOND] && Dropped([SECOND], 0) == [];
  }

  // -------------------------------------------------- when two share one pause

  ghost predicate Awaiting(s: Store, id: string)
  {
    id in s.runs && s.runs[id].state == AwaitingDecision
  }

  /** The step records a new decision on the run. */
  ghost predicate Records(e: Entry, id: string)
  {
    e.op.DecideOp? && e.op.id == id && e.reply.Decision? && e.reply.d.Ok? && e.reply.d.value.1
  }

  /** The step marks the run as something else, or expires it. */
  ghost predicate LeavesPause(s: Store, e: Entry, id: string)
  {
    || (e.op.MarkOp? && e.op.id == id && e.op.state != AwaitingDecision)
    || (e.op.ExpireOp? && id in s.runs && Stale(s.runs[id], e.op.cutoff))
  }

  lemma StepKeepsPause(s: Store, e: Entry, id: string)
    requires Sound(s) && Next(s, e.op, e.after, e.reply) && Awaiting(s, id)
    ensures Awaiting(e.after, id) <==> !LeavesPause(s, e, id)
  {
    if e.op.ClaimOp? && e.reply.run.Some? {
      var queue := Reclaimed(s.runs, e.op.reclaimNow);
      assert queue[id] == s.runs[id];
      assert e.reply.run.value.id != id;
    }
  }

  lemma {:induction false} PauseLasts(s0: Store, history: seq<Entry>, i: nat, k: nat, id: string)
    requires Sound(s0) && History(s0, history) && i <= k <= |history|
    requires Awaiting(Before(s0, history, i), id)
    requires forall m :: i <= m < k ==> !LeavesPause(Before(s0, history, m), history[m], id)
    ensures forall m :: i <= m <= k ==> Awaiting(Before(s0, history, m), id)
    decreases k
  {
    if k > i {
      PauseLasts(s0, history, i, k - 1, id);
      EntryAt(s0, history, k - 1);
      StepKeepsPause(Before(s0, history, k - 1), history[k - 1], id);
    }
  }

  /** Two decisions recorded on a run fall into one pause if and only if no step
      between them marked the run as anything else or expired it. */
  lemma OnePauseIff(s0: Store, history: seq<Entry>, i: nat, j: nat, id: string)
    requires Sound(s0) && History(s0, history)
    requires i < j < |history| && Records(history[i], id) && Records(history[j], id)
    ensures (forall m :: i <= m <= j ==> Awaiting(Before(s0, history, m), id)) <==>
            (forall m :: i < m < j ==> !LeavesPause(Before(s0, history, m), history[m], id))
  {
    EntryAt(s0, history, i);
    EntryAt(s0, history, j);
    assert Awaiting(Before(s0, history, i), id) && !LeavesPause(Before(s0, history, i), history[i], id);
    if forall m :: i < m < j ==> !LeavesPause(Before(s0, history, m), history[m], id) {
      PauseLasts(s0, history, i, j, id);
    }
    if forall m :: i <= m <= j ==> Awaiting(Before(s0, history, m), id) {
      forall m | i < m < j ensures !LeavesPause(Before(s0, history, m), history[m], id) {
        EntryAt(s0, history, m);
        assert Awaiting(Before(s0, history, m), id) && Awaiting(Before(s0, history, m + 1), id);
        StepKeepsPause(Before(s0, history, m), history[m], id);
      }
    }
  }
}
