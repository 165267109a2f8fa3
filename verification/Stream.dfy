/** One leg of a streamed run (`Runner._stream`): what is emitted, how the run is
    left, what is metered, and which spans are closed, whatever fails and
    whenever the client goes away. */
module Stream {
  import opened JsonValues
  import opened RunStore
  import opened RunLog
  import Leases

  // ------------------------------------------------------------------ vocabulary

  datatype Usage = Usage(inputTokens: int, outputTokens: int)
  {
    function Plus(other: Usage): Usage
    {
      Usage(inputTokens + other.inputTokens, outputTokens + other.outputTokens)
    }
  }

  datatype CostEntry = CostEntry(runId: string, workflow: string, model: string, usage: Usage)

  datatype Event =
    | Token(text: string)
    | Node(node: string, status: string)
    | Error(error: string)
    | Final(output: Json, cached: bool)
    | Interrupt(payload: Json)

  predicate Terminal(e: Event)
  {
    e.Error? || e.Final? || e.Interrupt?
  }

  /** What the graph reports, as `_map_event` tells it apart. */
  datatype RawEvent =
    | ModelStream(text: string)
    | ModelEnd(spent: Usage)
    | NodeStart(id: string, name: string)
    | NodeEnd(id: string, name: string)
    | RootEnd(output: Option<Json>)   // `None` when the output is not a mapping
    | Unmapped

  datatype Fault = ContractFault | OtherFault(name: string)

  function FaultName(f: Fault): string
  {
    match f case ContractFault => "contract_error" case OtherFault(name) => name
  }

  /** How an await ends. A failed write may or may not have been applied. `Gone`
      is the client closing the stream, or the task being cancelled. */
  datatype Signal = Fine | Raised(fault: Fault, applied: bool) | Gone

  /** Everything this leg does not decide itself. */
  datatype Script = Script(
    signal: nat -> Signal,             // the outcome of the k-th await of the `try` body
    stays: nat -> bool,                // is the client still there after the k-th event
    clock: nat -> int,
    keyed: bool,                       // a cache is configured and the call has a key
    cached: Option<Json>,              // the response cache's answer
    events: seq<RawEvent>,             // what the graph reports
    pending: Option<Json>,             // the payload of an outstanding interrupt
    output: Json -> Result<Json, Fault>,   // extraction and the output contract
    others: nat -> seq<Leases.Op>)     // what other actors do to the store, whenever this leg lets them

  // ------------------------------------------------- what a list of events is worth

  function Mapped(raw: RawEvent): (events: seq<Event>)
    ensures |events| <= 1
  {
    match raw
    case ModelStream(text) => if text == "" then [] else [Token(text)]
    case NodeStart(_, name) => [Node(name, "started")]
    case NodeEnd(_, name) => [Node(name, "completed")]
    case _ => []
  }

  function MappedAll(events: seq<RawEvent>): seq<Event>
  {
    if events == [] then [] else MappedAll(events[..|events| - 1]) + Mapped(events[|events| - 1])
  }

  lemma MappedOneMore(events: seq<RawEvent>, k: nat)
    requires k < |events|
    ensures MappedAll(events[..k + 1]) == MappedAll(events[..k]) + Mapped(events[k])
  {
    var seen := events[..k + 1];
    assert seen[..|seen| - 1] == events[..k] && seen[|seen| - 1] == events[k];
  }

  function Spent(events: seq<RawEvent>): Usage
  {
    if events == [] then Usage(0, 0)
    else
      var before, last := Spent(events[..|events| - 1]), events[|events| - 1];
      if last.ModelEnd? then before.Plus(last.spent) else before
  }

  function LastState(events: seq<RawEvent>): Option<Json>
  {
    if events == [] then None
    else
      var before, last := LastState(events[..|events| - 1]), events[|events| - 1];
      if last.RootEnd? && last.output.Some? then last.output else before
  }

  lemma SpentOneMore(before: seq<RawEvent>, seen: seq<RawEvent>, raw: RawEvent)
    requires |seen| > 0 && seen[..|seen| - 1] == before && seen[|seen| - 1] == raw
    ensures Spent(seen) == if raw.ModelEnd? then Spent(before).Plus(raw.spent) else Spent(before)
    ensures LastState(seen) == if raw.RootEnd? && raw.output.Some? then raw.output else LastState(before)
  {
  }

  /** The node runs still open after these events. */
  function OpenNodes(events: seq<RawEvent>): set<string>
  {
    if events == [] then {}
    else
      var before, last := OpenNodes(events[..|events| - 1]), events[|events| - 1];
      match last
      case NodeStart(id, _) => before + {id}
      case NodeEnd(id, _) => before - {id}
      case _ => before
  }

  /** How often a node run starts whose id is already open: its first span is
      then dropped without being ended. */
  function Overwrites(events: seq<RawEvent>): nat
  {
    if events == [] then 0
    else
      var last := events[|events| - 1];
      Overwrites(events[..|events| - 1]) +
      if last.NodeStart? && last.id in OpenNodes(events[..|events| - 1]) then 1 else 0
  }

  function Starts(events: seq<RawEvent>): nat
  {
    if events == [] then 0
    else Starts(events[..|events| - 1]) + if events[|events| - 1].NodeStart? then 1 else 0
  }

  function StateFor(e: Event): State
    requires Terminal(e)
  {
    match e
    case Final(_, _) => Completed
    case Interrupt(_) => AwaitingDecision
    case Error(_) => Failed
  }

  // ------------------------------------------------------------------- spans

  /** The tracer's side of a leg: spans `0 .. started` exist, `open` is
      `node_spans`, `ended` lists the spans ended so far. */
  datatype Spans = Spans(open: map<string, nat>, started: nat, ended: seq<nat>)

  function StartSpan(s: Spans, id: string): Spans
  {
    Spans(s.open[id := s.started], s.started + 1, s.ended)
  }

  function EndSpan(s: Spans, id: string): Spans
  {
    if id in s.open then Spans(s.open - {id}, s.started, s.ended + [s.open[id]]) else s
  }

  /** No span is ended twice; each one is ended, open, or was overwritten. */
  ghost predicate SpansSound(s: Spans, overwritten: nat)
  {
    && (forall id :: id in s.open ==> s.open[id] < s.started && s.open[id] !in s.ended)
    && (forall i :: 0 <= i < |s.ended| ==> s.ended[i] < s.started)
    && (forall i, j :: 0 <= i < j < |s.ended| ==> s.ended[i] != s.ended[j])
    && (forall id, id' :: id in s.open && id' in s.open && id != id' ==> s.open[id] != s.open[id'])
    && |s.ended| + |s.open| + overwritten == s.started
  }

  lemma StartSound(s: Spans, id: string, overwritten: nat)
    requires SpansSound(s, overwritten)
    ensures SpansSound(StartSpan(s, id), overwritten + if id in s.open then 1 else 0)
  {
    var s' := StartSpan(s, id);
    if id in s.open {
      assert s'.open.Keys == s.open.Keys;
      assert |s'.open| == |s'.open.Keys| == |s.open.Keys| == |s.open|;
    } else {
      assert s'.open.Keys == s.open.Keys + {id};
      assert |s'.open| == |s'.open.Keys| == |s.open.Keys| + 1;
    }
  }

  lemma EndSound(s: Spans, id: string, overwritten: nat)
    requires SpansSound(s, overwritten)
    ensures SpansSound(EndSpan(s, id), overwritten)
    ensures EndSpan(s, id).open.Keys == s.open.Keys - {id}
  {
    var s' := EndSpan(s, id);
    if id in s.open {
      assert s'.open.Keys == s.open.Keys - {id};
      assert |s'.open| == |s'.open.Keys| == |s.open.Keys| - 1;
    }
  }

  /** The spans are those of the events seen. */
  ghost predicate SpansOf(s: Spans, seen: seq<RawEvent>)
  {
    s.open.Keys == OpenNodes(seen) && s.started == Starts(seen) && SpansSound(s, Overwrites(seen))
  }

  function SpansAfter(s: Spans, raw: RawEvent): Spans
  {
    match raw
    case NodeStart(id, _) => StartSpan(s, id)
    case NodeEnd(id, _) => EndSpan(s, id)
    case _ => s
  }

  lemma SeenOneMore(before: seq<RawEvent>, seen: seq<RawEvent>, raw: RawEvent)
    requires |seen| > 0 && seen[..|seen| - 1] == before && seen[|seen| - 1] == raw
    ensures OpenNodes(seen) == match raw
                               case NodeStart(id, _) => OpenNodes(before) + {id}
                               case NodeEnd(id, _) => OpenNodes(before) - {id}
                               case _ => OpenNodes(before)
    ensures Starts(seen) == Starts(before) + if raw.NodeStart? then 1 else 0
    ensures Overwrites(seen) == Overwrites(before) + if raw.NodeStart? && raw.id in OpenNodes(before) then 1 else 0
  {
  }

  lemma SpansFollow(s: Spans, before: seq<RawEvent>, seen: seq<RawEvent>, raw: RawEvent)
    requires |seen| > 0 && seen[..|seen| - 1] == before && seen[|seen| - 1] == raw
    requires SpansOf(s, before)
    ensures SpansOf(SpansAfter(s, raw), seen)
  {
    SeenOneMore(before, seen, raw);
    SpansStep(s, raw, Overwrites(before));
  }

  lemma SpansStep(s: Spans, raw: RawEvent, overwritten: nat)
    requires SpansSound(s, overwritten)
    ensures var s' := SpansAfter(s, raw);
            && s'.open.Keys == (match raw
                                case NodeStart(id, _) => s.open.Keys + {id}
                                case NodeEnd(id, _) => s.open.Keys - {id}
                                case _ => s.open.Keys)
            && s'.started == s.started + (if raw.NodeStart? then 1 else 0)
            && SpansSound(s', overwritten + if raw.NodeStart? && raw.id in s.open then 1 else 0)
  {
    match raw
    case NodeStart(id, _) => StartSound(s, id, overwritten);
    case NodeEnd(id, _) => EndSound(s, id, overwritten);
    case _ =>
  }

  function Below(n: nat): (s: set<nat>)
    ensures |s| == n && forall x: nat :: x in s <==> x < n
  {
    if n == 0 then {} else Below(n - 1) + {n - 1}
  }

  /** As many distinct elements as the set has: all of them. */
  lemma {:induction false} Fills(xs: seq<nat>, s: set<nat>)
    requires forall i :: 0 <= i < |xs| ==> xs[i] in s
    requires forall i, j :: 0 <= i < j < |xs| ==> xs[i] != xs[j]
    requires |xs| == |s|
    ensures forall x :: x in s ==> x in xs
  {
    if xs == [] {
      assert s == {};
    } else {
      var last := xs[|xs| - 1];
      Fills(xs[..|xs| - 1], s - {last});
      forall x | x in s ensures x in xs {
        if x != last { assert x in xs[..|xs| - 1]; }
      }
    }
  }

  // ------------------------------------------------------------ what is logged

  function LogStatus(e: Event): string
  {
    match e
    case Node(_, status) => status
    case Interrupt(_) => "awaiting_decision"
    case Error(_) => "failed"
    case _ => "completed"
  }

  /** What an entry says: the step, for a node's event, and the status. */
  type Kind = (Option<string>, string)

  function KindOf(e: Event): Kind
  {
    (if e.Node? then Some(e.node) else None, LogStatus(e))
  }

  /** The entries a list of events calls for: tokens are not logged. */
  function Kinds(events: seq<Event>): seq<Kind>
  {
    if events == [] then []
    else
      var last := events[|events| - 1];
      Kinds(events[..|events| - 1]) + (if last.Token? then [] else [KindOf(last)])
  }

  lemma KindsSnoc(events: seq<Event>, e: Event)
    ensures Kinds(events + [e]) == Kinds(events) + if e.Token? then [] else [KindOf(e)]
  {
    assert (events + [e])[..|events|] == events;
  }

  /** Between two states of the log, one run of one workflow has gained entries of
      these kinds, in this order, and no other run any. */
  ghost predicate Gained(runId: string, workflow: string, before: map<string, seq<LogEntry>>,
                         after: map<string, seq<LogEntry>>, kinds: seq<Kind>)
  {
    var b, a := EntriesOf(before, runId), EntriesOf(after, runId);
    && |a| == |b| + |kinds| && a[..|b|] == b
    && (forall n :: 0 <= n < |kinds| ==>
          (a[|b| + n].step, a[|b| + n].status) == kinds[n] && a[|b| + n].workflow == workflow)
    && (forall id :: id != runId ==> EntriesOf(after, id) == EntriesOf(before, id))
  }

  lemma GainedOneMore(before: map<string, seq<LogEntry>>, mid: map<string, seq<LogEntry>>, kinds: seq<Kind>, w: Write)
    requires Gained(w.runId, w.workflow, before, mid, kinds)
    ensures Gained(w.runId, w.workflow, before, Appended(mid, w), kinds + [(w.step, w.status)])
  {
    var b, m, a := EntriesOf(before, w.runId), EntriesOf(mid, w.runId), EntriesOf(Appended(mid, w), w.runId);
    var longer := kinds + [(w.step, w.status)];
    assert a == m + [a[|m|]];
    forall n | 0 <= n < |longer|
      ensures (a[|b| + n].step, a[|b| + n].status) == longer[n] && a[|b| + n].workflow == w.workflow
    {
      if n < |kinds| {
        assert a[|b| + n] == m[|b| + n];
        assert (m[|b| + n].step, m[|b| + n].status) == kinds[n];
      }
    }
    forall id | id != w.runId ensures EntriesOf(Appended(mid, w), id) == EntriesOf(before, id) {
      assert EntriesOf(mid, id) == EntriesOf(before, id);
    }
  }

  /** What is kept of the events seen. */
  ghost predicate Tracked(seen: seq<RawEvent>, usage: Usage, finalState: Option<Json>, spans: Spans)
  {
    usage == Spent(seen) && finalState == LastState(seen) && SpansOf(spans, seen)
  }

  // -------------------------------------------------------- who wrote to the store

  /** What has happened to the store since `start`, and which of these steps were
      the leg's own. */
  datatype Trace = Trace(start: Store, past: seq<Leases.Entry>, own: seq<nat>)

  /** The one run a leg writes to. */
  ghost predicate ForRun(op: Leases.Op, runId: string)
  {
    (op.CreateOp? || op.MarkOp?) && op.id == runId
  }

  ghost predicate Traced(t: Trace, runId: string, alone: bool)
  {
    && Sound(t.start) && Leases.History(t.start, t.past)
    && (forall i :: 0 <= i < |t.own| ==> t.own[i] < |t.past| && ForRun(t.past[t.own[i]].op, runId))
    && (forall i, j :: 0 <= i < j < |t.own| ==> t.own[i] < t.own[j])
    && (alone ==> |t.own| == |t.past| && forall i :: 0 <= i < |t.own| ==> t.own[i] == i)
  }

  /** The trace with one step more. */
  ghost function Longer(t: Trace, e: Leases.Entry, mine: bool): Trace
  {
    Trace(t.start, t.past + [e], if mine then t.own + [|t.past|] else t.own)
  }

  ghost function Latest(t: Trace): Store
  {
    Leases.Before(t.start, t.past, |t.past|)
  }

  lemma TracedOwn(t: Trace, runId: string, alone: bool, e: Leases.Entry)
    requires Traced(t, runId, alone) && ForRun(e.op, runId)
    requires Leases.Next(Latest(t), e.op, e.after, e.reply)
    ensures Traced(Longer(t, e, true), runId, alone) && Latest(Longer(t, e, true)) == e.after
    ensures Acted(t, Longer(t, e, true))
  {
    var t' := Longer(t, e, true);
    Leases.HistorySnoc(t.start, t.past, e);
    forall i | 0 <= i < |t'.own| ensures t'.own[i] < |t'.past| && ForRun(t'.past[t'.own[i]].op, runId) {
      if i < |t.own| { assert t'.past[t'.own[i]] == t.past[t.own[i]]; }
    }
  }

  lemma TracedOther(t: Trace, runId: string, e: Leases.Entry)
    requires Traced(t, runId, false) && Leases.Next(Latest(t), e.op, e.after, e.reply)
    ensures Traced(Longer(t, e, false), runId, false) && Latest(Longer(t, e, false)) == e.after
    ensures Waited(t, Longer(t, e, false))
  {
    var t' := Longer(t, e, false);
    Leases.HistorySnoc(t.start, t.past, e);
    forall i | 0 <= i < |t'.own| ensures t'.own[i] < |t'.past| && ForRun(t'.past[t'.own[i]].op, runId) {
      assert t'.past[t'.own[i]] == t.past[t.own[i]];
    }
  }

  /** Between these two moments the leg has done nothing to the store; others may
      have. */
  ghost predicate Waited(t: Trace, t': Trace)
  {
    t'.start == t.start && t'.own == t.own && t.past <= t'.past
  }

  /** ... the leg has taken one step on the store. */
  ghost predicate Acted(t: Trace, t': Trace)
  {
    && t'.start == t.start && t.past <= t'.past
    && |t'.own| == |t.own| + 1 && t'.own[..|t.own|] == t.own && |t.past| <= t'.own[|t.own|] < |t'.past|
  }

  lemma WaitedOn(a: Trace, b: Trace, c: Trace)
    requires Waited(b, c)
    ensures Waited(a, b) ==> Waited(a, c)
    ensures Acted(a, b) ==> Acted(a, c)
  {
  }

  /** The last thing the leg did to the store is this. */
  ghost predicate LastOwn(t: Trace, op: Leases.Op)
  {
    t.own != [] && t.own[|t.own| - 1] < |t.past| && t.past[t.own[|t.own| - 1]].op == op
  }

  /** ... the creation of this run, which was not there before. */
  ghost predicate LastCreated(t: Trace, id: string, workflow: string)
  {
    && t.own != [] && t.own[|t.own| - 1] < |t.past|
    && var e := t.past[t.own[|t.own| - 1]];
    && e.op.CreateOp? && e.op.id == id && e.op.workflow == workflow && e.reply.Record? && e.reply.r.Ok?
  }

  lemma LastCreatedStays(t: Trace, t': Trace, id: string, workflow: string)
    requires Waited(t, t') && LastCreated(t, id, workflow)
    ensures LastCreated(t', id, workflow)
  {
  }

  function Remarked(s: Store, id: string, state: State, gate: Option<Json>, now: int): Store
  {
    if id in s.runs then s.(runs := s.runs[id := MarkedRun(s.runs[id], state, gate, now)]) else s
  }

  /** ... a mark of this run, and this is what it made of the store. */
  ghost predicate LastMark(t: Trace, id: string, state: State, gate: Option<Json>, now: int)
  {
    && LastOwn(t, Leases.MarkOp(id, state, gate, now))
    && var m := t.own[|t.own| - 1];
    && t.past[m].after == Remarked(Leases.Before(t.start, t.past, m), id, state, gate, now)
  }

  lemma LastMarkMade(t: Trace, e: Leases.Entry, id: string, state: State, gate: Option<Json>, now: int)
    requires e.op == Leases.MarkOp(id, state, gate, now) && Leases.Next(Latest(t), e.op, e.after, e.reply)
    ensures LastMark(Longer(t, e, true), id, state, gate, now)
  {
    assert Leases.Before(t.start, t.past + [e], |t.past|) == Latest(t);
  }

  lemma LastMarkStays(t: Trace, t': Trace, id: string, state: State, gate: Option<Json>, now: int)
    requires Waited(t, t') && LastMark(t, id, state, gate, now)
    ensures LastMark(t', id, state, gate, now)
  {
    var m := t.own[|t.own| - 1];
    assert Leases.Before(t'.start, t'.past, m) == Leases.Before(t.start, t.past, m);
  }

  /** The run, if there is one, is in the state of the leg's last mark, unless a
      later step of someone else moved it. */
  ghost predicate LeftIn(t: Trace, id: string, state: State)
  {
    && t.own != []
    && (id in Latest(t).runs && Latest(t).runs[id].state != state ==>
          exists k: nat {:trigger Moved(t, k, id)} :: t.own[|t.own| - 1] < k < |t.past| && Moved(t, k, id))
  }

  ghost predicate Moved(t: Trace, k: nat, id: string)
  {
    k < |t.past| && Leases.Moves(t.start, t.past, k, id)
  }

  lemma MarkedIsLeft(t: Trace, id: string, state: State, gate: Option<Json>, now: int, alone: bool)
    requires Traced(t, id, alone) && LastMark(t, id, state, gate, now)
    ensures LeftIn(t, id, state)
    ensures alone && id in Latest(t).runs ==> Latest(t).runs[id].state == state
  {
    if id in Latest(t).runs {
      var m := t.own[|t.own| - 1];
      if forall k: nat {:trigger Moved(t, k, id)} :: m < k < |t.past| ==> !Moved(t, k, id) {
        forall k: nat | m < k < |t.past| ensures !Leases.Moves(t.start, t.past, k, id) {
          assert !Moved(t, k, id);
        }
        Leases.MarkHolds(t.start, t.past, m, |t.past|, id);
      }
    }
  }

  // ------------------------------------------------------------------ one leg

  class Leg {
    const runId: string
    const workflow: string
    const model: string
    const resuming: bool
    const durable: bool          // a run store is configured
    const logged: bool           // a run log is configured
    const script: Script
    const store: InMemoryRunStore
    const log: InMemoryRunLogStore

    var awaited: nat
    var emitted: seq<Event>
    var consumed: nat
    var usage: Usage
    var finalState: Option<Json>
    var spans: Spans
    var costs: seq<CostEntry>
    var turns: nat               // how often other actors had their turn

    ghost var start: Store       // the store when the stream began
    ghost var trace: Trace       // and what has happened to it since

    constructor (runId: string, workflow: string, model: string, resuming: bool, durable: bool, logged: bool,
                 script: Script, store: InMemoryRunStore, log: InMemoryRunLogStore, costs: seq<CostEntry>)
      ensures this.runId == runId && this.workflow == workflow && this.model == model
      ensures this.resuming == resuming && this.durable == durable && this.logged == logged
      ensures this.script == script && this.store == store && this.log == log
      ensures this.costs == costs && Fresh()
    {
      this.runId, this.workflow, this.model := runId, workflow, model;
      this.resuming, this.durable, this.logged := resuming, durable, logged;
      this.script, this.store, this.log := script, store, log;
      this.costs := costs;
      awaited, emitted, consumed := 0, [], 0;
      usage, finalState := Usage(0, 0), None;
      spans := Spans(map[], 0, []);
      turns := 0;
    }

    ghost predicate Fresh()
      reads this`emitted, this`consumed, this`usage, this`finalState, this`spans
    {
      && emitted == [] && consumed == 0 && usage == Usage(0, 0) && finalState == None
      && spans == Spans(map[], 0, [])
    }

    /** Nobody else touches the store. */
    ghost predicate Alone()
    {
      forall n: nat :: script.others(n) == []
    }

    /** The store stands where its history since the start has brought it. */
    ghost predicate Witnessed()
      reads this`start, this`trace, store
    {
      trace.start == start && Traced(trace, runId, Alone()) && store.Contents() == Latest(trace)
    }

    ghost predicate Writable()
      reads this`start, this`trace, store, log
    {
      Sound(store.Contents()) && Numbered(log.entries) && Witnessed()
    }

    /** What has been kept while consuming the graph's events. */
    ghost predicate Tracking()
      reads this`consumed, this`usage, this`finalState, this`spans
    {
      consumed <= |script.events| && Tracked(script.events[..consumed], usage, finalState, spans)
    }

    /** The entries a list of events calls for, when there is a log. */
    function Told(events: seq<Event>): seq<Kind>
    {
      if logged then Kinds(events) else []
    }

    /** Since `before`, the log has gained the entries of the events emitted, and
        then `extra`. */
    ghost predicate LogIs(before: map<string, seq<LogEntry>>, extra: seq<Kind>)
      reads this`emitted, log
    {
      Gained(runId, workflow, before, log.entries, Told(emitted) + extra)
    }

    /** ... with at most one entry more: of an event logged and not emitted. */
    ghost predicate AtMostOneAhead(before: map<string, seq<LogEntry>>)
      reads this`emitted, log
    {
      exists extra: seq<Kind> {:trigger LogIs(before, extra)} :: |extra| <= 1 && LogIs(before, extra)
    }

    lemma ToldSnoc(events: seq<Event>, e: Event)
      ensures Told(events + [e]) == Told(events) + Told([e])
    {
      KindsSnoc(events, e);
      KindsSnoc([], e);
      assert [] + [e] == [e];
    }

    lemma ToldOne(e: Event)
      ensures Told([e]) == if !logged || e.Token? then [] else [KindOf(e)]
    {
      assert [] + [e] == [e];
      KindsSnoc([], e);
    }

    lemma NothingExtra(before: map<string, seq<LogEntry>>)
      requires LogIs(before, [])
      ensures AtMostOneAhead(before)
    {
    }

    function GateOf(e: Event): Option<Json>
    {
      if e.Interrupt? then Some(e.payload) else None
    }

    /** The last thing this leg did to the store was to mark its run so. */
    ghost predicate Marked(e: Event)
      requires Terminal(e)
      reads this`trace
    {
      durable ==> exists now: int :: LastMark(trace, runId, StateFor(e), GateOf(e), now)
    }

    lemma MarkedStays(t: Trace, e: Event, now: int)
      requires Terminal(e) && Waited(t, trace)
      requires durable ==> LastMark(t, runId, StateFor(e), GateOf(e), now)
      ensures Marked(e)
    {
      if durable { LastMarkStays(t, trace, runId, StateFor(e), GateOf(e), now); }
    }

    // ---------------------------------------------------------- the small steps

    /** One step of this leg on the store. */
    method Own(op: Leases.Op) returns (reply: Leases.Reply)
      requires Writable() && ForRun(op, runId)
      modifies this`trace, store
      ensures Writable()
      ensures Leases.Next(old(store.Contents()), op, store.Contents(), reply)
      ensures trace == Longer(old(trace), Leases.Entry(op, reply, store.Contents()), true)
      ensures Acted(old(trace), trace)
    {
      reply := Leases.Apply(store, op);
      ghost var e := Leases.Entry(op, reply, store.Contents());
      TracedOwn(trace, runId, Alone(), e);
      trace := Longer(trace, e, true);
    }

    /** The other actors' turn: whatever they do to the store meanwhile. */
    method Others()
      requires Writable()
      modifies this`turns, this`trace, store
      ensures Writable() && Waited(old(trace), trace)
    {
      var ops := script.others(turns);
      turns := turns + 1;
      for i := 0 to |ops|
        invariant Writable() && Waited(old(trace), trace)
      {
        assert !Alone();
        OneOther(ops[i]);
      }
    }

    method OneOther(op: Leases.Op)
      requires Writable() && !Alone()
      modifies this`trace, store
      ensures Writable() && Waited(old(trace), trace)
    {
      var reply := Leases.Apply(store, op);
      ghost var e := Leases.Entry(op, reply, store.Contents());
      TracedOther(trace, runId, e);
      trace := Longer(trace, e, false);
    }

    method Await() returns (s: Signal)
      requires Writable()
      modifies this`awaited, this`turns, this`trace, store
      ensures Writable() && Waited(old(trace), trace)
      ensures s == script.signal(old(awaited)) && awaited == old(awaited) + 1
    {
      s := script.signal(awaited);
      awaited := awaited + 1;
      Others();
    }

    /** `yield event` */
    method Emit(e: Event) returns (s: Signal)
      requires Writable()
      modifies this`emitted, this`turns, this`trace, store
      ensures Writable() && Waited(old(trace), trace)
      ensures emitted == old(emitted) + [e]
      ensures s == if script.stays(|emitted|) then Fine else Gone
    {
      emitted := emitted + [e];
      s := if script.stays(|emitted|) then Fine else Gone;
      Others();
    }

    /** `_open_run`: a resumed leg has its run already. */
    method OpenRun() returns (s: Signal)
      requires Writable()
      modifies this`awaited, this`turns, this`trace, store
      ensures Writable()
      ensures if resuming || !durable then s.Fine? && trace == old(trace)
              else s.Fine? ==> Acted(old(trace), trace) && LastCreated(trace, runId, workflow)
    {
      if resuming || !durable { return Fine; }
      s := Await();
      if s.Fine? || (s.Raised? && s.applied) {
        var taken := WriteRun();
        if s.Fine? && taken { s := Raised(OtherFault("RunConflictError"), false); }
        ghost var created := trace;
        Others();
        WaitedOn(old(trace), created, trace);
        if !taken { LastCreatedStays(created, trace, runId, workflow); }
      }
    }

    /** The write itself: refused when the id is taken. */
    method WriteRun() returns (taken: bool)
      requires Writable()
      modifies this`trace, store
      ensures Writable() && (!taken ==> LastCreated(trace, runId, workflow))
      ensures forall t: Trace :: Waited(t, old(trace)) ==> Acted(t, trace)
    {
      var r := Own(Leases.CreateOp(runId, workflow, Null, None, script.clock(awaited), script.clock(awaited)));
      taken := r.r.Err?;
    }

    /** `_mark`: a run that does not exist is passed over. */
    method Mark(state: State, gate: Option<Json>) returns (s: Signal)
      requires Writable()
      modifies this`awaited, this`turns, this`trace, store
      ensures Writable()
      // The write happened if the await succeeded, or failed after applying it.
      ensures if durable && (s.Fine? || (s.Raised? && s.applied)) then
                && Acted(old(trace), trace)
                && LastMark(trace, runId, state, gate, script.clock(awaited))
              else Waited(old(trace), trace)
    {
      if !durable { return Fine; }
      s := Await();
      if s.Fine? || (s.Raised? && s.applied) {
        WriteMark(state, gate);
        ghost var marked := trace;
        Others();
        LastMarkStays(marked, trace, runId, state, gate, script.clock(awaited));
      }
    }

    method WriteMark(state: State, gate: Option<Json>)
      requires Writable()
      modifies this`trace, store
      ensures Writable() && LastMark(trace, runId, state, gate, script.clock(awaited))
      ensures forall t: Trace :: Waited(t, old(trace)) ==> Acted(t, trace)
    {
      ghost var before := trace;
      var reply := Own(Leases.MarkOp(runId, state, gate, script.clock(awaited)));
      LastMarkMade(before, Leases.Entry(Leases.MarkOp(runId, state, gate, script.clock(awaited)), reply, store.Contents()),
                   runId, state, gate, script.clock(awaited));
    }

    /** `_log`: tokens are not logged. */
    method Record(e: Event, ghost before: map<string, seq<LogEntry>>) returns (s: Signal)
      requires Writable() && LogIs(before, [])
      modifies this`awaited, this`turns, this`trace, store, log
      ensures Writable() && Waited(old(trace), trace)
      ensures s.Fine? ==> LogIs(before, Told([e]))
      ensures s.Gone? ==> LogIs(before, [])
      ensures AtMostOneAhead(before)
    {
      ghost var kinds := Told(emitted);
      assert kinds + [] == kinds;
      ToldOne(e);
      if !logged || e.Token? { NothingExtra(before); return Fine; }
      s := Await();
      if s.Fine? || (s.Raised? && s.applied) {
        var step := if e.Node? then Some(e.node) else None;
        ghost var w := Write(runId, workflow, step, LogStatus(e), script.clock(awaited));
        GainedOneMore(before, log.entries, kinds, w);
        var _ := log.Append(runId, workflow, step, LogStatus(e), script.clock(awaited));
        assert LogIs(before, [KindOf(e)]);
      } else {
        NothingExtra(before);
      }
    }

    /** `_map_event`, with the bookkeeping around it. */
    method Consume(raw: RawEvent)
      requires Tracking() && consumed < |script.events| && raw == script.events[consumed]
      modifies this`consumed, this`usage, this`finalState, this`spans
      ensures Tracking() && consumed == old(consumed) + 1
    {
      ghost var before, seen := script.events[..consumed], script.events[..consumed + 1];
      assert seen[..|seen| - 1] == before && seen[|seen| - 1] == raw;
      SpansFollow(spans, before, seen, raw);
      SpentOneMore(before, seen, raw);
      consumed := consumed + 1;
      match raw
      case ModelEnd(spent) => usage := usage.Plus(spent);
      case RootEnd(output) => if output.Some? { finalState := output; }
      case NodeStart(id, _) => spans := StartSpan(spans, id);
      case NodeEnd(id, _) => spans := EndSpan(spans, id);
      case _ =>
    }

    /** What has been emitted is what the consumed events map to, short of the
        last one when its write failed. */
    ghost predicate Relayed(all: bool)
      reads this`consumed, this`emitted
    {
      && consumed <= |script.events|
      && var mapped := MappedAll(script.events[..consumed]);
      if all then emitted == mapped else emitted <= mapped
    }

    /** One event of the graph. */
    method Relay(ghost before: map<string, seq<LogEntry>>) returns (s: Signal)
      requires Writable() && Tracking() && Relayed(true) && consumed < |script.events| && LogIs(before, [])
      modifies this`awaited, this`turns, this`trace, this`emitted, this`consumed, this`usage, this`finalState,
               this`spans, store, log
      ensures Writable() && Waited(old(trace), trace) && Tracking() && Relayed(s.Fine?)
      ensures s.Fine? ==> consumed == old(consumed) + 1
      // An event is logged before it is emitted, and not emitted unless that worked.
      ensures !s.Raised? ==> LogIs(before, [])
      ensures AtMostOneAhead(before)
    {
      s := Await();
      NothingExtra(before);
      if !s.Fine? { return; }
      s := Pass(before);
    }

    /** Take in one event and pass on what it maps to. */
    method Pass(ghost before: map<string, seq<LogEntry>>) returns (s: Signal)
      requires Writable() && Tracking() && Relayed(true) && consumed < |script.events| && LogIs(before, [])
      modifies this`awaited, this`turns, this`trace, this`emitted, this`consumed, this`usage, this`finalState,
               this`spans, store, log
      ensures Writable() && Waited(old(trace), trace) && Tracking() && Relayed(s.Fine?)
      ensures consumed == old(consumed) + 1
      ensures !s.Raised? ==> LogIs(before, [])
      ensures AtMostOneAhead(before)
    {
      var next := Take();
      s := PassOn(next, before);
    }

    method PassOn(next: Option<Event>, ghost before: map<string, seq<LogEntry>>) returns (s: Signal)
      requires Writable() && Behind(emitted, next) && LogIs(before, [])
      modifies this`awaited, this`turns, this`trace, this`emitted, store, log
      ensures Writable() && Waited(old(trace), trace) && Relayed(s.Fine?)
      ensures !s.Raised? ==> LogIs(before, [])
      ensures AtMostOneAhead(before)
    {
      if next.None? {
        NothingExtra(before);
        return Fine;
      }
      ghost var past := emitted;
      s := Forward(next.value, before);
      RelayedOne(past, next, s);
    }

    lemma RelayedOne(past: seq<Event>, next: Option<Event>, s: Signal)
      requires next.Some? && Behind(past, next)
      requires emitted == past + [next.value] || (emitted == past && !s.Fine?)
      ensures Relayed(s.Fine?)
    {
    }

    /** These events and then `next` are what the consumed ones map to. */
    ghost predicate Behind(past: seq<Event>, next: Option<Event>)
      reads this`consumed
    {
      && consumed <= |script.events|
      && MappedAll(script.events[..consumed]) == past + if next.Some? then [next.value] else []
    }

    /** Take in the next event; what it maps to is not emitted yet. */
    method Take() returns (next: Option<Event>)
      requires Tracking() && Relayed(true) && consumed < |script.events|
      modifies this`consumed, this`usage, this`finalState, this`spans
      ensures Tracking() && consumed == old(consumed) + 1
      ensures Behind(emitted, next) && (next.None? ==> Relayed(true))
    {
      var raw := script.events[consumed];
      MappedOneMore(script.events, consumed);
      var mapped := Mapped(raw);
      next := if mapped == [] then None else Some(mapped[0]);
      assert mapped == if next.Some? then [next.value] else [];
      Consume(raw);
    }

    /** Log an event, and if that worked emit it. */
    method Forward(e: Event, ghost before: map<string, seq<LogEntry>>) returns (s: Signal)
      requires Writable() && LogIs(before, [])
      modifies this`awaited, this`turns, this`trace, this`emitted, store, log
      ensures Writable() && Waited(old(trace), trace)
      ensures s.Fine? ==> emitted == old(emitted) + [e]
      ensures s.Raised? ==> emitted == old(emitted)
      ensures s.Gone? ==> emitted == old(emitted) || emitted == old(emitted) + [e]
      ensures !s.Raised? ==> LogIs(before, [])
      ensures AtMostOneAhead(before)
    {
      s := Record(e, before);
      if !s.Fine? { return; }
      ToldSnoc(emitted, e);
      s := Emit(e);
      assert Told(emitted) + [] == Told(emitted);
      NothingExtra(before);
    }

    /** The `async for` over the graph's events. */
    method Consuming(ghost before: map<string, seq<LogEntry>>) returns (s: Signal)
      requires Writable() && Fresh() && LogIs(before, [])
      modifies this`awaited, this`turns, this`trace, this`emitted, this`consumed, this`usage, this`finalState,
               this`spans, store, log
      ensures Writable() && Tracking() && Relayed(s.Fine?)
      ensures s.Fine? ==> consumed == |script.events|
      ensures !s.Raised? ==> LogIs(before, [])
      ensures AtMostOneAhead(before)
    {
      FreshTracks();
      while consumed < |script.events|
        invariant Writable() && Tracking() && Relayed(true) && LogIs(before, [])
        decreases |script.events| - consumed
      {
        s := Relay(before);
        if !s.Fine? { return; }
      }
      s := Await();
      NothingExtra(before);
    }

    /** Mark, log and emit the event that ends the stream. */
    method Conclude(e: Event, ghost before: map<string, seq<LogEntry>>) returns (s: Signal)
      requires Writable() && Terminal(e) && LogIs(before, [])
      modifies this`awaited, this`turns, this`trace, this`emitted, store, log
      ensures Writable()
      ensures s.Fine? ==> emitted == old(emitted) + [e] && Marked(e)
      ensures s.Raised? ==> emitted == old(emitted)
      ensures s.Gone? ==>
                emitted == old(emitted) || (emitted == old(emitted) + [e] && Marked(e))
      // In this order: nothing is logged unless the run is marked, and nothing is
      // emitted unless it is logged.
      ensures log.entries != old(log.entries) ==> Marked(e)
      ensures !s.Raised? ==> LogIs(before, [])
      ensures AtMostOneAhead(before)
    {
      s := Mark(StateFor(e), GateOf(e));
      NothingExtra(before);
      if !s.Fine? { return; }
      ghost var marked, now := trace, script.clock(awaited);
      s := Forward(e, before);
      MarkedStays(marked, e, now);
    }

    /** No event so far ends the stream, or exactly the last one does. */
    ghost predicate Unended()
      reads this`emitted
    {
      forall i :: 0 <= i < |emitted| ==> !Terminal(emitted[i])
    }

    ghost predicate EndedWell()
      reads this`emitted, this`trace
    {
      && emitted != []
      && (forall i :: 0 <= i < |emitted| - 1 ==> !Terminal(emitted[i]))
      && Terminal(emitted[|emitted| - 1])
      && Marked(emitted[|emitted| - 1])
    }

    /** The ending says what happened: a cache hit before anything ran, the
        outstanding interrupt, or the output of the last terminal state. */
    ghost predicate Deserved(e: Event)
      reads this`consumed
    {
      match e
      case Final(output, true) => script.keyed && script.cached == Some(output) && consumed == 0
      case Final(output, false) =>
        && consumed == |script.events| && script.pending.None?
        && LastState(script.events).Some? && script.output(LastState(script.events).value) == Ok(output)
      case Interrupt(payload) => consumed == |script.events| && script.pending == Some(payload)
      case _ => false
    }

    /** How the `try` body may leave the stream. */
    ghost predicate Settles(s: Signal)
      reads this`consumed, this`emitted, this`trace
    {
      match s
      case Fine => EndedWell() && Deserved(emitted[|emitted| - 1])
      case Raised(_, _) => Unended()
      case Gone => Unended() || (EndedWell() && Deserved(emitted[|emitted| - 1]))
    }

    lemma RelayedUnended()
      requires Relayed(true) || Relayed(false)
      ensures Unended()
    {
      MappedNotTerminal(script.events[..consumed]);
    }

    /** The `try` body. `Fine` means it returned, `Raised` that an `except`
        clause takes over, `Gone` that only `finally` still runs. */
    method Body(ghost before: map<string, seq<LogEntry>>) returns (s: Signal)
      requires Writable() && Fresh() && LogIs(before, [])
      modifies this`awaited, this`turns, this`trace, this`emitted, this`consumed, this`usage,
               this`finalState, this`spans, store, log
      ensures Writable() && Tracking()
      ensures Settles(s)
      ensures !s.Raised? ==> LogIs(before, [])
      ensures AtMostOneAhead(before)
    {
      NothingExtra(before);
      s := OpenRun();
      if !s.Fine? { FreshTracks(); return; }
      if script.keyed {
        s := Await();
        if !s.Fine? { FreshTracks(); return; }
        if script.cached.Some? {
          s := Hit(before);
          return;
        }
      }
      s := Execute(before);
    }

    /** Build the graph, relay its events, and end. */
    method Execute(ghost before: map<string, seq<LogEntry>>) returns (s: Signal)
      requires Writable() && Fresh() && LogIs(before, [])
      modifies this`awaited, this`turns, this`trace, this`emitted, this`consumed, this`usage,
               this`finalState, this`spans, store, log
      ensures Writable() && Tracking()
      ensures Settles(s)
      ensures !s.Raised? ==> LogIs(before, [])
      ensures AtMostOneAhead(before)
    {
      NothingExtra(before);
      s := Await();
      if !s.Fine? { FreshTracks(); return; }
      s := Running(before);
    }

    method Running(ghost before: map<string, seq<LogEntry>>) returns (s: Signal)
      requires Writable() && Fresh() && LogIs(before, [])
      modifies this`awaited, this`turns, this`trace, this`emitted, this`consumed, this`usage,
               this`finalState, this`spans, store, log
      ensures Writable() && Tracking()
      ensures Settles(s)
      ensures !s.Raised? ==> LogIs(before, [])
      ensures AtMostOneAhead(before)
    {
      s := Consuming(before);
      RelayedUnended();
      if s.Fine? { s := Ending(before); }
    }

    lemma FreshTracks()
      requires Fresh()
      ensures Tracking() && Unended() && Relayed(true)
    {
      assert script.events[..0] == [];
    }

    /** Served from the cache: the graph never runs. */
    method Hit(ghost before: map<string, seq<LogEntry>>) returns (s: Signal)
      requires Writable() && Fresh() && LogIs(before, []) && script.keyed && script.cached.Some?
      modifies this`awaited, this`turns, this`trace, this`emitted, store, log
      ensures Writable() && Tracking()
      ensures Settles(s)
      ensures !s.Raised? ==> LogIs(before, [])
      ensures AtMostOneAhead(before)
    {
      NothingExtra(before);
      FreshTracks();
      s := End(Final(script.cached.value, true), before);
    }

    /** What follows the last event of the graph. */
    method Ending(ghost before: map<string, seq<LogEntry>>) returns (s: Signal)
      requires Writable() && Tracking() && Unended() && LogIs(before, []) && consumed == |script.events|
      modifies this`awaited, this`turns, this`trace, this`emitted, store, log
      ensures Writable()
      ensures Settles(s)
      ensures !s.Raised? ==> LogIs(before, [])
      ensures AtMostOneAhead(before)
    {
      NothingExtra(before);
      var e;
      s, e := Outcome();
      if !s.Fine? { return; }
      s := End(e, before);
    }

    /** The event this leg has earned, as its last. */
    method End(e: Event, ghost before: map<string, seq<LogEntry>>) returns (s: Signal)
      requires Writable() && Unended() && LogIs(before, []) && Terminal(e) && Deserved(e)
      modifies this`awaited, this`turns, this`trace, this`emitted, store, log
      ensures Writable()
      ensures Settles(s)
      ensures !s.Raised? ==> LogIs(before, [])
      ensures AtMostOneAhead(before)
    {
      ghost var events := emitted;
      s := Conclude(e, before);
      if emitted != events { EndsWith(events, e); }
    }

    lemma EndsWith(events: seq<Event>, e: Event)
      requires emitted == events + [e] && Terminal(e) && Marked(e)
      requires forall i :: 0 <= i < |events| ==> !Terminal(events[i])
      ensures EndedWell() && emitted[|emitted| - 1] == e
    {
    }

    /** How the leg ends: an outstanding interrupt, or the validated output. */
    method Outcome() returns (s: Signal, e: Event)
      requires Writable() && Tracking() && consumed == |script.events|
      modifies this`awaited, this`turns, this`trace, store
      ensures Writable() && Waited(old(trace), trace)
      ensures s.Fine? ==> Terminal(e) && !e.Error? && Deserved(e)
    {
      assert script.events[..consumed] == script.events;
      e := Token("");
      s := Await();   // is an interrupt pending?
      if !s.Fine? { return; }
      if script.pending.Some? { return Fine, Interrupt(script.pending.value); }
      if finalState.None? { return Raised(OtherFault("RuntimeError"), false), e; }
      var body := script.output(finalState.value);
      if body.Err? { return Raised(body.error, false), e; }
      e := Final(body.value, false);
      if script.keyed { s := Await(); }
    }

    /** The `except` clauses, whose own writes are taken to succeed. */
    method Handle(fault: Fault, ghost before: map<string, seq<LogEntry>>) returns (s: Signal)
      requires Writable() && Unended() && AtMostOneAhead(before)
      modifies this`turns, this`trace, this`emitted, store, log
      ensures Writable() && EndedWell() && emitted == old(emitted) + [Error(FaultName(fault))]
      ensures LogTells(before)
    {
      var e := Error(FaultName(fault));
      ghost var now := script.clock(awaited);
      MarkFailed();
      ghost var marked, events := trace, emitted;
      s := EmitError(e, before);
      MarkedStays(marked, e, now);
      EndsWith(events, e);
    }

    method MarkFailed()
      requires Writable()
      modifies this`turns, this`trace, store
      ensures Writable()
      ensures durable ==> LastMark(trace, runId, Failed, None, script.clock(awaited))
    {
      if durable {
        Others();
        WriteMark(Failed, None);
      }
    }

    method EmitError(e: Event, ghost before: map<string, seq<LogEntry>>) returns (s: Signal)
      requires Writable() && AtMostOneAhead(before) && e.Error?
      modifies this`turns, this`trace, this`emitted, store, log
      ensures Writable() && Waited(old(trace), trace)
      ensures emitted == old(emitted) + [e] && LogTells(before)
    {
      ghost var extra :| |extra| <= 1 && LogIs(before, extra);
      Others();
      LogError(e, before, Told(emitted) + extra);
      ghost var events := emitted;
      s := Emit(e);
      ErrorTold(before, events, extra, e);
    }

    method LogError(e: Event, ghost before: map<string, seq<LogEntry>>, ghost kinds: seq<Kind>)
      requires Numbered(log.entries) && e.Error?
      requires Gained(runId, workflow, before, log.entries, kinds)
      modifies log
      ensures Numbered(log.entries)
      ensures Gained(runId, workflow, before, log.entries, kinds + Told([e]))
    {
      ToldOne(e);
      assert kinds + [] == kinds;
      if logged {
        GainedOneMore(before, log.entries, kinds, Write(runId, workflow, None, LogStatus(e), script.clock(awaited)));
        var _ := log.Append(runId, workflow, None, LogStatus(e), script.clock(awaited));
      }
    }

    /** How much of what was emitted came before the error, if there was one. */
    function BeforeError(): nat
      reads this`emitted
    {
      if emitted != [] && emitted[|emitted| - 1].Error? then |emitted| - 1 else |emitted|
    }

    /** The log of the leg: the entries of what was emitted, in order. When the
        stream ended in an error there may be one more before the last, of an
        event that was logged and not emitted. */
    ghost predicate LogTells(before: map<string, seq<LogEntry>>)
      reads this`emitted, log
    {
      exists extra: seq<Kind> {:trigger LogTold(before, extra)} :: |extra| <= 1 && LogTold(before, extra)
    }

    ghost predicate LogTold(before: map<string, seq<LogEntry>>, extra: seq<Kind>)
      reads this`emitted, log
    {
      && (BeforeError() == |emitted| ==> extra == [])
      && Gained(runId, workflow, before, log.entries,
                Told(emitted[..BeforeError()]) + extra + Told(emitted[BeforeError()..]))
    }

    lemma ErrorTold(before: map<string, seq<LogEntry>>, events: seq<Event>, extra: seq<Kind>, e: Event)
      requires emitted == events + [e] && e.Error? && |extra| <= 1
      requires Gained(runId, workflow, before, log.entries, Told(events) + extra + Told([e]))
      ensures LogTells(before)
    {
      assert emitted[..BeforeError()] == events && emitted[BeforeError()..] == [e];
      assert LogTold(before, extra);
    }

    lemma PlainlyTold(before: map<string, seq<LogEntry>>)
      requires LogIs(before, []) && BeforeError() == |emitted|
      ensures LogTells(before)
    {
      assert emitted[..|emitted|] == emitted && emitted[|emitted|..] == [];
      assert Told(emitted) + [] + Told([]) == Told(emitted) + [];
      assert LogTold(before, []);
    }

    /** The `finally` clause: end the spans still open, meter the run. */
    method Finally()
      requires Tracking()
      modifies this`spans, this`costs
      ensures SpansClosed()
      ensures MeteredOnce(old(costs))
    {
      ghost var overwritten := Overwrites(script.events[..consumed]);
      var todo := spans.open.Keys;
      while todo != {}
        invariant todo == spans.open.Keys
        invariant SpansSound(spans, overwritten) && spans.started == old(spans).started
        invariant costs == old(costs)
        decreases todo
      {
        var id :| id in todo;
        EndSound(spans, id, overwritten);
        spans := EndSpan(spans, id);
        todo := todo - {id};
      }
      costs := costs + [CostEntry(runId, workflow, model, usage)];
    }

    /** A stream that ran to its end emitted one terminal event, last, and marked the
        run to match: an error, or the ending its graph earned. One that did not
        emitted none, or was cut after such an ending. */
    ghost predicate Concluded(ran: bool)
      reads this`consumed, this`emitted, this`trace
    {
      && (ran ==> EndedWell() && (emitted[|emitted| - 1].Error? || Deserved(emitted[|emitted| - 1])))
      && (EndedWell() || Unended())
    }

    /** `try` and `except`. */
    method Settle(ghost before: map<string, seq<LogEntry>>) returns (s: Signal)
      requires Writable() && Fresh() && before == log.entries
      modifies this`awaited, this`turns, this`trace, this`emitted, this`consumed, this`usage,
               this`finalState, this`spans, store, log
      ensures Writable() && Tracking() && !s.Raised?
      ensures Concluded(s.Fine?)
      ensures LogTells(before)
    {
      NothingTold(before);
      s := Body(before);
      s := Excepted(s, before);
    }

    /** The `except` clauses take over a fault, and leave anything else alone. */
    method Excepted(s: Signal, ghost before: map<string, seq<LogEntry>>) returns (s': Signal)
      requires Writable() && Settles(s) && AtMostOneAhead(before) && (!s.Raised? ==> LogIs(before, []))
      modifies this`turns, this`trace, this`emitted, store, log
      ensures Writable() && !s'.Raised?
      ensures Concluded(s'.Fine?) && LogTells(before)
    {
      if s.Raised? {
        Recover(s.fault, before);
        return Fine;
      }
      SettledQuietly(s, before);
      s' := s;
    }

    /** After a fault: the stream goes on to its end. */
    method Recover(fault: Fault, ghost before: map<string, seq<LogEntry>>)
      requires Writable() && Unended() && AtMostOneAhead(before)
      modifies this`turns, this`trace, this`emitted, store, log
      ensures Writable() && Concluded(true) && LogTells(before)
    {
      var _ := Handle(fault, before);
    }

    lemma SettledQuietly(s: Signal, before: map<string, seq<LogEntry>>)
      requires Settles(s) && !s.Raised? && LogIs(before, [])
      ensures Concluded(s.Fine?) && LogTells(before)
    {
      NoError(s);
      PlainlyTold(before);
    }

    lemma NothingTold(before: map<string, seq<LogEntry>>)
      requires emitted == [] && before == log.entries
      ensures LogIs(before, [])
    {
      assert Told(emitted) + [] == [];
    }

    lemma NoError(s: Signal)
      requires Settles(s) && !s.Raised?
      ensures BeforeError() == |emitted|
    {
    }

    /** One cost entry more, for every model call consumed. */
    ghost predicate MeteredOnce(before: seq<CostEntry>)
      reads this`consumed, this`costs
    {
      && consumed <= |script.events|
      && costs == before + [CostEntry(runId, workflow, model, Spent(script.events[..consumed]))]
    }

    /** No span is open, none was ended twice, and those started are the ended
        ones and the overwritten ones. */
    ghost predicate SpansClosed()
      reads this`consumed, this`spans
    {
      && consumed <= |script.events|
      && spans.open == map[] && SpansSound(spans, Overwrites(script.events[..consumed]))
      && spans.started == Starts(script.events[..consumed])
    }

    /** The run, if there is one, is as the last event says, unless a step of
        someone else has moved it since this leg marked it. */
    ghost predicate LeftToMatch()
      reads this`emitted, this`trace, store
    {
      && emitted != [] && Terminal(emitted[|emitted| - 1])
      && var state := StateFor(emitted[|emitted| - 1]);
      && LeftIn(trace, runId, state)
      && (Alone() && runId in store.runs ==> store.runs[runId].state == state)
    }

    lemma MarkedIsLeftToMatch()
      requires Witnessed() && durable && EndedWell()
      ensures LeftToMatch()
    {
      var e := emitted[|emitted| - 1];
      var now :| LastMark(trace, runId, StateFor(e), GateOf(e), now);
      MarkedIsLeft(trace, runId, StateFor(e), GateOf(e), now, Alone());
    }

    /** ... and how the run is left. */
    method Settled(ghost before: map<string, seq<LogEntry>>) returns (ran: bool)
      requires Writable() && Fresh() && before == log.entries
      modifies this`awaited, this`turns, this`trace, this`emitted, this`consumed, this`usage,
               this`finalState, this`spans, store, log
      ensures Writable() && Tracking()
      ensures Concluded(ran)
      ensures ran && durable ==> LeftToMatch()
      ensures LogTells(before)
    {
      var s := Settle(before);
      ran := s.Fine?;
      if ran && durable { MarkedIsLeftToMatch(); }
    }

    method Lifecycle() returns (ran: bool)
      requires Writable() && Fresh()
      modifies this`awaited, this`turns, this`trace, this`emitted, this`consumed, this`usage,
               this`finalState, this`spans, this`costs, store, log
      ensures Writable()
      ensures Concluded(ran)
      ensures ran && durable ==> LeftToMatch()
      ensures MeteredOnce(old(costs))
      ensures SpansClosed()
      ensures LogTells(old(log.entries))
    {
      ran := Settled(log.entries);
      Finally();
    }

    ghost method Witness()
      requires Sound(store.Contents()) && Numbered(log.entries)
      modifies this`start, this`trace
      ensures Writable() && start == store.Contents()
    {
      start, trace := store.Contents(), Trace(store.Contents(), [], []);
    }

    /** `_stream`. `ran` is false when the client or the task went away. */
    method Stream() returns (ran: bool)
      requires Sound(store.Contents()) && Numbered(log.entries) && Fresh()
      modifies this, store, log
      ensures Writable() && start == old(store.Contents())
      ensures Concluded(ran)
      ensures ran && durable ==> LeftToMatch()
      ensures MeteredOnce(old(costs))
      ensures SpansClosed()
      ensures LogTells(old(log.entries))
    {
      Witness();
      ran := Lifecycle();
    }
  }

  // ------------------------------------------------------------ about the parts

  lemma {:induction false} MappedNotTerminal(events: seq<RawEvent>)
    ensures forall e :: e in MappedAll(events) ==> !Terminal(e)
  {
    if events != [] { MappedNotTerminal(events[..|events| - 1]); }
  }

  /** Node runs with distinct ids never overwrite a span. */
  lemma {:induction false} DistinctNeverOverwrite(events: seq<RawEvent>)
    requires forall i, j :: 0 <= i < j < |events| && events[i].NodeStart? && events[j].NodeStart? ==>
               events[i].id != events[j].id
    ensures Overwrites(events) == 0
    ensures forall id :: id in OpenNodes(events) ==>
              exists i :: 0 <= i < |events| && events[i].NodeStart? && events[i].id == id
  {
    if events != [] {
      var front := events[..|events| - 1];
      DistinctNeverOverwrite(front);
      forall id | id in OpenNodes(events)
        ensures exists i :: 0 <= i < |events| && events[i].NodeStart? && events[i].id == id
      {
        if id in OpenNodes(front) {
          var i :| 0 <= i < |front| && front[i].NodeStart? && front[i].id == id;
          assert events[i].NodeStart? && events[i].id == id;
        } else {
          assert events[|events| - 1].NodeStart?;
        }
      }
    }
  }

  /** Every span started is ended exactly once if and only if no node run was
      started again under an id still open. */
  lemma SpansAllEnded(s: Spans, events: seq<RawEvent>)
    requires SpansSound(s, Overwrites(events)) && s.open == map[] && s.started == Starts(events)
    ensures (forall span: nat :: span < s.started ==> span in s.ended) <==> Overwrites(events) == 0
    ensures forall i, j :: 0 <= i < j < |s.ended| ==> s.ended[i] != s.ended[j]
  {
    if Overwrites(events) == 0 {
      Fills(s.ended, Below(s.started));
    } else if forall span: nat :: span < s.started ==> span in s.ended {
      Covers(Below(s.started), s.ended);
    }
  }

  lemma {:induction false} Covers(s: set<nat>, xs: seq<nat>)
    requires forall x :: x in s ==> x in xs
    ensures |s| <= |xs|
  {
    if xs != [] {
      var last, front := xs[|xs| - 1], xs[..|xs| - 1];
      forall x | x in s - {last} ensures x in front {
        var i :| 0 <= i < |xs| && xs[i] == x;
        assert front[i] == x;
      }
      Covers(s - {last}, front);
    } else {
      assert s == {};
    }
  }
}
