/** The operator's run log: per-run entries, numbered as they are appended. */
module RunLog {
  import opened JsonValues

  datatype LogEntry = LogEntry(runId: string, seqNo: nat, workflow: string, step: Option<string>, status: string, at: int)

  ghost predicate Numbered(entries: map<string, seq<LogEntry>>)
  {
    forall id, n :: id in entries && 0 <= n < |entries[id]| ==>
      entries[id][n].seqNo == n + 1 && entries[id][n].runId == id
  }

  function EntriesOf(entries: map<string, seq<LogEntry>>, id: string): seq<LogEntry>
  {
    if id in entries then entries[id] else []
  }

  class InMemoryRunLogStore {
    var entries: map<string, seq<LogEntry>>

    constructor ()
      ensures entries == map[] && Numbered(entries)
    {
      entries := map[];
    }

    /** Numbers the entry within its run; other runs are not touched. */
    method Append(runId: string, workflow: string, step: Option<string>, status: string, now: int) returns (e: LogEntry)
      requires Numbered(entries)
      modifies this
      ensures Numbered(entries)
      ensures e == LogEntry(runId, |EntriesOf(old(entries), runId)| + 1, workflow, step, status, now)
      ensures entries == Appended(old(entries), Write(runId, workflow, step, status, now))
    {
      var before := EntriesOf(entries, runId);
      e := LogEntry(runId, |before| + 1, workflow, step, status, now);
      entries := entries[runId := before + [e]];
    }

    /** The entries of one run: all of that run, numbered from 1 without a gap. */
    method Read(runId: string) returns (r: seq<LogEntry>)
      requires Numbered(entries)
      ensures forall n :: 0 <= n < |r| ==> r[n].seqNo == n + 1 && r[n].runId == runId
      ensures forall e :: e in r <==> runId in entries && e in entries[runId]
      ensures |r| == if runId in entries then |entries[runId]| else 0
    {
      r := EntriesOf(entries, runId);
    }
  }

  // ------------------------------------------------------------- many writers

  /** One call of `append`. */
  datatype Write = Write(runId: string, workflow: string, step: Option<string>, status: string, at: int)

  function Appended(entries: map<string, seq<LogEntry>>, w: Write): map<string, seq<LogEntry>>
  {
    var before := EntriesOf(entries, w.runId);
    entries[w.runId := before + [LogEntry(w.runId, |before| + 1, w.workflow, w.step, w.status, w.at)]]
  }

  function After(writes: seq<Write>): map<string, seq<LogEntry>>
  {
    if writes == [] then map[] else Appended(After(writes[..|writes| - 1]), writes[|writes| - 1])
  }

  /** The writes of one run, in order. */
  function Own(writes: seq<Write>, id: string): seq<Write>
  {
    if writes == [] then []
    else
      var front, last := Own(writes[..|writes| - 1], id), writes[|writes| - 1];
      if last.runId == id then front + [last] else front
  }

  /** However the writes of many runs interleave, a run's log is what was written
      for it, in order and numbered from 1. */
  lemma {:induction false} LogIsOwnWrites(writes: seq<Write>, id: string)
    ensures var entries, own := EntriesOf(After(writes), id), Own(writes, id);
            && |entries| == |own|
            && forall n :: 0 <= n < |own| ==>
                 entries[n] == LogEntry(id, n + 1, own[n].workflow, own[n].step, own[n].status, own[n].at)
  {
    if writes != [] { LogIsOwnWrites(writes[..|writes| - 1], id); }
  }
}
