/** The in-memory run store: run records, leases and decision chains. Every
    method body runs under one lock, so each is one atomic step. Clock readings
    are arguments: nothing is assumed about them. */
module RunStore {
  import opened JsonValues
  import opened Strings

  datatype State = Queued | Running | AwaitingDecision | Completed | Failed | Cancelled

  datatype Verdict = Approve | Reject | Amend

  datatype Principal = Principal(subject: string, scopes: set<string>, issuer: string)

  datatype RunRecord = RunRecord(
    id: string,
    workflow: string,
    state: State,
    policy: Json,
    gatePayload: Option<Json>,
    createdBy: Option<Principal>,
    leasedBy: Option<string>,
    leaseExpiresAt: Option<int>,
    createdAt: int,
    updatedAt: int)

  datatype DecisionRecord = DecisionRecord(
    id: string,
    runId: string,
    seqNo: nat,
    verdict: Verdict,
    comment: Option<string>,
    principal: Principal,
    decidedAt: int)
  {
    /** A retry rather than a new decision: same actor, verdict and comment. */
    predicate Matches(verdict: Verdict, comment: Option<string>, principal: Principal)
    {
      this.verdict == verdict && this.comment == comment && this.principal.subject == principal.subject
    }
  }

  datatype StoreError = RunNotFound | RunConflict(state: State)

  datatype Store = Store(runs: map<string, RunRecord>, decisions: map<string, seq<DecisionRecord>>)

  // -------------------------------------------------------- one step, as a value

  /** A run created through the store starts `running`, with no lease. */
  function NewRun(id: string, workflow: string, policy: Json, createdBy: Option<Principal>,
                  created: int, updated: int): RunRecord
  {
    RunRecord(id, workflow, Running, policy, None, createdBy, None, None, created, updated)
  }

  function MarkedRun(run: RunRecord, state: State, gate: Option<Json>, now: int): RunRecord
  {
    run.(state := state,
         gatePayload := if gate.Some? then gate else run.gatePayload,
         leasedBy := if state == Running then run.leasedBy else None,
         leaseExpiresAt := if state == Running then run.leaseExpiresAt else None,
         updatedAt := now)
  }

  predicate Lapsed(run: RunRecord, now: int)
  {
    run.state == Running && run.leaseExpiresAt.Some? && run.leaseExpiresAt.value <= now
  }

  function Requeued(run: RunRecord, now: int): RunRecord
  {
    run.(state := Queued, leasedBy := None, leaseExpiresAt := None, updatedAt := now)
  }

  /** All lapsed runs back in the queue, the others untouched. */
  function Reclaimed(runs: map<string, RunRecord>, now: int): map<string, RunRecord>
  {
    map id | id in runs :: if Lapsed(runs[id], now) then Requeued(runs[id], now) else runs[id]
  }

  function LapsedIds(runs: map<string, RunRecord>, now: int): set<string>
  {
    set id | id in runs && Lapsed(runs[id], now)
  }

  predicate Eligible(run: RunRecord, workflows: set<string>)
  {
    run.state == Queued && (workflows == {} || run.workflow in workflows)
  }

  function EligibleIds(runs: map<string, RunRecord>, workflows: set<string>): set<string>
  {
    set id | id in runs && Eligible(runs[id], workflows)
  }

  /** Python's order on `(created_at, id)`. */
  predicate NotAfter(a: RunRecord, b: RunRecord)
  {
    a.createdAt < b.createdAt || (a.createdAt == b.createdAt && LexLeq(a.id, b.id))
  }

  ghost predicate OldestOf(runs: map<string, RunRecord>, ids: set<string>, id: string)
  {
    id in ids && ids <= runs.Keys && forall other :: other in ids ==> NotAfter(runs[id], runs[other])
  }

  function LeasedTo(run: RunRecord, worker: string, lease: int, now: int): RunRecord
  {
    run.(state := Running, leasedBy := Some(worker), leaseExpiresAt := Some(now + lease), updatedAt := now)
  }

  function Renewed(run: RunRecord, lease: int, now: int): RunRecord
  {
    run.(leaseExpiresAt := Some(now + lease), updatedAt := now)
  }

  predicate Stale(run: RunRecord, cutoff: int)
  {
    run.state == AwaitingDecision && run.updatedAt < cutoff
  }

  function Chain(decisions: map<string, seq<DecisionRecord>>, id: string): seq<DecisionRecord>
  {
    if id in decisions then decisions[id] else []
  }

  // ----------------------------------------------------------------- invariants

  /** A lease is an owner and an expiry together, and only a running run has one. */
  predicate LeaseSound(run: RunRecord)
  {
    && (run.leasedBy.Some? <==> run.leaseExpiresAt.Some?)
    && (run.leasedBy.Some? ==> run.state == Running)
  }

  ghost predicate ChainSound(chain: seq<DecisionRecord>, id: string)
  {
    forall n :: 0 <= n < |chain| ==> chain[n].runId == id && chain[n].seqNo == n + 1
  }

  ghost predicate Sound(s: Store)
  {
    && (forall id :: id in s.runs ==> s.runs[id].id == id && LeaseSound(s.runs[id]))
    && (forall id :: id in s.decisions ==> id in s.runs && ChainSound(s.decisions[id], id))
  }

  // -------------------------------------------------------- what each step does

  ghost predicate CreateStep(s: Store, id: string, workflow: string, policy: Json, createdBy: Option<Principal>,
                             created: int, updated: int, s': Store, r: Result<RunRecord, StoreError>)
  {
    if id in s.runs then r == Err(RunConflict(s.runs[id].state)) && s' == s
    else
      && r == Ok(NewRun(id, workflow, policy, createdBy, created, updated))
      && s' == s.(runs := s.runs[id := r.value])
  }

  ghost predicate MarkStep(s: Store, id: string, state: State, gate: Option<Json>, now: int,
                           s': Store, r: Result<RunRecord, StoreError>)
  {
    if id !in s.runs then r == Err(RunNotFound) && s' == s
    else r == Ok(MarkedRun(s.runs[id], state, gate, now)) && s' == s.(runs := s.runs[id := r.value])
  }

  ghost predicate ReclaimStep(s: Store, now: int, s': Store, moved: nat)
  {
    s' == s.(runs := Reclaimed(s.runs, now)) && moved == |LapsedIds(s.runs, now)|
  }

  /** `claim_run`: the clock is read once to reclaim and once to lease. */
  ghost predicate ClaimStep(s: Store, worker: string, workflows: set<string>, lease: int, reclaimNow: int, now: int,
                            s': Store, claimed: Option<RunRecord>)
  {
    var queue := Reclaimed(s.runs, reclaimNow);
    match claimed
    case None => EligibleIds(queue, workflows) == {} && s' == s.(runs := queue)
    case Some(run) =>
      && OldestOf(queue, EligibleIds(queue, workflows), run.id)
      && run == LeasedTo(queue[run.id], worker, lease, now)
      && s' == s.(runs := queue[run.id := run])
  }

  ghost predicate RenewStep(s: Store, id: string, worker: string, lease: int, now: int,
                            s': Store, r: Result<RunRecord, StoreError>)
  {
    if id !in s.runs then r == Err(RunNotFound) && s' == s
    else if s.runs[id].leasedBy != Some(worker) then r == Err(RunConflict(s.runs[id].state)) && s' == s
    else r == Ok(Renewed(s.runs[id], lease, now)) && s' == s.(runs := s.runs[id := r.value])
  }

  ghost predicate DecideStep(s: Store, id: string, verdict: Verdict, principal: Principal, comment: Option<string>,
                             uuid: string, now: int, s': Store, r: Result<(DecisionRecord, bool), StoreError>)
  {
    var existing := Chain(s.decisions, id);
    if id !in s.runs then r == Err(RunNotFound) && s' == s
    else if s.runs[id].state == AwaitingDecision then
      && r == Ok((DecisionRecord(uuid, id, |existing| + 1, verdict, comment, principal, now), true))
      && s' == s.(decisions := s.decisions[id := existing + [r.value.0]])
    else if existing != [] && existing[|existing| - 1].Matches(verdict, comment, principal) then
      r == Ok((existing[|existing| - 1], false)) && s' == s
    else r == Err(RunConflict(s.runs[id].state)) && s' == s
  }

  ghost predicate ExpireStep(s: Store, cutoff: int, stamp: string -> int, s': Store, expired: nat)
  {
    && s' == s.(runs := Expired(s.runs, cutoff, stamp))
    && expired == |set id | id in s.runs && Stale(s.runs[id], cutoff)|
  }

  // ------------------------------------------------------------------ the class

  class InMemoryRunStore {
    var runs: map<string, RunRecord>
    var decisions: map<string, seq<DecisionRecord>>

    constructor ()
      ensures Contents() == Store(map[], map[])
      ensures Sound(Contents())
    {
      runs, decisions := map[], map[];
    }

    ghost function Contents(): Store
      reads this
    {
      Store(runs, decisions)
    }

    method CreateRun(id: string, workflow: string, policy: Json, createdBy: Option<Principal>,
                     created: int, updated: int) returns (r: Result<RunRecord, StoreError>)
      requires Sound(Contents())
      modifies this
      ensures Sound(Contents())
      ensures CreateStep(old(Contents()), id, workflow, policy, createdBy, created, updated, Contents(), r)
    {
      if id in runs { return Err(RunConflict(runs[id].state)); }
      var record := NewRun(id, workflow, policy, createdBy, created, updated);
      runs := runs[id := record];
      r := Ok(record);
    }

    method GetRun(id: string) returns (r: Result<RunRecord, StoreError>)
      ensures r == if id in runs then Ok(runs[id]) else Err(RunNotFound)
    {
      r := if id in runs then Ok(runs[id]) else Err(RunNotFound);
    }

    method MarkState(id: string, state: State, gate: Option<Json>, now: int) returns (r: Result<RunRecord, StoreError>)
      requires Sound(Contents())
      modifies this
      ensures Sound(Contents())
      ensures MarkStep(old(Contents()), id, state, gate, now, Contents(), r)
    {
      var found := GetRun(id);
      if found.Err? { return found; }
      var updated := MarkedRun(found.value, state, gate, now);
      runs := runs[id := updated];
      r := Ok(updated);
    }

    /** `_reclaim_locked` */
    method ReclaimExpiredLeases(now: int) returns (moved: nat)
      requires Sound(Contents())
      modifies this
      ensures Sound(Contents())
      ensures ReclaimStep(old(Contents()), now, Contents(), moved)
    {
      var stranded := set id | id in runs && Lapsed(runs[id], now);
      var todo := stranded;
      while todo != {}
        invariant todo <= stranded && runs.Keys == old(runs).Keys && decisions == old(decisions)
        invariant forall id :: id in runs ==>
                    runs[id] == if id in stranded - todo then Requeued(old(runs)[id], now) else old(runs)[id]
        decreases todo
      {
        var id :| id in todo;
        runs := runs[id := Requeued(runs[id], now)];
        todo := todo - {id};
      }
      assert runs == Reclaimed(old(runs), now);
      moved := |stranded|;
    }

    /** `claim_run` */
    method ClaimRun(worker: string, workflows: set<string>, lease: int, reclaimNow: int, now: int)
      returns (claimed: Option<RunRecord>)
      requires Sound(Contents())
      modifies this
      ensures Sound(Contents())
      ensures ClaimStep(old(Contents()), worker, workflows, lease, reclaimNow, now, Contents(), claimed)
    {
      var _ := ReclaimExpiredLeases(reclaimNow);
      var queued := set id | id in runs && Eligible(runs[id], workflows);
      assert queued == EligibleIds(runs, workflows);
      if queued == {} { return None; }
      var best := OldestQueued(queued);
      var record := LeasedTo(runs[best], worker, lease, now);
      runs := runs[best := record];
      claimed := Some(record);
    }

    /** The first of `queued` when sorted by `(created_at, id)`. */
    method OldestQueued(queued: set<string>) returns (best: string)
      requires queued != {} && queued <= runs.Keys
      ensures OldestOf(runs, queued, best)
    {
      best :| best in queued;
      var todo := queued - {best};
      LexTotal(runs[best].id, runs[best].id);
      while todo != {}
        invariant best in queued && todo <= queued
        invariant forall other :: other in queued - todo ==> NotAfter(runs[best], runs[other])
        decreases todo
      {
        var id :| id in todo;
        NotAfterOrder(runs[id], runs[best]);
        NotAfterOrder(runs[id], runs[id]);
        if NotAfter(runs[id], runs[best]) {
          forall other | other in queued - todo ensures NotAfter(runs[id], runs[other]) {
            NotAfterTransitive(runs[id], runs[best], runs[other]);
          }
          best := id;
        }
        todo := todo - {id};
      }
    }

    method RenewLease(id: string, worker: string, lease: int, now: int) returns (r: Result<RunRecord, StoreError>)
      requires Sound(Contents())
      modifies this
      ensures Sound(Contents())
      ensures RenewStep(old(Contents()), id, worker, lease, now, Contents(), r)
    {
      var found := GetRun(id);
      if found.Err? { return found; }
      if found.value.leasedBy != Some(worker) { return Err(RunConflict(found.value.state)); }
      var renewed := Renewed(found.value, lease, now);
      runs := runs[id := renewed];
      r := Ok(renewed);
    }

    method AppendDecision(id: string, verdict: Verdict, principal: Principal, comment: Option<string>,
                          uuid: string, now: int) returns (r: Result<(DecisionRecord, bool), StoreError>)
      requires Sound(Contents())
      modifies this
      ensures Sound(Contents())
      ensures DecideStep(old(Contents()), id, verdict, principal, comment, uuid, now, Contents(), r)
    {
      var found := GetRun(id);
      if found.Err? { return Err(found.error); }
      var existing := Chain(decisions, id);
      if found.value.state != AwaitingDecision {
        if existing != [] && existing[|existing| - 1].Matches(verdict, comment, principal) {
          return Ok((existing[|existing| - 1], false));
        }
        return Err(RunConflict(found.value.state));
      }
      var record := DecisionRecord(uuid, id, |existing| + 1, verdict, comment, principal, now);
      decisions := decisions[id := existing + [record]];
      r := Ok((record, true));
    }

    /** The decisions on a known run: all of that run, numbered from 1 without a
        gap, none of them left out. */
    method DecisionsFor(id: string) returns (r: Result<seq<DecisionRecord>, StoreError>)
      requires Sound(Contents())
      ensures r.Err? <==> id !in runs
      ensures r.Err? ==> r.error == RunNotFound
      ensures r.Ok? ==> forall n :: 0 <= n < |r.value| ==> r.value[n].runId == id && r.value[n].seqNo == n + 1
      ensures r.Ok? ==> forall d :: d in r.value <==> id in decisions && d in decisions[id]
      ensures r.Ok? ==> |r.value| == if id in decisions then |decisions[id]| else 0
    {
      var found := GetRun(id);
      if found.Err? { return Err(found.error); }
      r := Ok(Chain(decisions, id));
    }

    /** `expire_runs`; `stamp` is the clock as each run is rewritten. */
    method ExpireRuns(cutoff: int, stamp: string -> int) returns (expired: nat)
      requires Sound(Contents())
      modifies this
      ensures Sound(Contents())
      ensures ExpireStep(old(Contents()), cutoff, stamp, Contents(), expired)
    {
      var stale := set id | id in runs && Stale(runs[id], cutoff);
      var todo := stale;
      while todo != {}
        invariant todo <= stale && runs.Keys == old(runs).Keys && decisions == old(decisions)
        invariant forall id :: id in runs ==> runs[id] == (if id in stale - todo then Cancel(old(runs)[id], stamp(id))
                                                           else old(runs)[id])
        decreases todo
      {
        var id :| id in todo;
        runs := runs[id := Cancel(runs[id], stamp(id))];
        todo := todo - {id};
      }
      assert runs == Expired(old(runs), cutoff, stamp);
      expired := |stale|;
      ExpiredSound(old(Contents()), cutoff, stamp);
    }
  }

  function Cancel(run: RunRecord, now: int): RunRecord
  {
    run.(state := Cancelled, updatedAt := now)
  }

  lemma ExpiredSound(s: Store, cutoff: int, stamp: string -> int)
    requires Sound(s)
    ensures Sound(s.(runs := Expired(s.runs, cutoff, stamp)))
  {
  }

  function Expired(runs: map<string, RunRecord>, cutoff: int, stamp: string -> int): map<string, RunRecord>
  {
    map id | id in runs ::
      if Stale(runs[id], cutoff) then Cancel(runs[id], stamp(id)) else runs[id]
  }

  // --------------------------------------------------------- the serving order

  lemma NotAfterOrder(a: RunRecord, b: RunRecord)
    ensures NotAfter(a, b) || NotAfter(b, a)
    ensures NotAfter(a, b) && NotAfter(b, a) ==> a.id == b.id
  {
    LexTotal(a.id, b.id);
  }

  lemma NotAfterTransitive(a: RunRecord, b: RunRecord, c: RunRecord)
    requires NotAfter(a, b) && NotAfter(b, c)
    ensures NotAfter(a, c)
  {
    if a.createdAt == b.createdAt == c.createdAt { LexTransitive(a.id, b.id, c.id); }
  }
}
