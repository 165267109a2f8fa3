/** Histories of the run store: any interleaving of workers, operators and
    reviewers, under any clock. Leases exclude each other; records and decision
    chains only grow. */
module Leases {
  import opened JsonValues
  import opened RunStore

  datatype Op =
    | CreateOp(id: string, workflow: string, policy: Json, createdBy: Option<Principal>, created: int, updated: int)
    | MarkOp(id: string, state: State, gate: Option<Json>, now: int)
    | ReclaimOp(now: int)
    | ClaimOp(worker: string, workflows: set<string>, lease: int, reclaimNow: int, now: int)
    | RenewOp(id: string, worker: string, lease: int, now: int)
    | DecideOp(id: string, verdict: Verdict, principal: Principal, comment: Option<string>, uuid: string, now: int)
    | ExpireOp(cutoff: int, stamp: string -> int)

  datatype Reply =
    | Record(r: Result<RunRecord, StoreError>)
    | Count(n: nat)
    | Claimed(run: Option<RunRecord>)
    | Decision(d: Result<(DecisionRecord, bool), StoreError>)

  ghost predicate Next(s: Store, op: Op, s': Store, reply: Reply)
  {
    match op
    case CreateOp(id, workflow, policy, createdBy, created, updated) =>
      reply.Record? && CreateStep(s, id, workflow, policy, createdBy, created, updated, s', reply.r)
    case MarkOp(id, state, gate, now) => reply.Record? && MarkStep(s, id, state, gate, now, s', reply.r)
    case ReclaimOp(now) => reply.Count? && ReclaimStep(s, now, s', reply.n)
    case ClaimOp(worker, workflows, lease, reclaimNow, now) =>
      reply.Claimed? && ClaimStep(s, worker, workflows, lease, reclaimNow, now, s', reply.run)
    case RenewOp(id, worker, lease, now) => reply.Record? && RenewStep(s, id, worker, lease, now, s', reply.r)
    case DecideOp(id, verdict, principal, comment, uuid, now) =>
      reply.Decision? && DecideStep(s, id, verdict, principal, comment, uuid, now, s', reply.d)
    case ExpireOp(cutoff, stamp) => reply.Count? && ExpireStep(s, cutoff, stamp, s', reply.n)
  }

  /** One entry of a history: what was called, what came back, what it left. */
  datatype Entry = Entry(op: Op, reply: Reply, after: Store)

  ghost function Before(s0: Store, history: seq<Entry>, k: nat): Store
    requires k <= |history|
  {
    if k == 0 then s0 else history[k - 1].after
  }

  ghost predicate Follows(s0: Store, history: seq<Entry>, k: nat)
    requires k < |history|
  {
    Next(Before(s0, history, k), history[k].op, history[k].after, history[k].reply)
  }

  ghost predicate History(s0: Store, history: seq<Entry>)
  {
    forall k: nat {:trigger Follows(s0, history, k)} :: k < |history| ==> Follows(s0, history, k)
  }

  /** The store takes any of these steps, one call each. */
  method Apply(store: InMemoryRunStore, op: Op) returns (reply: Reply)
    requires Sound(store.Contents())
    modifies store
    ensures Sound(store.Contents())
    ensures Next(old(store.Contents()), op, store.Contents(), reply)
  {
    match op
    case CreateOp(id, workflow, policy, createdBy, created, updated) =>
      var r := store.CreateRun(id, workflow, policy, createdBy, created, updated);
      reply := Record(r);
    case MarkOp(id, state, gate, now) =>
      var r := store.MarkState(id, state, gate, now);
      reply := Record(r);
    case ReclaimOp(now) =>
      var n := store.ReclaimExpiredLeases(now);
      reply := Count(n);
    case ClaimOp(worker, workflows, lease, reclaimNow, now) =>
      var run := store.ClaimRun(worker, workflows, lease, reclaimNow, now);
      reply := Claimed(run);
    case RenewOp(id, worker, lease, now) =>
      var r := store.RenewLease(id, worker, lease, now);
      reply := Record(r);
    case DecideOp(id, verdict, principal, comment, uuid, now) =>
      var d := store.AppendDecision(id, verdict, principal, comment, uuid, now);
      reply := Decision(d);
    case ExpireOp(cutoff, stamp) =>
      var n := store.ExpireRuns(cutoff, stamp);
      reply := Count(n);
  }

  /** A history goes on with any further step from where it stands. */
  lemma HistorySnoc(s0: Store, history: seq<Entry>, e: Entry)
    requires History(s0, history) && Next(Before(s0, history, |history|), e.op, e.after, e.reply)
    ensures History(s0, history + [e])
    ensures Before(s0, history + [e], |history| + 1) == e.after
  {
    var longer := history + [e];
    forall k: nat | k < |longer| ensures Follows(s0, longer, k) {
      assert Before(s0, longer, k) == Before(s0, history, k);
      if k < |history| { assert Follows(s0, history, k); }
    }
  }

  // ------------------------------------------------------------ every step keeps

  lemma StepSoundRun(s: Store, op: Op, s': Store, reply: Reply, id: string)
    requires Sound(s) && Next(s, op, s', reply) && id in s'.runs
    ensures s'.runs[id].id == id && LeaseSound(s'.runs[id])
  {
  }

  lemma StepSoundChain(s: Store, op: Op, s': Store, reply: Reply, id: string)
    requires Sound(s) && Next(s, op, s', reply) && id in s'.decisions
    ensures id in s'.runs && ChainSound(s'.decisions[id], id)
  {
  }

  lemma StepSound(s: Store, op: Op, s': Store, reply: Reply)
    requires Sound(s) && Next(s, op, s', reply)
    ensures Sound(s')
  {
    forall id | id in s'.runs ensures s'.runs[id].id == id && LeaseSound(s'.runs[id]) {
      StepSoundRun(s, op, s', reply, id);
    }
    forall id | id in s'.decisions ensures id in s'.runs && ChainSound(s'.decisions[id], id) {
      StepSoundChain(s, op, s', reply, id);
    }
  }

  lemma {:induction false} HistorySound(s0: Store, history: seq<Entry>, k: nat)
    requires Sound(s0) && History(s0, history) && k <= |history|
    ensures Sound(Before(s0, history, k))
  {
    if k > 0 {
      HistorySound(s0, history, k - 1);
      assert Follows(s0, history, k - 1);
      StepSound(Before(s0, history, k - 1), history[k - 1].op, history[k - 1].after, history[k - 1].reply);
    }
  }

  /** No run ever disappears or changes what it is. */
  ghost predicate RunsKept(s: Store, s': Store)
  {
    forall id :: id in s.runs ==>
      && id in s'.runs
      && s'.runs[id].workflow == s.runs[id].workflow
      && s'.runs[id].createdAt == s.runs[id].createdAt
      && s'.runs[id].createdBy == s.runs[id].createdBy
  }

  lemma StepKeepsRun(s: Store, op: Op, s': Store, reply: Reply, id: string)
    requires Sound(s) && Next(s, op, s', reply) && id in s.runs
    ensures id in s'.runs
    ensures
      && s'.runs[id].workflow == s.runs[id].workflow
      && s'.runs[id].createdAt == s.runs[id].createdAt
      && s'.runs[id].createdBy == s.runs[id].createdBy
  {
  }

  lemma StepKeepsRuns(s: Store, op: Op, s': Store, reply: Reply)
    requires Sound(s) && Next(s, op, s', reply)
    ensures RunsKept(s, s')
  {
    forall id | id in s.runs
      ensures
        && id in s'.runs
        && s'.runs[id].workflow == s.runs[id].workflow
        && s'.runs[id].createdAt == s.runs[id].createdAt
        && s'.runs[id].createdBy == s.runs[id].createdBy
    {
      StepKeepsRun(s, op, s', reply, id);
    }
  }

  /** A chain grows by one record, only by a decision, only while awaiting one. */
  lemma StepKeepsChains(s: Store, op: Op, s': Store, reply: Reply, id: string)
    requires Sound(s) && Next(s, op, s', reply)
    ensures Chain(s.decisions, id) <= Chain(s'.decisions, id)
    ensures Chain(s'.decisions, id) != Chain(s.decisions, id) ==>
              && op.DecideOp? && op.id == id && id in s.runs && s.runs[id].state == AwaitingDecision
              && |Chain(s'.decisions, id)| == |Chain(s.decisions, id)| + 1
  {
  }

  lemma EntryAt(s0: Store, history: seq<Entry>, k: nat)
    requires Sound(s0) && History(s0, history) && k < |history|
    ensures Sound(Before(s0, history, k))
    ensures Next(Before(s0, history, k), history[k].op, history[k].after, history[k].reply)
    ensures Before(s0, history, k + 1) == history[k].after
  {
    HistorySound(s0, history, k);
    assert Follows(s0, history, k);
  }

  /** Over a whole history: earlier runs are still there, unchanged in kind. */
  lemma {:induction false} HistoryKeepsRuns(s0: Store, history: seq<Entry>, j: nat, k: nat)
    requires Sound(s0) && History(s0, history) && j <= k <= |history|
    ensures RunsKept(Before(s0, history, j), Before(s0, history, k))
    decreases k
  {
    if j < k {
      HistoryKeepsRuns(s0, history, j, k - 1);
      RunsKeptAt(s0, history, k - 1);
      RunsCompose(Before(s0, history, j), Before(s0, history, k - 1), Before(s0, history, k));
    }
  }

  lemma RunsKeptAt(s0: Store, history: seq<Entry>, k: nat)
    requires Sound(s0) && History(s0, history) && k < |history|
    ensures RunsKept(Before(s0, history, k), Before(s0, history, k + 1))
  {
    EntryAt(s0, history, k);
    StepKeepsRuns(Before(s0, history, k), history[k].op, history[k].after, history[k].reply);
  }

  lemma RunsCompose(a: Store, b: Store, c: Store)
    requires RunsKept(a, b) && RunsKept(b, c)
    ensures RunsKept(a, c)
  {
  }

  /** ... and so is every decision, at its place in its chain. */
  lemma {:induction false} HistoryKeepsChains(s0: Store, history: seq<Entry>, j: nat, k: nat, id: string)
    requires Sound(s0) && History(s0, history) && j <= k <= |history|
    ensures Chain(Before(s0, history, j).decisions, id) <= Chain(Before(s0, history, k).decisions, id)
    decreases k
  {
    if j < k {
      HistoryKeepsChains(s0, history, j, k - 1, id);
      ChainKeptAt(s0, history, k - 1, id);
    }
  }

  lemma ChainKeptAt(s0: Store, history: seq<Entry>, k: nat, id: string)
    requires Sound(s0) && History(s0, history) && k < |history|
    ensures Chain(Before(s0, history, k).decisions, id) <= Chain(Before(s0, history, k + 1).decisions, id)
  {
    EntryAt(s0, history, k);
    StepKeepsChains(Before(s0, history, k), history[k].op, history[k].after, history[k].reply, id);
  }

  /** Step `k` brings the run about or changes its state. */
  ghost predicate Moves(s0: Store, history: seq<Entry>, k: nat, id: string)
    requires k < |history|
  {
    var s, s' := Before(s0, history, k), history[k].after;
    id in s'.runs && (id !in s.runs || s'.runs[id].state != s.runs[id].state)
  }

  /** A run keeps the state it is marked with until a later step moves it. */
  lemma {:induction false} MarkHolds(s0: Store, history: seq<Entry>, m: nat, k: nat, id: string)
    requires Sound(s0) && History(s0, history) && m < k <= |history|
    requires history[m].op.MarkOp? && history[m].op.id == id && id in Before(s0, history, k).runs
    requires forall i: nat :: m < i < k ==> !Moves(s0, history, i, id)
    ensures Before(s0, history, k).runs[id].state == history[m].op.state
    decreases k
  {
    EntryAt(s0, history, k - 1);
    if k > m + 1 {
      assert !Moves(s0, history, k - 1, id);
      MarkHolds(s0, history, m, k - 1, id);
    }
  }

  // ------------------------------------------------------------------- leases

  ghost predicate Claims(e: Entry, id: string)
  {
    e.op.ClaimOp? && e.reply.Claimed? && e.reply.run.Some? && e.reply.run.value.id == id
  }

  ghost predicate Renews(e: Entry, id: string)
  {
    e.op.RenewOp? && e.op.id == id && e.reply.Record? && e.reply.r.Ok?
  }

  /** When the lease taken at step `i` runs out, as last set before step `k`. */
  ghost function LeaseEnd(history: seq<Entry>, i: nat, k: nat, id: string): int
    requires i < k <= |history| && Claims(history[i], id)
    decreases k
  {
    if k == i + 1 then history[i].op.now + history[i].op.lease
    else if Renews(history[k - 1], id) then history[k - 1].op.now + history[k - 1].op.lease
    else LeaseEnd(history, i, k - 1, id)
  }

  /** The clock a step reads in order to reclaim. */
  ghost function ReclaimClock(op: Op): Option<int>
  {
    match op
    case ReclaimOp(now) => Some(now)
    case ClaimOp(_, _, _, reclaimNow, _) => Some(reclaimNow)
    case _ => None
  }

  /** Step `k` ends the lease taken at step `i`: it marks the run as something
      other than running, or reclaims at or past the end of the lease. */
  ghost predicate Ends(history: seq<Entry>, i: nat, k: nat, id: string)
    requires i < k < |history| && Claims(history[i], id)
  {
    var op := history[k].op;
    || (op.MarkOp? && op.id == id && op.state != Running)
    || (ReclaimClock(op).Some? && LeaseEnd(history, i, k, id) <= ReclaimClock(op).value)
  }

  ghost predicate HeldBy(run: RunRecord, worker: string, end: int)
  {
    run.state == Running && run.leasedBy == Some(worker) && run.leaseExpiresAt == Some(end)
  }

  lemma ClaimTakes(s: Store, e: Entry, id: string)
    requires Next(s, e.op, e.after, e.reply) && Claims(e, id)
    ensures id in e.after.runs && HeldBy(e.after.runs[id], e.op.worker, e.op.now + e.op.lease)
  {
  }

  /** One step that does not end the lease leaves the run with its holder. */
  lemma StepHolds(s: Store, e: Entry, id: string, worker: string, end: int)
    requires Sound(s) && Next(s, e.op, e.after, e.reply)
    requires id in s.runs && HeldBy(s.runs[id], worker, end)
    requires !(e.op.MarkOp? && e.op.id == id && e.op.state != Running)
    requires ReclaimClock(e.op).Some? ==> ReclaimClock(e.op).value < end
    ensures id in e.after.runs
    ensures HeldBy(e.after.runs[id], worker, if Renews(e, id) then e.op.now + e.op.lease else end)
    ensures !Claims(e, id)
    ensures e.op.RenewOp? && e.op.id == id && e.op.worker != worker ==> e.reply.r.Err?
  {
    if e.op.ClaimOp? && e.reply.run.Some? {
      var queue := Reclaimed(s.runs, e.op.reclaimNow);
      assert queue[id] == s.runs[id];
      assert e.reply.run.value.id != id;
    }
  }

  /** While nothing ends the lease, its holder keeps the run, with the expiry last set. */
  lemma {:induction false} HeldUntilEnded(s0: Store, history: seq<Entry>, i: nat, k: nat, id: string)
    requires Sound(s0) && History(s0, history)
    requires i < k <= |history| && Claims(history[i], id)
    requires forall m :: i < m < k ==> !Ends(history, i, m, id)
    ensures id in Before(s0, history, k).runs
    ensures HeldBy(Before(s0, history, k).runs[id], history[i].op.worker, LeaseEnd(history, i, k, id))
    decreases k
  {
    if k == i + 1 {
      EntryAt(s0, history, i);
      ClaimTakes(Before(s0, history, i), history[i], id);
    } else {
      HeldUntilEnded(s0, history, i, k - 1, id);
      HeldPast(s0, history, i, k - 1, id);
    }
  }

  lemma HeldPast(s0: Store, history: seq<Entry>, i: nat, k: nat, id: string)
    requires Sound(s0) && History(s0, history)
    requires i < k < |history| && Claims(history[i], id) && !Ends(history, i, k, id)
    requires id in Before(s0, history, k).runs
    requires HeldBy(Before(s0, history, k).runs[id], history[i].op.worker, LeaseEnd(history, i, k, id))
    ensures id in Before(s0, history, k + 1).runs
    ensures HeldBy(Before(s0, history, k + 1).runs[id], history[i].op.worker, LeaseEnd(history, i, k + 1, id))
    ensures !Claims(history[k], id)
  {
    EntryAt(s0, history, k);
    StepHolds(Before(s0, history, k), history[k], id, history[i].op.worker, LeaseEnd(history, i, k, id));
  }

  /** Lease exclusivity, over every interleaving and every clock: between two
      claims of one run, some step ended the first lease. That step may be the
      second claim itself, which reclaims before it chooses. */
  lemma LeaseExclusive(s0: Store, history: seq<Entry>, i: nat, j: nat, id: string)
    requires Sound(s0) && History(s0, history)
    requires i < j < |history| && Claims(history[i], id) && Claims(history[j], id)
    ensures exists k :: i < k <= j && Ends(history, i, k, id)
  {
    if forall k :: i < k <= j ==> !Ends(history, i, k, id) {
      HeldUntilEnded(s0, history, i, j, id);
      HeldPast(s0, history, i, j, id);
    }
  }

  /** The two ways a lease ends are real: after such a step the run is no longer
      held under that lease. */
  lemma EndsRelease(s0: Store, history: seq<Entry>, i: nat, k: nat, id: string)
    requires Sound(s0) && History(s0, history)
    requires i < k < |history| && Claims(history[i], id)
    requires forall m :: i < m < k ==> !Ends(history, i, m, id)
    requires Ends(history, i, k, id)
    ensures id in history[k].after.runs
    ensures history[k].after.runs[id].state != Running || Claims(history[k], id)
  {
    HeldUntilEnded(s0, history, i, k, id);
    EntryAt(s0, history, k);
  }

  /** Marking a run `running` again does not touch its lease, and a worker that
      lost the run cannot renew it. */
  lemma RenewalNeedsTheLease(s: Store, id: string, worker: string, lease: int, now: int, e: Entry)
    requires Sound(s) && e.op == RenewOp(id, worker, lease, now) && Next(s, e.op, e.after, e.reply)
    ensures e.reply.r.Ok? <==> id in s.runs && s.runs[id].leasedBy == Some(worker)
    ensures e.reply.r.Ok? ==> s.runs[id].state == Running
  {
  }

  /** ... and nothing else: the holder renews a lease that has already lapsed, as
      long as nobody has reclaimed it. */
  lemma LapsedLeaseRenewed(s: Store, id: string, worker: string, end: int, lease: int, now: int) returns (e: Entry)
    requires id in s.runs && HeldBy(s.runs[id], worker, end) && end <= now
    ensures Lapsed(s.runs[id], now)
    ensures e.op == RenewOp(id, worker, lease, now) && Next(s, e.op, e.after, e.reply)
    ensures e.reply.r.Ok? && HeldBy(e.after.runs[id], worker, now + lease)
  {
    var run := Renewed(s.runs[id], lease, now);
    e := Entry(RenewOp(id, worker, lease, now), Record(Ok(run)), s.(runs := s.runs[id := run]));
  }

  // ------------------------------------------------------------ without a lease

  ghost predicate Creates(e: Entry, id: string)
  {
    e.op.CreateOp? && e.op.id == id && e.reply.Record? && e.reply.r.Ok?
  }

  /** A run that is worked on and that nobody has a lease for. */
  ghost predicate Unleased(run: RunRecord)
  {
    run.state == Running && run.leasedBy == None && run.leaseExpiresAt == None
  }

  ghost predicate MovesOff(e: Entry, id: string)
  {
    e.op.MarkOp? && e.op.id == id && e.op.state != Running
  }

  lemma StepLeavesUnleased(s: Store, e: Entry, id: string)
    requires Sound(s) && Next(s, e.op, e.after, e.reply) && !MovesOff(e, id)
    requires id in s.runs && Unleased(s.runs[id])
    ensures id in e.after.runs && Unleased(e.after.runs[id])
    ensures !Claims(e, id) && !Renews(e, id)
    ensures ReclaimClock(e.op).Some? ==> id !in LapsedIds(s.runs, ReclaimClock(e.op).value)
  {
    if e.op.ClaimOp? && e.reply.run.Some? {
      var queue := Reclaimed(s.runs, e.op.reclaimNow);
      assert queue[id] == s.runs[id];
      assert e.reply.run.value.id != id;
    }
  }

  /** A run created through the store is nobody's: over every interleaving, it is
      neither reclaimed nor claimed until a mark moves it off `running`. */
  lemma {:induction false} CreatedNeverReclaimed(s0: Store, history: seq<Entry>, i: nat, k: nat, id: string)
    requires Sound(s0) && History(s0, history)
    requires i < k <= |history| && Creates(history[i], id)
    requires forall m :: i < m < k ==> !MovesOff(history[m], id)
    ensures id in Before(s0, history, k).runs && Unleased(Before(s0, history, k).runs[id])
    ensures forall m :: i < m < k ==>
              !Claims(history[m], id) &&
              (ReclaimClock(history[m].op).Some? ==>
                 id !in LapsedIds(Before(s0, history, m).runs, ReclaimClock(history[m].op).value))
    decreases k
  {
    EntryAt(s0, history, k - 1);
    if k > i + 1 {
      CreatedNeverReclaimed(s0, history, i, k - 1, id);
      StepLeavesUnleased(Before(s0, history, k - 1), history[k - 1], id);
    }
  }
}
