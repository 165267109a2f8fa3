/** The queue: lapsed runs come back, and runs are served oldest first. */
module Queue {
  import opened JsonValues
  import opened RunStore
  import opened Leases

  // ------------------------------------------------------------------- healing

  /** Reclaiming moves exactly the lapsed runs and loses none; doing it again at
      the same instant, or earlier, finds nothing left to move. */
  lemma ReclaimSettles(runs: map<string, RunRecord>, now: int, again: int)
    requires again <= now
    ensures Reclaimed(runs, now).Keys == runs.Keys
    ensures forall id :: id in runs && Reclaimed(runs, now)[id] != runs[id] ==> id in LapsedIds(runs, now)
    ensures forall id :: id in LapsedIds(runs, now) ==>
              Reclaimed(runs, now)[id].state == Queued && Reclaimed(runs, now)[id].leasedBy == None
    ensures LapsedIds(Reclaimed(runs, now), again) == {}
    ensures Reclaimed(Reclaimed(runs, now), again) == Reclaimed(runs, now)
  {
    var once := Reclaimed(runs, now);
    forall id | id in once ensures !Lapsed(once[id], again) { }
    assert Reclaimed(once, again) == once;
  }

  /** A claim that comes back empty-handed leaves no matching run queued, and
      none stranded behind a lapsed lease. */
  lemma EmptyClaimMeansNothingToDo(s: Store, e: Entry)
    requires Next(s, e.op, e.after, e.reply) && e.op.ClaimOp? && e.reply.run.None?
    ensures EligibleIds(e.after.runs, e.op.workflows) == {}
    ensures LapsedIds(e.after.runs, e.op.reclaimNow) == {}
  {
    ReclaimSettles(s.runs, e.op.reclaimNow, e.op.reclaimNow);
  }

  // ------------------------------------------------------------- serving order

  lemma OldestUnique(runs: map<string, RunRecord>, runs': map<string, RunRecord>, ids: set<string>, a: string, b: string)
    requires OldestOf(runs, ids, a) && OldestOf(runs', ids, b)
    requires forall id :: id in ids ==> runs[id].id == id && runs'[id].id == id
    requires forall id :: id in ids ==> runs[id].createdAt == runs'[id].createdAt
    ensures a == b
  {
    assert NotAfter(runs[a], runs[b]) && NotAfter(runs'[b], runs'[a]);
    NotAfterOrder(runs[a], runs[b]);
  }

  lemma OldestExists(runs: map<string, RunRecord>, ids: set<string>)
    requires ids != {} && ids <= runs.Keys
    ensures exists id :: OldestOf(runs, ids, id)
  {
    var x :| x in ids;
    var rest := ids - {x};
    NotAfterOrder(runs[x], runs[x]);
    if rest == {} {
      assert ids == {x};
      assert OldestOf(runs, ids, x);
    } else {
      OldestExists(runs, rest);
      var y :| OldestOf(runs, rest, y);
      NotAfterOrder(runs[x], runs[y]);
      NotAfterOrder(runs[y], runs[y]);
      if NotAfter(runs[x], runs[y]) {
        forall other | other in ids ensures NotAfter(runs[x], runs[other]) {
          if other != x { NotAfterTransitive(runs[x], runs[y], runs[other]); }
        }
        assert OldestOf(runs, ids, x);
      } else {
        assert OldestOf(runs, ids, y);
      }
    }
  }

  /** The queued runs sorted by `(created_at, id)`. */
  ghost function ServingOrder(runs: map<string, RunRecord>, ids: set<string>): (order: seq<string>)
    requires ids <= runs.Keys
    ensures forall id :: id in order <==> id in ids
    ensures forall i, j :: 0 <= i < j < |order| ==> order[i] != order[j] && NotAfter(runs[order[i]], runs[order[j]])
  {
    if ids == {} then []
    else
      OldestExists(runs, ids);
      var first :| OldestOf(runs, ids, first);
      [first] + ServingOrder(runs, ids - {first})
  }

  ghost function Waiting(order: seq<string>, k: nat): set<string>
  {
    set i | k <= i < |order| :: order[i]
  }

  // --------------------------------------------------------------- who waits

  predicate Wanted(run: RunRecord, workflows: set<string>)
  {
    workflows == {} || run.workflow in workflows
  }

  /** No run of these workflows has lapsed by the time this step reads. */
  ghost predicate NoLapse(s: Store, op: Op, workflows: set<string>)
  {
    ReclaimClock(op).Some? ==>
      forall id :: id in LapsedIds(s.runs, ReclaimClock(op).value) ==> !Wanted(s.runs[id], workflows)
  }

  /** So reclaiming changes no run that waits, and adds none. */
  lemma SameQueue(s: Store, op: Op, workflows: set<string>)
    requires ReclaimClock(op).Some? && NoLapse(s, op, workflows)
    ensures var queue := Reclaimed(s.runs, ReclaimClock(op).value);
            && EligibleIds(queue, workflows) == EligibleIds(s.runs, workflows)
            && forall id :: id in EligibleIds(s.runs, workflows) ==> queue[id] == s.runs[id]
  {
    var now := ReclaimClock(op).value;
    var queue := Reclaimed(s.runs, now);
    forall id ensures id in EligibleIds(queue, workflows) <==> id in EligibleIds(s.runs, workflows) {
      if id in s.runs && Lapsed(s.runs[id], now) { assert id in LapsedIds(s.runs, now); }
    }
  }

  /** A claim with no lapse among the runs it looks for takes the oldest eligible
      one and no other. */
  lemma ClaimShrinks(s: Store, e: Entry, workflows: set<string>)
    requires Sound(s) && Next(s, e.op, e.after, e.reply)
    requires e.op.ClaimOp? && e.op.workflows == workflows && NoLapse(s, e.op, workflows)
    ensures e.reply.run.None? ==>
              EligibleIds(s.runs, workflows) == {} && e.after.runs == Reclaimed(s.runs, e.op.reclaimNow)
    ensures e.reply.run.Some? ==>
              && OldestOf(s.runs, EligibleIds(s.runs, workflows), e.reply.run.value.id)
              && EligibleIds(e.after.runs, workflows) == EligibleIds(s.runs, workflows) - {e.reply.run.value.id}
    ensures e.reply.run.None? ==> EligibleIds(e.after.runs, workflows) == {}
  {
    SameQueue(s, e.op, workflows);
    if e.reply.run.Some? {
      var queue := Reclaimed(s.runs, e.op.reclaimNow);
      var id := e.reply.run.value.id;
      assert queue[id].id == id;
      assert e.after.runs == queue[id := e.reply.run.value];
      assert EligibleIds(e.after.runs, workflows) == EligibleIds(queue, workflows) - {id};
    }
  }

  // -------------------------------------------------------------------- draining

  predicate ServesFrom(op: Op, workflows: set<string>)
  {
    op.ClaimOp? && op.workflows == workflows
  }

  /** A step that moves no run of these workflows into the queue or out of it: a
      claim for other workflows, a mark that keeps a run queued or keeps it out,
      a creation, a renewal, a decision, an expiry. */
  ghost predicate Aside(s: Store, op: Op, workflows: set<string>)
  {
    match op
    case ClaimOp(_, others, _, _, _) => others != {} && workflows != {} && others !! workflows
    case MarkOp(id, state, _, _) =>
      id in s.runs && Wanted(s.runs[id], workflows) ==> (state == Queued <==> s.runs[id].state == Queued)
    case _ => true
  }

  lemma AsideRun(s: Store, e: Entry, workflows: set<string>, id: string)
    requires Sound(s) && Next(s, e.op, e.after, e.reply)
    requires Aside(s, e.op, workflows) && NoLapse(s, e.op, workflows)
    ensures id in EligibleIds(e.after.runs, workflows) <==> id in EligibleIds(s.runs, workflows)
  {
    if ReclaimClock(e.op).Some? { SameQueue(s, e.op, workflows); }
  }

  lemma AsideLeaves(s: Store, e: Entry, workflows: set<string>)
    requires Sound(s) && Next(s, e.op, e.after, e.reply)
    requires Aside(s, e.op, workflows) && NoLapse(s, e.op, workflows)
    ensures EligibleIds(e.after.runs, workflows) == EligibleIds(s.runs, workflows)
  {
    forall id ensures id in EligibleIds(e.after.runs, workflows) <==> id in EligibleIds(s.runs, workflows) {
      AsideRun(s, e, workflows, id);
    }
  }

  /** Claims for these workflows, and any steps that leave their queue alone. */
  ghost predicate DrainStep(s0: Store, history: seq<Entry>, workflows: set<string>, k: nat)
    requires k < |history|
  {
    var s, op := Before(s0, history, k), history[k].op;
    NoLapse(s, op, workflows) && (ServesFrom(op, workflows) || Aside(s, op, workflows))
  }

  ghost predicate Drains(s0: Store, history: seq<Entry>, workflows: set<string>)
  {
    forall k: nat {:trigger DrainStep(s0, history, workflows, k)} :: k < |history| ==> DrainStep(s0, history, workflows, k)
  }

  /** How many claims for these workflows came before step `k`. */
  function ClaimsBefore(history: seq<Entry>, workflows: set<string>, k: nat): nat
    requires k <= |history|
  {
    if k == 0 then 0
    else ClaimsBefore(history, workflows, k - 1) + if ServesFrom(history[k - 1].op, workflows) then 1 else 0
  }

  lemma FirstWaiting(runs: map<string, RunRecord>, order: seq<string>, k: nat)
    requires k < |order|
    requires forall i :: 0 <= i < |order| ==> order[i] in runs
    requires forall i, j :: 0 <= i < j < |order| ==> order[i] != order[j] && NotAfter(runs[order[i]], runs[order[j]])
    ensures OldestOf(runs, Waiting(order, k), order[k])
    ensures Waiting(order, k) - {order[k]} == Waiting(order, k + 1)
  {
    NotAfterOrder(runs[order[k]], runs[order[k]]);
  }

  /** After so many claims, exactly the runs from that position on are waiting. */
  lemma {:induction false} DrainProgress(s0: Store, history: seq<Entry>, workflows: set<string>, k: nat)
    requires Sound(s0) && History(s0, history) && Drains(s0, history, workflows) && k <= |history|
    ensures EligibleIds(Before(s0, history, k).runs, workflows) ==
            Waiting(ServingOrder(s0.runs, EligibleIds(s0.runs, workflows)), ClaimsBefore(history, workflows, k))
  {
    var order := ServingOrder(s0.runs, EligibleIds(s0.runs, workflows));
    if k == 0 {
      forall id ensures id in Waiting(order, 0) <==> id in EligibleIds(s0.runs, workflows) {
        if id in order { var i :| 0 <= i < |order| && order[i] == id; }
      }
    } else {
      DrainProgress(s0, history, workflows, k - 1);
      if ServesFrom(history[k - 1].op, workflows) {
        ServesNext(s0, history, workflows, k - 1);
      } else {
        OthersLeave(s0, history, workflows, k - 1);
      }
    }
  }

  lemma OthersLeave(s0: Store, history: seq<Entry>, workflows: set<string>, k: nat)
    requires Sound(s0) && History(s0, history) && Drains(s0, history, workflows) && k < |history|
    requires !ServesFrom(history[k].op, workflows)
    ensures EligibleIds(Before(s0, history, k + 1).runs, workflows) ==
            EligibleIds(Before(s0, history, k).runs, workflows)
  {
    EntryAt(s0, history, k);
    assert DrainStep(s0, history, workflows, k);
    AsideLeaves(Before(s0, history, k), history[k], workflows);
  }

  lemma ServesNext(s0: Store, history: seq<Entry>, workflows: set<string>, k: nat)
    requires Sound(s0) && History(s0, history) && Drains(s0, history, workflows) && k < |history|
    requires ServesFrom(history[k].op, workflows)
    requires EligibleIds(Before(s0, history, k).runs, workflows) ==
             Waiting(ServingOrder(s0.runs, EligibleIds(s0.runs, workflows)), ClaimsBefore(history, workflows, k))
    ensures EligibleIds(Before(s0, history, k + 1).runs, workflows) ==
            Waiting(ServingOrder(s0.runs, EligibleIds(s0.runs, workflows)), ClaimsBefore(history, workflows, k) + 1)
    ensures history[k].reply.Claimed?
    ensures var order := ServingOrder(s0.runs, EligibleIds(s0.runs, workflows));
            var n := ClaimsBefore(history, workflows, k);
            if n < |order| then history[k].reply.run.Some? && history[k].reply.run.value.id == order[n]
            else history[k].reply.run.None?
  {
    var order := ServingOrder(s0.runs, EligibleIds(s0.runs, workflows));
    var s, n := Before(s0, history, k), ClaimsBefore(history, workflows, k);
    EntryAt(s0, history, k);
    assert DrainStep(s0, history, workflows, k);
    ClaimShrinks(s, history[k], workflows);
    if n < |order| {
      FirstWaiting(s0.runs, order, n);
      assert order[n] in Waiting(order, n);
      HistoryKeepsRuns(s0, history, 0, k);
      OldestUnique(s0.runs, s.runs, Waiting(order, n), order[n], history[k].reply.run.value.id);
    } else {
      assert Waiting(order, n) == {} && Waiting(order, n + 1) == {};
    }
  }

  /** A batch is drained in order, each run exactly once, whatever the workers and
      reviewers do to other runs, or to a run once it is claimed, between the
      claims; then the claims return nothing. */
  lemma DrainsOldestFirst(s0: Store, history: seq<Entry>, workflows: set<string>, k: nat)
    requires Sound(s0) && History(s0, history) && Drains(s0, history, workflows)
    requires k < |history| && ServesFrom(history[k].op, workflows)
    ensures history[k].reply.Claimed?
    ensures var order := ServingOrder(s0.runs, EligibleIds(s0.runs, workflows));
            var n := ClaimsBefore(history, workflows, k);
            if n < |order| then history[k].reply.run.Some? && history[k].reply.run.value.id == order[n]
            else history[k].reply.run.None?
  {
    DrainProgress(s0, history, workflows, k);
    ServesNext(s0, history, workflows, k);
  }

  // ------------------------------------------------------- fairness, unrestricted

  /** The step puts the run in the queue: a mark, or the end of a lapsed lease. */
  ghost predicate Queues(s: Store, op: Op, id: string)
  {
    || (op.MarkOp? && op.id == id && op.state == Queued)
    || (ReclaimClock(op).Some? && id in LapsedIds(s.runs, ReclaimClock(op).value))
  }

  ghost predicate QueuedAt(s: Store, id: string)
  {
    id in s.runs && s.runs[id].state == Queued
  }

  /** A run that is in the queue after a step was there before, or was put there. */
  lemma QueuedBefore(s: Store, e: Entry, id: string)
    requires Sound(s) && Next(s, e.op, e.after, e.reply) && !Queues(s, e.op, id)
    requires QueuedAt(e.after, id)
    ensures QueuedAt(s, id)
  {
  }

  lemma {:induction false} QueuedSince(s0: Store, history: seq<Entry>, i: nat, j: nat, id: string)
    requires Sound(s0) && History(s0, history) && i <= j <= |history|
    requires forall k :: i <= k < j ==> !Queues(Before(s0, history, k), history[k].op, id)
    requires QueuedAt(Before(s0, history, j), id)
    ensures QueuedAt(Before(s0, history, i), id)
    decreases j
  {
    if i < j {
      EntryAt(s0, history, j - 1);
      QueuedBefore(Before(s0, history, j - 1), history[j - 1], id);
      QueuedSince(s0, history, i, j - 1, id);
    }
  }

  /** A run that waits while another is claimed is the younger one. */
  lemma WaitsBehind(s: Store, e: Entry, a: string, b: string)
    requires Sound(s) && Next(s, e.op, e.after, e.reply) && Claims(e, a)
    requires QueuedAt(e.after, b) && Wanted(e.after.runs[b], e.op.workflows)
    ensures a != b && a in e.after.runs && NotAfter(e.after.runs[a], e.after.runs[b])
  {
    var queue := Reclaimed(s.runs, e.op.reclaimNow);
    assert queue[a].id == a && queue[b].id == b;
    assert b in EligibleIds(queue, e.op.workflows);
  }

  lemma ClaimedWasQueued(s: Store, e: Entry, b: string)
    requires Sound(s) && Next(s, e.op, e.after, e.reply) && Claims(e, b) && !Queues(s, e.op, b)
    ensures QueuedAt(s, b) && Wanted(s.runs[b], e.op.workflows)
  {
  }

  /** Over every history, whatever else happens in it: of two claims for the same
      workflows, the later one serves a younger run, unless that run was put in
      the queue after the earlier claim. */
  lemma ServedInOrder(s0: Store, history: seq<Entry>, i: nat, j: nat, a: string, b: string)
    requires Sound(s0) && History(s0, history) && i < j < |history|
    requires Claims(history[i], a) && Claims(history[j], b) && history[i].op.workflows == history[j].op.workflows
    ensures (exists k :: i < k <= j && Queues(Before(s0, history, k), history[k].op, b)) ||
            (a != b && a in history[i].after.runs && b in history[i].after.runs &&
             NotAfter(history[i].after.runs[a], history[i].after.runs[b]))
  {
    if forall k :: i < k <= j ==> !Queues(Before(s0, history, k), history[k].op, b) {
      EntryAt(s0, history, i);
      EntryAt(s0, history, j);
      ClaimedWasQueued(Before(s0, history, j), history[j], b);
      QueuedSince(s0, history, i + 1, j, b);
      HistoryKeepsRuns(s0, history, i + 1, j);
      WaitsBehind(Before(s0, history, i), history[i], a, b);
    }
  }
}
