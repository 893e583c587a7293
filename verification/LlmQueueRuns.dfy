/** Many workers on one LLM queue: claims in two phases (rows locked, then the update
    committed), explicit time, leases, crashes and batch hand-over, in any interleaving. */
module LlmQueueRuns {
  import opened Common
  import opened LlmQueue

  /** A claim statement that has locked its rows and not yet committed. Its
      CURRENT_TIMESTAMP is the time its transaction began. */
  datatype OpenClaim = OpenClaim(workerId: string, began: int, picked: seq<string>)

  /** A worker's belief that it has the item it claimed. */
  datatype Hold = Hold(claimId: nat, itemId: string, workerId: string, claimedAt: int)

  datatype State = State(table: Table, now: int, open: map<nat, OpenClaim>, held: set<Hold>, nextClaim: nat)

  datatype Step =
    | Tick(seconds: nat)
    | Enqueue(itemId: string, jobId: string, payload: Payload)
    | BeginClaim(workerId: string, limit: nat, picked: seq<string>)
    | CommitClaim(claimId: nat)
    | AbortClaim(claimId: nat)
    | Succeed(hold: Hold)
    | FailHeld(hold: Hold, error: string, retryIn: Option<int>)
    | HandToBatch(hold: Hold, batch: string)
    | WorkerDies(hold: Hold)
    | Reclaim
    | CollectDone(itemId: string)               // status read earlier, the delete is not fenced
    | CollectFailed(itemId: string, error: string)

  function Locked(s: State): set<string> {
    set c, x | c in s.open && x in s.open[c].picked :: x
  }

  predicate Enabled(s: State, step: Step) {
    match step
    case Tick(_) => true
    case Enqueue(_, _, _) => true
    case BeginClaim(_, limit, picked) => IsTake(s.table, s.now, Locked(s), limit, picked)
    case CommitClaim(c) => c in s.open
    case AbortClaim(c) => c in s.open
    case Succeed(h) => h in s.held && h.itemId !in Locked(s)
    case FailHeld(h, _, _) => h in s.held && h.itemId !in Locked(s)
    case HandToBatch(h, _) => h in s.held
    case WorkerDies(h) => h in s.held
    case Reclaim => true
    case CollectDone(x) => x !in Locked(s)
    case CollectFailed(x, _) => x !in Locked(s)
  }

  function NewHolds(claimId: nat, c: OpenClaim): set<Hold> {
    set x | x in c.picked :: Hold(claimId, x, c.workerId, c.began)
  }

  function Apply(lease: int, s: State, step: Step): State
    requires Enabled(s, step)
  {
    match step
    case Tick(d) => s.(now := s.now + d)
    case Enqueue(x, job, payload) =>
      if x in s.table then s else s.(table := s.table[x := NewRow(job, payload, s.now)])
    case BeginClaim(w, _, picked) =>
      s.(open := s.open[s.nextClaim := OpenClaim(w, s.now, picked)], nextClaim := s.nextClaim + 1)
    case CommitClaim(c) =>
      var claim := s.open[c];
      s.(table := AfterClaim(s.table, claim.picked, claim.began, claim.workerId),
         open := s.open - {c},
         held := s.held + NewHolds(c, claim))
    case AbortClaim(c) => s.(open := s.open - {c})
    case Succeed(h) => s.(table := s.table - {h.itemId}, held := s.held - {h})
    case FailHeld(h, error, retryIn) =>
      s.(table := FailItem(s.table, h.itemId, error, retryIn, s.now), held := s.held - {h})
    case HandToBatch(h, batch) =>
      s.(table := MarkBatchedIn(s.table, [h.itemId], h.workerId, batch), held := s.held - {h})
    case WorkerDies(h) => s.(held := s.held - {h})
    case Reclaim => s.(table := ReclaimIn(s.table, lease, s.now))
    case CollectDone(x) => s.(table := s.table - {x})
    case CollectFailed(x, error) => s.(table := FailItem(s.table, x, error, None, s.now))
  }

  predicate CanRun(lease: int, s: State, steps: seq<Step>)
    decreases |steps|
  {
    steps == [] || (Enabled(s, steps[0]) && CanRun(lease, Apply(lease, s, steps[0]), steps[1..]))
  }

  function Run(lease: int, s: State, steps: seq<Step>): State
    requires CanRun(lease, s, steps)
    decreases |steps|
  {
    if steps == [] then s else Run(lease, Apply(lease, s, steps[0]), steps[1..])
  }

  predicate Fresh(s: State) {
    s.table == map[] && s.open == map[] && s.held == {} && s.nextClaim == 0
  }

  // ---------------------------------------------------------------------
  // The rows
  // ---------------------------------------------------------------------

  predicate RowOk(row: ItemRow, now: int) {
    && !row.status.Done?
    && (row.status.Processing? ==>
          row.claimedAt.Some? && row.workerId.Some? && row.nextAttemptAt <= row.claimedAt.value <= now)
    && (row.status.Pending? || row.status.Batched? ==> row.claimedAt == None)
    && (row.status.Batched? ==> row.batchId.Some?)
  }

  predicate ClaimOk(s: State, c: nat)
    requires c in s.open
  {
    && c < s.nextClaim && s.open[c].began <= s.now
    && forall x :: x in s.open[c].picked ==> x in s.table && Due(s.table[x], s.open[c].began)
  }

  predicate RowsInv(s: State) {
    && (forall x :: x in s.table ==> RowOk(s.table[x], s.now))
    && (forall c :: c in s.open ==> ClaimOk(s, c))
    && (forall h :: h in s.held ==> h.claimId < s.nextClaim && h.claimId !in s.open)
    && (forall c, d, x :: c in s.open && d in s.open && x in s.open[c].picked && x in s.open[d].picked ==> c == d)
  }

  lemma FreshRows(s: State)
    requires Fresh(s)
    ensures RowsInv(s)
  {
  }

  lemma LockedRow(s: State, c: nat, x: string)
    requires RowsInv(s) && c in s.open && x in s.open[c].picked
    ensures x in Locked(s) && x in s.table && s.table[x].status.Pending?
  {
    assert ClaimOk(s, c);
  }

  lemma BeginRows(lease: int, s: State, step: Step)
    requires RowsInv(s) && Enabled(s, step) && step.BeginClaim?
    ensures RowsInv(Apply(lease, s, step))
  {
    var s' := Apply(lease, s, step);
    forall c | c in s'.open
      ensures ClaimOk(s', c)
    {
      if c != s.nextClaim {
        assert ClaimOk(s, c);
      }
    }
    forall c, d, x | c in s'.open && d in s'.open && x in s'.open[c].picked && x in s'.open[d].picked
      ensures c == d
    {
      if c != s.nextClaim {
        LockedRow(s, c, x);
      }
      if d != s.nextClaim {
        LockedRow(s, d, x);
      }
    }
  }

  lemma CommitRows(lease: int, s: State, c: nat)
    requires RowsInv(s) && c in s.open
    ensures RowsInv(Apply(lease, s, CommitClaim(c)))
  {
    var s' := Apply(lease, s, CommitClaim(c));
    assert ClaimOk(s, c);
    forall d | d in s'.open
      ensures ClaimOk(s', d)
    {
      assert ClaimOk(s, d);
    }
  }

  lemma OtherRows(lease: int, s: State, step: Step)
    requires RowsInv(s) && Enabled(s, step) && !step.BeginClaim? && !step.CommitClaim?
    ensures RowsInv(Apply(lease, s, step))
  {
    var s' := Apply(lease, s, step);
    forall c | c in s'.open
      ensures ClaimOk(s', c)
    {
      assert ClaimOk(s, c);
      forall x | x in s.open[c].picked
        ensures x in s'.table && Due(s'.table[x], s.open[c].began)
      {
        LockedRow(s, c, x);
      }
    }
  }

  lemma StepRows(lease: int, s: State, step: Step)
    requires RowsInv(s) && Enabled(s, step)
    ensures RowsInv(Apply(lease, s, step))
  {
    match step
    case BeginClaim(_, _, _) => BeginRows(lease, s, step);
    case CommitClaim(c) => CommitRows(lease, s, c);
    case _ => OtherRows(lease, s, step);
  }

  lemma {:induction false} RunRows(lease: int, s: State, steps: seq<Step>)
    requires RowsInv(s) && CanRun(lease, s, steps)
    ensures RowsInv(Run(lease, s, steps))
    decreases |steps|
  {
    if steps != [] {
      StepRows(lease, s, steps[0]);
      RunRows(lease, Apply(lease, s, steps[0]), steps[1..]);
    }
  }

  // ---------------------------------------------------------------------
  // No lost item
  // ---------------------------------------------------------------------

  /** The steps that may remove item x: only settling it. */
  predicate Settles(step: Step, x: string) {
    (step.Succeed? && step.hold.itemId == x) || (step.CollectDone? && step.itemId == x)
  }

  /** The claims of x that are committed during the run. */
  function TimesClaimed(lease: int, s: State, steps: seq<Step>, x: string): nat
    requires CanRun(lease, s, steps)
    decreases |steps|
  {
    if steps == [] then 0
    else (if steps[0].CommitClaim? && x in s.open[steps[0].claimId].picked then 1 else 0)
         + TimesClaimed(lease, Apply(lease, s, steps[0]), steps[1..], x)
  }

  lemma StepKeepsItem(lease: int, s: State, step: Step, x: string)
    requires RowsInv(s) && Enabled(s, step) && x in s.table && !Settles(step, x)
    ensures x in Apply(lease, s, step).table
    ensures Apply(lease, s, step).table[x].attempts
         == s.table[x].attempts + (if step.CommitClaim? && x in s.open[step.claimId].picked then 1 else 0)
    ensures Apply(lease, s, step).table[x].jobId == s.table[x].jobId
    ensures Apply(lease, s, step).table[x].payload == s.table[x].payload
  {
  }

  /** An item nobody settles is never lost: it keeps its job and payload, is always pending,
      processing, batched or failed, and its attempts are the claims it has been through. */
  lemma {:induction false} NoItemIsLost(lease: int, s: State, steps: seq<Step>, x: string)
    requires RowsInv(s) && CanRun(lease, s, steps) && x in s.table
    requires forall k :: 0 <= k < |steps| ==> !Settles(steps[k], x)
    ensures var t := Run(lease, s, steps).table;
            && x in t
            && (t[x].status.Pending? || t[x].status.Processing? || t[x].status.Batched? || t[x].status.Failed?)
            && t[x].jobId == s.table[x].jobId && t[x].payload == s.table[x].payload
            && t[x].attempts == s.table[x].attempts + TimesClaimed(lease, s, steps, x)
    decreases |steps|
  {
    if steps == [] {
      assert RowOk(s.table[x], s.now);
    } else {
      StepKeepsItem(lease, s, steps[0], x);
      StepRows(lease, s, steps[0]);
      NoItemIsLost(lease, Apply(lease, s, steps[0]), steps[1..], x);
    }
  }

  /** Enqueueing is idempotent while the row exists and starts the count at 0 when it does not. */
  lemma EnqueueCounts(lease: int, s: State, steps: seq<Step>, x: string, job: string, payload: Payload)
    requires RowsInv(s) && x !in s.table
    requires CanRun(lease, Apply(lease, s, Enqueue(x, job, payload)), steps)
    requires forall k :: 0 <= k < |steps| ==> !Settles(steps[k], x)
    ensures var s1 := Apply(lease, s, Enqueue(x, job, payload));
            var t := Run(lease, s1, steps).table;
            x in t && t[x].jobId == job && t[x].payload == payload && t[x].attempts == TimesClaimed(lease, s1, steps, x)
  {
    StepRows(lease, s, Enqueue(x, job, payload));
    NoItemIsLost(lease, Apply(lease, s, Enqueue(x, job, payload)), steps, x);
  }

  /** Reclaiming makes every expired row claimable at once and touches no other row; in
      particular no batched one, and no row some claim holds locked. */
  lemma ReclaimedIsClaimable(lease: int, s: State, x: string)
    requires RowsInv(s) && x in s.table
    ensures var row := Apply(lease, s, Reclaim).table[x];
            if Expired(s.table[x], lease, s.now) then Due(row, s.now) && x !in Locked(s)
            else row == s.table[x]
  {
    if x in Locked(s) {
      var c :| c in s.open && x in s.open[c].picked;
      LockedRow(s, c, x);
    }
    assert RowOk(s.table[x], s.now);
  }

  /** A retry delay is respected: as long as the clock has not reached next_attempt_at, no
      claim takes the item and its row does not change. */
  lemma {:induction false} BackoffIsRespected(lease: int, s: State, steps: seq<Step>, x: string)
    requires RowsInv(s) && CanRun(lease, s, steps) && x in s.table && s.table[x].status.Pending?
    requires Run(lease, s, steps).now < s.table[x].nextAttemptAt
    requires forall k :: 0 <= k < |steps| ==> !TakesOut(steps[k], x)
    ensures x in Run(lease, s, steps).table && Run(lease, s, steps).table[x] == s.table[x]
    ensures TimesClaimed(lease, s, steps, x) == 0
    decreases |steps|
  {
    if steps != [] {
      var s' := Apply(lease, s, steps[0]);
      ClockAdvances(lease, s, steps);
      NotLockedEarly(s, x);
      StepRows(lease, s, steps[0]);
      BackoffIsRespected(lease, s', steps[1..], x);
    }
  }

  lemma NotLockedEarly(s: State, x: string)
    requires RowsInv(s) && x in s.table && s.now < s.table[x].nextAttemptAt
    ensures forall c :: c in s.open ==> x !in s.open[c].picked
  {
    forall c | c in s.open
      ensures x !in s.open[c].picked
    {
      assert ClaimOk(s, c);
    }
  }

  lemma {:induction false} ClockAdvances(lease: int, s: State, steps: seq<Step>)
    requires CanRun(lease, s, steps)
    ensures s.now <= Run(lease, s, steps).now
    decreases |steps|
  {
    if steps != [] {
      ClockAdvances(lease, Apply(lease, s, steps[0]), steps[1..]);
    }
  }

  // ---------------------------------------------------------------------
  // Batch fencing
  // ---------------------------------------------------------------------

  /** The steps that may take a batched row out: only settling or failing it. */
  predicate TakesOut(step: Step, x: string) {
    || Settles(step, x)
    || (step.FailHeld? && step.hold.itemId == x)
    || (step.CollectFailed? && step.itemId == x)
  }

  predicate Parked(row: ItemRow) {
    row.status.Batched? || row.status.Failed?
  }

  lemma StepKeepsParked(lease: int, s: State, step: Step, x: string)
    requires RowsInv(s) && Enabled(s, step) && x in s.table && Parked(s.table[x]) && !TakesOut(step, x)
    ensures x in Apply(lease, s, step).table && Apply(lease, s, step).table[x] == s.table[x]
    ensures !(step.CommitClaim? && x in s.open[step.claimId].picked)
  {
    if step.CommitClaim? && x in s.open[step.claimId].picked {
      LockedRow(s, step.claimId, x);
    }
  }

  /** A row in a batch or given up on is neither changed nor claimed until its item is settled
      or failed. */
  lemma {:induction false} ParkedIsFenced(lease: int, s: State, steps: seq<Step>, x: string)
    requires RowsInv(s) && CanRun(lease, s, steps) && x in s.table && Parked(s.table[x])
    requires forall k :: 0 <= k < |steps| ==> !TakesOut(steps[k], x)
    ensures x in Run(lease, s, steps).table && Run(lease, s, steps).table[x] == s.table[x]
    ensures TimesClaimed(lease, s, steps, x) == 0
    decreases |steps|
  {
    if steps != [] {
      StepKeepsParked(lease, s, steps[0], x);
      StepRows(lease, s, steps[0]);
      ParkedIsFenced(lease, Apply(lease, s, steps[0]), steps[1..], x);
    }
  }

  /** A row handed to the Batch API stays as it is, batch id included, through any run of
      enqueues, claims, reclaims and further hand-overs of a new queue: it is never also claimed. */
  lemma BatchedIsFenced(lease: int, s0: State, before: seq<Step>, steps: seq<Step>, x: string)
    requires Fresh(s0) && CanRun(lease, s0, before)
    requires var s := Run(lease, s0, before);
             CanRun(lease, s, steps) && x in s.table && s.table[x].status.Batched?
    requires forall k :: 0 <= k < |steps| ==> !TakesOut(steps[k], x)
    ensures var s := Run(lease, s0, before);
            && x in Run(lease, s, steps).table && Run(lease, s, steps).table[x] == s.table[x]
            && TimesClaimed(lease, s, steps, x) == 0
  {
    assert RowsInv(s0) by {
      FreshRows(s0);
    }
    RunRows(lease, s0, before);
    ParkedIsFenced(lease, Run(lease, s0, before), steps, x);
  }

  /** A row becomes batched only while it is processing under the worker that hands it over. */
  lemma OnlyTheClaimantBatches(lease: int, s: State, step: Step, x: string)
    requires RowsInv(s) && Enabled(s, step) && x in s.table && !s.table[x].status.Batched?
    requires x in Apply(lease, s, step).table && Apply(lease, s, step).table[x].status.Batched?
    ensures step.HandToBatch? && step.hold.itemId == x
    ensures s.table[x].status.Processing? && s.table[x].workerId == Some(step.hold.workerId)
    ensures Apply(lease, s, step).table[x].batchId == Some(step.batch)
  {
  }

  // ---------------------------------------------------------------------
  // Lease exclusivity
  // ---------------------------------------------------------------------

  predicate Live(lease: int, s: State, h: Hold) {
    h in s.held && s.now <= h.claimedAt + lease
  }

  /** The table agrees with a live worker about what it holds. */
  predicate Backed(s: State, h: Hold) {
    && h.itemId in s.table
    && s.table[h.itemId].status.Processing?
    && s.table[h.itemId].claimedAt == Some(h.claimedAt)
    && s.table[h.itemId].workerId == Some(h.workerId)
  }

  predicate Exclusive(lease: int, s: State) {
    && (forall h :: h in s.held && Live(lease, s, h) ==> Backed(s, h))
    && (forall g, h :: g in s.held && h in s.held && Live(lease, s, g) && Live(lease, s, h) && g.itemId == h.itemId
          ==> g == h)
  }

  /** The step changes or removes the row of g's item, and is not g's own. */
  predicate Hits(step: Step, g: Hold) {
    match step
    case Succeed(h) => g != h && g.itemId == h.itemId
    case FailHeld(h, _, _) => g != h && g.itemId == h.itemId
    case HandToBatch(h, _) => g != h && g.itemId == h.itemId && g.workerId == h.workerId
    case CollectDone(x) => g.itemId == x
    case CollectFailed(x, _) => g.itemId == x
    case _ => false
  }

  predicate Endangers(lease: int, s: State, step: Step) {
    exists g :: g in s.held && Live(lease, s, g) && Hits(step, g)
  }

  lemma CommitExclusive(lease: int, s: State, c: nat)
    requires RowsInv(s) && Exclusive(lease, s) && c in s.open
    ensures Exclusive(lease, Apply(lease, s, CommitClaim(c)))
  {
    var s' := Apply(lease, s, CommitClaim(c));
    forall h | Live(lease, s', h)
      ensures Backed(s', h)
      ensures h in s.held ==> h.itemId !in s.open[c].picked
    {
      if h in s.held {
        assert Live(lease, s, h);
        assert Backed(s, h);
        if h.itemId in s.open[c].picked {
          LockedRow(s, c, h.itemId);
        }
      } else {
        LockedRow(s, c, h.itemId);
      }
    }
    forall g, h | Live(lease, s', g) && Live(lease, s', h) && g.itemId == h.itemId
      ensures g == h
    {
      if g in s.held && h in s.held {
        assert Live(lease, s, g) && Live(lease, s, h);
      }
    }
  }

  lemma SafeStepExclusive(lease: int, s: State, step: Step)
    requires RowsInv(s) && Exclusive(lease, s) && Enabled(s, step) && !Endangers(lease, s, step)
    ensures Exclusive(lease, Apply(lease, s, step))
  {
    if step.CommitClaim? {
      CommitExclusive(lease, s, step.claimId);
    } else {
      var s' := Apply(lease, s, step);
      forall g | Live(lease, s', g)
        ensures Live(lease, s, g) && Backed(s', g)
      {
        assert Live(lease, s, g) && Backed(s, g) && !Hits(step, g);
      }
    }
  }

  lemma HitStepNotExclusive(lease: int, s: State, step: Step, g: Hold)
    requires RowsInv(s) && Exclusive(lease, s) && Enabled(s, step) && Live(lease, s, g) && Hits(step, g)
    ensures Live(lease, Apply(lease, s, step), g) && !Backed(Apply(lease, s, step), g)
  {
    assert Backed(s, g);
  }

  /** A step keeps every live worker in sole possession of what it claimed exactly when it does
      not touch the row of another live worker's item. */
  lemma ExclusiveStepExactly(lease: int, s: State, step: Step)
    requires RowsInv(s) && Exclusive(lease, s) && Enabled(s, step)
    ensures Exclusive(lease, Apply(lease, s, step)) <==> !Endangers(lease, s, step)
  {
    if Endangers(lease, s, step) {
      var g :| g in s.held && Live(lease, s, g) && Hits(step, g);
      HitStepNotExclusive(lease, s, step, g);
    } else {
      SafeStepExclusive(lease, s, step);
    }
  }

  /** Workers act on an item only while their lease on it runs, and batch results are recorded
      only for rows that are in a batch. */
  predicate Disciplined(lease: int, s: State, step: Step) {
    && (step.Succeed? ==> Live(lease, s, step.hold))
    && (step.FailHeld? ==> Live(lease, s, step.hold))
    && (step.HandToBatch? ==> Live(lease, s, step.hold))
    && (step.CollectDone? ==> step.itemId in s.table && s.table[step.itemId].status.Batched?)
    && (step.CollectFailed? ==> step.itemId in s.table && s.table[step.itemId].status.Batched?)
  }

  predicate DisciplinedRun(lease: int, s: State, steps: seq<Step>)
    requires CanRun(lease, s, steps)
    decreases |steps|
  {
    steps == [] || (Disciplined(lease, s, steps[0]) && DisciplinedRun(lease, Apply(lease, s, steps[0]), steps[1..]))
  }

  lemma DisciplinedIsSafe(lease: int, s: State, step: Step)
    requires Exclusive(lease, s) && Disciplined(lease, s, step)
    ensures !Endangers(lease, s, step)
  {
    forall g | g in s.held && Live(lease, s, g)
      ensures !Hits(step, g)
    {
      assert Backed(s, g);
    }
  }

  lemma StepExclusive(lease: int, s: State, step: Step)
    requires RowsInv(s) && Exclusive(lease, s) && Enabled(s, step) && Disciplined(lease, s, step)
    ensures Exclusive(lease, Apply(lease, s, step))
  {
    DisciplinedIsSafe(lease, s, step);
    SafeStepExclusive(lease, s, step);
  }

  lemma {:induction false} RunExclusive(lease: int, s: State, steps: seq<Step>)
    requires RowsInv(s) && Exclusive(lease, s) && CanRun(lease, s, steps) && DisciplinedRun(lease, s, steps)
    ensures Exclusive(lease, Run(lease, s, steps))
    decreases |steps|
  {
    if steps != [] {
      StepExclusive(lease, s, steps[0]);
      StepRows(lease, s, steps[0]);
      RunExclusive(lease, Apply(lease, s, steps[0]), steps[1..]);
    }
  }

  lemma FreshExclusive(lease: int, s: State)
    requires Fresh(s)
    ensures RowsInv(s) && Exclusive(lease, s)
  {
  }

  /** In every run of a new queue in which workers respect their leases, no item is in the hands
      of two live workers, whatever claims, crashes, reclaims and failures interleave. */
  lemma LeasesAreExclusive(lease: int, s0: State, steps: seq<Step>)
    requires Fresh(s0) && CanRun(lease, s0, steps) && DisciplinedRun(lease, s0, steps)
    ensures Exclusive(lease, Run(lease, s0, steps))
    ensures forall x :: !HeldTwice(lease, Run(lease, s0, steps), x)
  {
    assert RowsInv(s0) && Exclusive(lease, s0) by {
      FreshExclusive(lease, s0);
    }
    RunExclusive(lease, s0, steps);
  }

  predicate HeldTwice(lease: int, s: State, x: string) {
    exists g, h ::
      g in s.held && h in s.held && Live(lease, s, g) && Live(lease, s, h) && g != h && g.itemId == h.itemId == x
  }
}
