/** The LLM queue never strands an item: what is pending or in flight can be claimed again. */
module LlmQueueProgress {
  import opened Common
  import opened LlmQueue
  import opened LlmQueueRuns
  import opened LlmQueueFencing

  /** A continuation that respects the leases, neither settles nor fails item x, and claims it. */
  predicate Claims(lease: int, s: State, more: seq<Step>, x: string) {
    && CanRun(lease, s, more) && DisciplinedRun(lease, s, more)
    && (forall k :: 0 <= k < |more| ==> !TakesOut(more[k], x))
    && TimesClaimed(lease, s, more, x) >= 1
  }

  lemma First(lease: int, s: State, step: Step, more: seq<Step>, x: string)
    requires Enabled(s, step) && Disciplined(lease, s, step) && !TakesOut(step, x)
    requires Claims(lease, Apply(lease, s, step), more, x)
    ensures Claims(lease, s, [step] + more, x)
  {
    var steps := [step] + more;
    assert steps[0] == step && steps[1..] == more;
  }

  lemma CommitClaims(lease: int, s: State, c: nat, x: string)
    requires c in s.open && x in s.open[c].picked
    ensures Claims(lease, s, [CommitClaim(c)], x)
  {
    var steps := [CommitClaim(c)];
    assert steps[1..] == [];
    assert CanRun(lease, Apply(lease, s, steps[0]), []);
  }

  lemma DueClaims(lease: int, s: State, x: string) returns (more: seq<Step>)
    requires x in s.table && Due(s.table[x], s.now) && x !in Locked(s)
    ensures Claims(lease, s, more, x)
  {
    var due := set y | y in s.table && y !in Locked(s) && Due(s.table[y], s.now);
    var picked := SortByTime(s.table, due);
    assert x in picked;
    var begin := BeginClaim("worker", |picked|, picked);
    CommitClaims(lease, Apply(lease, s, begin), s.nextClaim, x);
    First(lease, s, begin, [CommitClaim(s.nextClaim)], x);
    more := [begin] + [CommitClaim(s.nextClaim)];
  }

  lemma PendingClaims(lease: int, s: State, x: string) returns (more: seq<Step>)
    requires x in s.table && s.table[x].status.Pending? && x !in Locked(s)
    ensures Claims(lease, s, more, x)
  {
    var tick := Tick(Max(s.table[x].nextAttemptAt - s.now, 0));
    var rest := DueClaims(lease, Apply(lease, s, tick), x);
    First(lease, s, tick, rest, x);
    more := [tick] + rest;
  }

  lemma ProcessingClaims(lease: int, s: State, x: string) returns (more: seq<Step>)
    requires RowsInv(s) && x in s.table && s.table[x].status.Processing?
    ensures Claims(lease, s, more, x)
  {
    assert RowOk(s.table[x], s.now);
    var tick := Tick(Max(s.table[x].claimedAt.value + lease + 1 - s.now, 0));
    var a := Apply(lease, s, tick);
    StepRows(lease, s, tick);
    ReclaimedIsClaimable(lease, a, x);
    var rest := DueClaims(lease, Apply(lease, a, Reclaim), x);
    First(lease, a, Reclaim, rest, x);
    First(lease, s, tick, [Reclaim] + rest, x);
    more := [tick] + ([Reclaim] + rest);
  }

  lemma UnparkedClaims(lease: int, s: State, x: string) returns (more: seq<Step>)
    requires RowsInv(s) && x in s.table && (s.table[x].status.Pending? || s.table[x].status.Processing?)
    ensures Claims(lease, s, more, x)
  {
    if x in Locked(s) {
      var c :| c in s.open && x in s.open[c].picked;
      CommitClaims(lease, s, c, x);
      more := [CommitClaim(c)];
    } else if s.table[x].status.Pending? {
      more := PendingClaims(lease, s, x);
    } else {
      more := ProcessingClaims(lease, s, x);
    }
  }

  /** In every state a new queue can reach: an item can come to be claimed, by steps that
      respect the leases and neither settle nor fail it, exactly when it is pending or in
      flight; a crashed worker's items are not lost, batched and failed ones are not retried. */
  lemma ClaimableExactly(lease: int, s0: State, steps: seq<Step>, x: string)
    requires Fresh(s0) && CanRun(lease, s0, steps) && x in Run(lease, s0, steps).table
    ensures var s := Run(lease, s0, steps);
            (exists more :: Claims(lease, s, more, x)) <==> s.table[x].status.Pending? || s.table[x].status.Processing?
  {
    var s := Run(lease, s0, steps);
    assert RowsInv(s0) by {
      FreshRows(s0);
    }
    RunRows(lease, s0, steps);
    assert RowOk(s.table[x], s.now);
    if Parked(s.table[x]) {
      forall more | CanRun(lease, s, more) && forall k :: 0 <= k < |more| ==> !TakesOut(more[k], x)
        ensures !Claims(lease, s, more, x)
      {
        ParkedIsFenced(lease, s, more, x);
      }
    } else {
      var more := UnparkedClaims(lease, s, x);
      assert Claims(lease, s, more, x);
    }
  }
}
