/** What the LLM queue's unfenced statements can do to a worker that still holds its lease. */
module LlmQueueFencing {
  import opened Common
  import opened LlmQueue
  import opened LlmQueueRuns

  lemma {:induction false} SortByTime(table: Table, candidates: set<string>) returns (picked: seq<string>)
    requires candidates <= table.Keys
    ensures forall x :: x in picked <==> x in candidates
    ensures forall i, j :: 0 <= i < j < |picked| ==> picked[i] != picked[j]
    ensures forall i, j :: 0 <= i < j < |picked| ==> table[picked[i]].nextAttemptAt <= table[picked[j]].nextAttemptAt
    decreases candidates
  {
    if candidates == {} {
      picked := [];
    } else {
      EarliestExists(table, candidates);
      var x :| Earliest(table, candidates, x);
      var rest := SortByTime(table, candidates - {x});
      picked := [x] + rest;
      assert forall i :: 0 <= i < |rest| ==> rest[i] in rest;
    }
  }

  lemma RunTwo(lease: int, s: State, p: Step, mid: State, q: Step, end: State)
    requires Enabled(s, p) && mid == Apply(lease, s, p) && Enabled(mid, q) && end == Apply(lease, mid, q)
    ensures CanRun(lease, s, [p, q]) && Run(lease, s, [p, q]) == end
  {
    var steps := [p, q];
    assert steps[1..] == [q] && steps[1..][1..] == [];
    assert CanRun(lease, end, []) && Run(lease, end, []) == end;
    assert CanRun(lease, mid, [q]) && Run(lease, mid, [q]) == end;
  }

  /** more is a disciplined continuation after which two live workers hold item x. */
  predicate EndsHeldTwice(lease: int, s: State, more: seq<Step>, x: string) {
    CanRun(lease, s, more) && DisciplinedRun(lease, s, more) && HeldTwice(lease, Run(lease, s, more), x)
  }

  lemma Before(lease: int, s: State, step: Step, more: seq<Step>, x: string)
    requires Enabled(s, step) && Disciplined(lease, s, step) && EndsHeldTwice(lease, Apply(lease, s, step), more, x)
    ensures EndsHeldTwice(lease, s, [step] + more, x)
  {
    var steps := [step] + more;
    assert steps[0] == step && steps[1..] == more;
  }

  /** A due row that some live worker believes in is one claim away from being held twice. */
  lemma ClaimAgain(lease: int, s: State, g: Hold, w: string) returns (more: seq<Step>)
    requires RowsInv(s) && Live(lease, s, g) && lease >= 0
    requires g.itemId in s.table && Due(s.table[g.itemId], s.now) && g.itemId !in Locked(s)
    ensures EndsHeldTwice(lease, s, more, g.itemId)
  {
    var x := g.itemId;
    var due := set y | y in s.table && y !in Locked(s) && Due(s.table[y], s.now);
    var picked := SortByTime(s.table, due);
    assert x in picked;
    var begin, commit := BeginClaim(w, |picked|, picked), CommitClaim(s.nextClaim);
    var mid := Apply(lease, s, begin);
    var end := Apply(lease, mid, commit);
    var k := Hold(s.nextClaim, x, w, s.now);
    assert k in NewHolds(s.nextClaim, mid.open[s.nextClaim]);
    assert Live(lease, end, k) && Live(lease, end, g) && k != g;
    assert HeldTwice(lease, end, x);
    assert EndsHeldTwice(lease, end, [], x) by {
      assert CanRun(lease, end, []) && Run(lease, end, []) == end;
    }
    Before(lease, mid, commit, [], x);
    Before(lease, s, begin, [commit] + [], x);
    more := [begin] + ([commit] + []);
  }

  /** A removed row comes back when its item is enqueued again. */
  lemma EnqueueAgain(lease: int, s: State, g: Hold) returns (more: seq<Step>)
    requires RowsInv(s) && Live(lease, s, g) && lease >= 0 && g.itemId !in s.table
    ensures EndsHeldTwice(lease, s, more, g.itemId)
  {
    var enqueue := Enqueue(g.itemId, "job", Parsed("{}"));
    if g.itemId in Locked(s) {
      var c :| c in s.open && g.itemId in s.open[c].picked;
      LockedRow(s, c, g.itemId);
    }
    var s' := Apply(lease, s, enqueue);
    StepRows(lease, s, enqueue);
    var rest := ClaimAgain(lease, s', g, "worker");
    Before(lease, s, enqueue, rest, g.itemId);
    more := [enqueue] + rest;
  }

  // ---------------------------------------------------------------------
  // Exactly which steps lead to two live holders
  // ---------------------------------------------------------------------

  /** What decides whether touching g's row lets someone else claim the item in time: a row
      that is removed, or in a batch whose result removes it, can be enqueued anew; a row made
      pending can be claimed when its delay ends within g's lease; a parked row never. */
  predicate Reopens(lease: int, s: State, step: Step, g: Hold) {
    match step
    case Succeed(_) => true
    case CollectDone(_) => true
    case HandToBatch(_, _) => true
    case FailHeld(_, _, Some(delay)) => s.now + delay <= g.claimedAt + lease
    case _ => false
  }

  lemma LeaseIsNat(lease: int, s: State, g: Hold)
    requires RowsInv(s) && Exclusive(lease, s) && Live(lease, s, g)
    ensures lease >= 0
  {
    assert Backed(s, g) && RowOk(s.table[g.itemId], s.now);
  }

  lemma ReopenedIsHeldTwice(lease: int, s: State, step: Step, g: Hold) returns (more: seq<Step>)
    requires RowsInv(s) && Exclusive(lease, s) && Enabled(s, step) && Live(lease, s, g) && Hits(step, g)
    requires Reopens(lease, s, step, g)
    ensures EndsHeldTwice(lease, Apply(lease, s, step), more, g.itemId)
  {
    LeaseIsNat(lease, s, g);
    StepRows(lease, s, step);
    var s1 := Apply(lease, s, step);
    match step
    case FailHeld(_, _, Some(delay)) =>
      var tick := Tick(Max(delay, 0));
      StepRows(lease, s1, tick);
      var rest := ClaimAgain(lease, Apply(lease, s1, tick), g, "worker");
      Before(lease, s1, tick, rest, g.itemId);
      more := [tick] + rest;
    case HandToBatch(_, _) =>
      assert Backed(s, g);
      NotLockedWhileHeld(lease, s, g);
      var collect := CollectDone(g.itemId);
      StepRows(lease, s1, collect);
      var rest := EnqueueAgain(lease, Apply(lease, s1, collect), g);
      Before(lease, s1, collect, rest, g.itemId);
      more := [collect] + rest;
    case _ =>
      more := EnqueueAgain(lease, s1, g);
  }

  lemma NotLockedWhileHeld(lease: int, s: State, g: Hold)
    requires RowsInv(s) && Exclusive(lease, s) && Live(lease, s, g)
    ensures g.itemId !in Locked(s)
  {
    assert Backed(s, g);
    if g.itemId in Locked(s) {
      var c :| c in s.open && g.itemId in s.open[c].picked;
      LockedRow(s, c, g.itemId);
    }
  }

  /** The state without worker g's belief. */
  function Without(s: State, g: Hold): State {
    s.(held := s.held - {g})
  }

  /** Nobody can claim the row before the time. */
  predicate ShutUntil(row: ItemRow, until: int) {
    row.status.Failed? || (row.status.Pending? && row.nextAttemptAt > until)
  }

  /** As long as g's lease runs nobody can get g's item, and all other workers are exclusive. */
  predicate Shut(lease: int, s: State, g: Hold) {
    && RowsInv(s) && Exclusive(lease, Without(s, g))
    && g.claimId < s.nextClaim && g.claimId !in s.open
    && (Live(lease, s, g) ==> g.itemId in s.table && ShutUntil(s.table[g.itemId], g.claimedAt + lease))
  }

  lemma ShutIsNotHeldTwice(lease: int, s: State, g: Hold)
    requires Shut(lease, s, g)
    ensures !HeldTwice(lease, s, g.itemId)
  {
    forall h, k | Live(lease, s, h) && Live(lease, s, k) && h.itemId == k.itemId == g.itemId
      ensures h == k
    {
      var t := Without(s, g);
      assert h != g ==> Live(lease, t, h) && Backed(t, h);
      assert k != g ==> Live(lease, t, k) && Backed(t, k);
    }
  }

  /** A step of another worker, seen without g. */
  lemma OthersStayExclusive(lease: int, s: State, step: Step, g: Hold)
    requires Shut(lease, s, g) && Enabled(s, step) && Disciplined(lease, s, step)
    requires (step.Succeed? || step.FailHeld? || step.HandToBatch? || step.WorkerDies?) ==> step.hold != g
    ensures Exclusive(lease, Without(Apply(lease, s, step), g))
  {
    var t := Without(s, g);
    StepExclusive(lease, t, step);
    if step.CommitClaim? {
      assert forall h :: h in NewHolds(step.claimId, s.open[step.claimId]) ==> h != g;
    }
    assert Apply(lease, t, step).held == Without(Apply(lease, s, step), g).held;
  }

  /** A step of g itself ends its belief and touches no row but its item's. */
  lemma OwnStepExclusive(lease: int, s: State, step: Step, g: Hold)
    requires Shut(lease, s, g) && Enabled(s, step) && Disciplined(lease, s, step)
    requires (step.Succeed? || step.FailHeld? || step.HandToBatch? || step.WorkerDies?) && step.hold == g
    ensures Exclusive(lease, Without(Apply(lease, s, step), g))
  {
    var t, t' := Without(s, g), Without(Apply(lease, s, step), g);
    forall h | Live(lease, t', h)
      ensures Live(lease, t, h) && Backed(t', h)
    {
      assert Live(lease, t, h) && Backed(t, h);
    }
  }

  lemma RowStaysShut(lease: int, s: State, step: Step, g: Hold)
    requires Shut(lease, s, g) && Enabled(s, step) && Disciplined(lease, s, step)
    requires Live(lease, Apply(lease, s, step), g)
    ensures var s' := Apply(lease, s, step);
            g.itemId in s'.table && ShutUntil(s'.table[g.itemId], g.claimedAt + lease)
  {
    assert g in s.held && Live(lease, s, g);
    var t := Without(s, g);
    match step
    case Succeed(h) => assert Live(lease, t, h) && Backed(t, h);
    case FailHeld(h, _, _) => assert Live(lease, t, h) && Backed(t, h);
    case CommitClaim(c) => assert ClaimOk(s, c);
    case _ =>
  }

  lemma StepShut(lease: int, s: State, step: Step, g: Hold)
    requires Shut(lease, s, g) && Enabled(s, step) && Disciplined(lease, s, step)
    ensures Shut(lease, Apply(lease, s, step), g)
  {
    StepRows(lease, s, step);
    if (step.Succeed? || step.FailHeld? || step.HandToBatch? || step.WorkerDies?) && step.hold == g {
      OwnStepExclusive(lease, s, step, g);
    } else {
      OthersStayExclusive(lease, s, step, g);
    }
    if Live(lease, Apply(lease, s, step), g) {
      RowStaysShut(lease, s, step, g);
    }
  }

  lemma {:induction false} RunShut(lease: int, s: State, steps: seq<Step>, g: Hold)
    requires Shut(lease, s, g) && CanRun(lease, s, steps) && DisciplinedRun(lease, s, steps)
    ensures Shut(lease, Run(lease, s, steps), g)
    decreases |steps|
  {
    if steps != [] {
      StepShut(lease, s, steps[0], g);
      RunShut(lease, Apply(lease, s, steps[0]), steps[1..], g);
    }
  }

  lemma HitStepShuts(lease: int, s: State, step: Step, g: Hold)
    requires RowsInv(s) && Exclusive(lease, s) && Enabled(s, step) && Live(lease, s, g) && Hits(step, g)
    requires !Reopens(lease, s, step, g)
    ensures Shut(lease, Apply(lease, s, step), g)
  {
    assert Backed(s, g);
    StepRows(lease, s, step);
    var t' := Without(Apply(lease, s, step), g);
    forall h | Live(lease, t', h)
      ensures Live(lease, s, h) && Backed(t', h)
    {
      assert Live(lease, s, h) && Backed(s, h) && h.itemId != g.itemId;
    }
  }

  /** When a step touches the row of a live worker g's item, two live workers can come to hold
      the item, by steps that all respect the leases, exactly when the step reopens the row. */
  lemma HeldTwiceExactly(lease: int, s: State, step: Step, g: Hold)
    requires RowsInv(s) && Exclusive(lease, s) && Enabled(s, step) && Live(lease, s, g) && Hits(step, g)
    ensures (exists more :: EndsHeldTwice(lease, Apply(lease, s, step), more, g.itemId)) <==> Reopens(lease, s, step, g)
  {
    var s' := Apply(lease, s, step);
    if Reopens(lease, s, step, g) {
      var more := ReopenedIsHeldTwice(lease, s, step, g);
      assert EndsHeldTwice(lease, s', more, g.itemId);
    } else {
      HitStepShuts(lease, s, step, g);
      forall more | CanRun(lease, s', more) && DisciplinedRun(lease, s', more)
        ensures !EndsHeldTwice(lease, s', more, g.itemId)
      {
        RunShut(lease, s', more, g);
        ShutIsNotHeldTwice(lease, Run(lease, s', more), g);
      }
    }
  }

  // ---------------------------------------------------------------------
  // A run in which it happens
  // ---------------------------------------------------------------------

  /** The discipline is needed: whenever an item has a live holder and some other worker still
      believes in an earlier claim of it, that worker's failure report, which the statement
      does not fence, lets a third claim take the item while the live holder works on it. */
  lemma StaleFailureBreaksExclusivity(lease: nat, s: State, stale: Hold, live: Hold, w: string)
    returns (steps: seq<Step>)
    requires RowsInv(s) && stale in s.held && Live(lease, s, live)
    requires stale != live && stale.itemId == live.itemId && live.itemId in s.table
    requires live.itemId !in Locked(s)
    ensures CanRun(lease, s, steps) && HeldTwice(lease, Run(lease, s, steps), live.itemId)
  {
    var fail := FailHeld(stale, "late", Some(0));
    StepRows(lease, s, fail);
    var more := ClaimAgain(lease, Apply(lease, s, fail), live, w);
    steps := [fail] + more;
    assert steps[0] == fail && steps[1..] == more;
  }

  lemma {:induction false} RunAppend(lease: int, s: State, a: seq<Step>, mid: State, b: seq<Step>)
    requires CanRun(lease, s, a) && Run(lease, s, a) == mid && CanRun(lease, mid, b)
    ensures CanRun(lease, s, a + b) && Run(lease, s, a + b) == Run(lease, mid, b)
    decreases |a|
  {
    if a == [] {
      assert a + b == b;
    } else {
      RunAppend(lease, Apply(lease, s, a[0]), a[1..], mid, b);
      assert (a + b)[0] == a[0] && (a + b)[1..] == a[1..] + b;
    }
  }

  /** A queue of one due row, claimed whole. */
  lemma ClaimOnlyRow(lease: int, s: State, x: string, row: ItemRow, w: string) returns (steps: seq<Step>, end: State)
    requires s.table == map[x := row] && Due(row, s.now) && s.open == map[]
    ensures CanRun(lease, s, steps) && Run(lease, s, steps) == end
    ensures end == s.(table := map[x := Claimed(row, s.now, w)], nextClaim := s.nextClaim + 1,
                      held := s.held + {Hold(s.nextClaim, x, w, s.now)})
  {
    var begin, commit := BeginClaim(w, 1, [x]), CommitClaim(s.nextClaim);
    var mid := Apply(lease, s, begin);
    end := Apply(lease, mid, commit);
    assert NewHolds(s.nextClaim, mid.open[s.nextClaim]) == {Hold(s.nextClaim, x, w, s.now)};
    steps := [begin, commit];
    RunTwo(lease, s, begin, mid, commit, end);
  }

  /** And the situation arises: a worker slower than its lease, a reclaim and a second claim. */
  lemma StaleHolderReached(lease: nat, s: State, x: string, job: string, payload: Payload)
    returns (steps: seq<Step>, end: State, stale: Hold, live: Hold)
    requires Fresh(s)
    ensures CanRun(lease, s, steps) && Run(lease, s, steps) == end
    ensures RowsInv(end) && stale in end.held && Live(lease, end, live)
    ensures stale != live && stale.itemId == live.itemId && live.itemId in end.table && live.itemId !in Locked(end)
  {
    var row := NewRow(job, payload, s.now);
    var enqueue := Enqueue(x, job, payload);
    var s1 := s.(table := map[x := row]);
    assert CanRun(lease, s1, []) && Run(lease, s1, []) == s1;
    assert [enqueue][1..] == [];
    var first, s2 := ClaimOnlyRow(lease, s1, x, row, "a");
    RunAppend(lease, s, [enqueue], s1, first);
    var s3 := Apply(lease, s2, Tick(lease + 1));
    var s4 := Apply(lease, s3, Reclaim);
    RunTwo(lease, s2, Tick(lease + 1), s3, Reclaim, s4);
    RunAppend(lease, s, [enqueue] + first, s2, [Tick(lease + 1), Reclaim]);
    var back := Reclaimed(Claimed(row, s.now, "a"));
    assert s4.table == map[x := back];
    var second;
    second, end := ClaimOnlyRow(lease, s4, x, back, "b");
    RunAppend(lease, s, [enqueue] + first + [Tick(lease + 1), Reclaim], s4, second);
    steps := [enqueue] + first + [Tick(lease + 1), Reclaim] + second;
    stale, live := Hold(0, x, "a", s.now), Hold(1, x, "b", s4.now);
    FreshRows(s);
    RunRows(lease, s, steps);
  }

  /** Handing over to a batch is fenced, but by worker id and not by claim: an expired claim's
      hand-over moves the row of the live claim exactly when both are the same worker's. */
  lemma HandOverFence(lease: int, s: State, stale: Hold, live: Hold, batch: string)
    requires Exclusive(lease, s) && stale in s.held && Live(lease, s, live) && stale.itemId == live.itemId
    ensures var row := Apply(lease, s, HandToBatch(stale, batch)).table[live.itemId];
            (row.status.Batched? <==> stale.workerId == live.workerId)
            && (stale.workerId != live.workerId ==> row == s.table[live.itemId])
  {
    assert Backed(s, live);
  }
}
