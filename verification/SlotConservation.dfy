/** Slot conservation and the exact outcome of a job, over every reachable state. */
module SlotConservation {
  import opened Common
  import opened JobRow
  import opened Messages
  import opened CrawlProtocol

  lemma {:induction false} SlotSumUpdate(tasks: seq<Task>, i: nat, t: Task)
    requires i < |tasks|
    ensures SlotSum(tasks[i := t]) == SlotSum(tasks) - Slots(tasks[i]) + Slots(t)
  {
    if i == 0 {
      assert tasks[i := t][1..] == tasks[1..];
    } else {
      assert tasks[i := t][1..] == tasks[1..][i - 1 := t];
      SlotSumUpdate(tasks[1..], i - 1, t);
    }
  }

  lemma {:induction false} SlotSumAppend(tasks: seq<Task>, t: Task)
    ensures SlotSum(tasks + [t]) == SlotSum(tasks) + Slots(t)
  {
    if tasks == [] {
      assert tasks + [t] == [t];
    } else {
      assert (tasks + [t])[0] == tasks[0] && (tasks + [t])[1..] == tasks[1..] + [t];
      SlotSumAppend(tasks[1..], t);
    }
  }

  lemma {:induction false} SlotSumAtLeast(tasks: seq<Task>, i: nat)
    requires i < |tasks|
    ensures SlotSum(tasks) >= Slots(tasks[i])
  {
    if i > 0 {
      SlotSumAtLeast(tasks[1..], i - 1);
    }
  }

  lemma {:induction false} SlotSumZero(tasks: seq<Task>)
    ensures SlotSum(tasks) == 0 <==> forall i :: 0 <= i < |tasks| ==> Finished(tasks[i])
  {
    if tasks != [] {
      SlotSumZero(tasks[1..]);
      assert forall i :: 0 < i < |tasks| ==> tasks[i] == tasks[1..][i - 1];
      if SlotSum(tasks) == 0 {
        assert Finished(tasks[0]);
      }
      if forall i :: 0 <= i < |tasks| ==> Finished(tasks[i]) {
        assert forall i :: 0 <= i < |tasks[1..]| ==> tasks[1..][i] == tasks[i + 1];
      }
    }
  }

  /** The counter is the number of slots somebody still has to give back. */
  predicate Conserved(s: State) {
    s.row.activeTasks == s.apiSlots + SlotSum(s.tasks) + s.leaked
  }

  predicate TaskFits(t: Task) {
    && (t.phase.Published? <==> Owner(t.msg) !in t.seenBy)
    && Owner(t.msg) in Groups(t.msg)
    && (t.phase.Reserving? && t.phase.stage != Idle ==>
          t.phase.activity == FanOut && t.phase.reserved >= 1 && t.msg.Page?)
    && (t.phase.Failing? ==> t.msg.Page?)
  }

  predicate ShapeOk(s: State) {
    && s.apiSlots <= 1
    && (s.apiSlots == 1 ==> s.tasks == [])
    && (s.row.resumeStatus.Some? ==> s.row.resumeStatus.value.Active())
    && (forall i :: 0 <= i < |s.tasks| ==> TaskFits(s.tasks[i]))
    && (s.leaked == 0 ==> forall i :: 0 <= i < |s.tasks| ==> !s.tasks[i].phase.Abandoned?)
  }

  /** A handler in its failure path has already marked the job failed. */
  predicate FailuresRecorded(s: State) {
    forall i :: 0 <= i < |s.tasks| && s.tasks[i].phase.Failing? ==> s.row.status.Failed?
  }

  /** The settlement that empties the counter turns an active job with a stored page green. */
  predicate TurnsGreen(drained: Option<Row>) {
    drained.Some? && drained.value.status.Active() && drained.value.pageStored
  }

  predicate OutcomeOk(s: State) {
    && (s.drained.Some? <==> s.tasks != [] && s.row.activeTasks == 0)
    && (s.row.status.Completed? <==> TurnsGreen(s.drained))
    && (s.drained.Some? && s.drained.value.status.Active() ==> s.row.status.Completed? || s.row.status.Failed?)
    && (s.row.status.Completed? ==> s.row.pageStored)
  }

  predicate Inv(s: State) {
    Conserved(s) && ShapeOk(s) && FailuresRecorded(s) && OutcomeOk(s)
  }

  lemma FreshInv(s: State)
    requires Fresh(s)
    ensures Inv(s)
  {
  }

  // ---------------------------------------------------------------------
  // Preservation, one group of steps at a time
  // ---------------------------------------------------------------------

  lemma PhaseChange(s: State, i: nat, t: Task)
    requires Inv(s) && i < |s.tasks|
    ensures SlotSum(s.tasks[i := t]) == SlotSum(s.tasks) - Slots(s.tasks[i]) + Slots(t)
    ensures s.row.activeTasks >= Slots(s.tasks[i])
  {
    SlotSumUpdate(s.tasks, i, t);
    SlotSumAtLeast(s.tasks, i);
  }

  lemma GiveBackInv(s: State, i: nat)
    requires Inv(s) && i < |s.tasks| && s.tasks[i].phase.Reserving? && s.tasks[i].phase.reserved >= 1
    ensures Inv(GiveBack(s, i))
    ensures GiveBack(s, i).row.status == s.row.status
  {
    PhaseChange(s, i, GiveBack(s, i).tasks[i]);
  }

  lemma HandOverInv(s: State, i: nat, msg: Message, root: nat)
    requires Inv(s) && i < |s.tasks| && s.tasks[i].phase.Reserving? && s.tasks[i].phase.reserved >= 1
    requires Owner(msg) in Groups(msg)
    ensures Inv(HandOver(s, i, msg, root))
  {
    var p := s.tasks[i].phase;
    var left := s.tasks[i].(phase := Reserving(p.activity, p.reserved - 1, Idle));
    PhaseChange(s, i, left);
    SlotSumAppend(s.tasks[i := left], Task(msg, {}, Published, root));
  }

  lemma SettledRowIs(s: State, i: nat)
    requires Inv(s) && i < |s.tasks| && AtWork(s.tasks[i])
    ensures var t := s.tasks[i];
            SettledRow(s.row, t.msg, t.phase.Failing?) == CompleteTask(s.row, t.phase.Failing?)
            && SettledRow(s.row, t.msg, t.phase.Failing?).activeTasks == s.row.activeTasks - 1
  {
    var t := s.tasks[i];
    if t.msg.Page? {
      OnlyTheOwnerSettles(s.row, JOB_ID, t.msg, t.msg.owner, t.phase.Failing?);
    }
    SlotSumAtLeast(s.tasks, i);
  }

  lemma SettleInv(env: Env, s: State, i: nat)
    requires Inv(s) && Enabled(env, s, Settle(i))
    ensures Inv(Apply(env, s, Settle(i)))
  {
    SettledRowIs(s, i);
    PhaseChange(s, i, s.tasks[i].(phase := Settled));
  }

  lemma TaskStepInv(env: Env, s: State, step: Step)
    requires Inv(s) && Enabled(env, s, step)
    requires step.SkipReplay? || step.Reserve? || step.MarkLink? || step.Crash? || step.StorePage?
    ensures Inv(Apply(env, s, step))
  {
    var s' := Apply(env, s, step);
    PhaseChange(s, step.i, s'.tasks[step.i]);
  }

  lemma RaiseInv(env: Env, s: State, i: nat)
    requires Inv(s) && Enabled(env, s, Raise(i))
    ensures Inv(Apply(env, s, Raise(i)))
  {
    PhaseChange(s, i, Apply(env, s, Raise(i)).tasks[i]);
  }

  lemma DeliverInv(env: Env, s: State, i: nat, g: WorkerType)
    requires Inv(s) && Enabled(env, s, Deliver(i, g))
    ensures Inv(Apply(env, s, Deliver(i, g)))
    ensures Apply(env, s, Deliver(i, g)).row == s.row
  {
    var t := s.tasks[i];
    var s' := Apply(env, s, Deliver(i, g));
    if g != Owner(t.msg) {
      OnlyTheOwnerSettles(s.row, JOB_ID, t.msg, g, false);
    }
    PhaseChange(s, i, s'.tasks[i]);
  }

  lemma ApiStepInv(env: Env, s: State, step: Step)
    requires Inv(s) && Enabled(env, s, step)
    requires step.ApiRegister? || step.ApiPublish? || step.ApiPublishFails? || step.MarkRunning?
          || step.PauseJob? || step.ResumeJob? || step.Watchdog?
    ensures Inv(Apply(env, s, step))
  {
    if step.ApiPublish? {
      SlotSumAppend(s.tasks, Task(step.msg, {}, Published, |s.tasks|));
    }
  }

  lemma PublishInv(env: Env, s: State, step: Step)
    requires Inv(s) && Enabled(env, s, step)
    requires step.PublishLink? || step.PublishSeed? || step.PublishEscalated? || step.PublishAudio?
    ensures Inv(Apply(env, s, step))
  {
    var added := Added(env, s, step).value;
    HandOverInv(s, step.i, added.msg, added.root);
  }

  lemma CheckInv(env: Env, s: State, i: nat, link: Text)
    requires Inv(s) && Enabled(env, s, CheckLink(i, link))
    ensures Inv(Apply(env, s, CheckLink(i, link)))
  {
    if env.keyOf(link) in s.visited {
      GiveBackInv(s, i);
    } else {
      PhaseChange(s, i, Apply(env, s, CheckLink(i, link)).tasks[i]);
    }
  }

  lemma StepInv(env: Env, s: State, step: Step)
    requires Inv(s) && Enabled(env, s, step)
    ensures Inv(Apply(env, s, step))
  {
    match step
    case Deliver(i, g) => DeliverInv(env, s, i, g);
    case SkipReplay(_) => TaskStepInv(env, s, step);
    case Reserve(_, _, _) => TaskStepInv(env, s, step);
    case StorePage(_) => TaskStepInv(env, s, step);
    case MarkLink(_) => TaskStepInv(env, s, step);
    case Crash(_) => TaskStepInv(env, s, step);
    case CheckLink(i, link) => CheckInv(env, s, i, link);
    case PublishLink(_) => PublishInv(env, s, step);
    case PublishSeed(_, _) => PublishInv(env, s, step);
    case PublishEscalated(_) => PublishInv(env, s, step);
    case PublishAudio(_) => PublishInv(env, s, step);
    case ReturnSlot(i) => GiveBackInv(s, i);
    case Raise(i) => RaiseInv(env, s, i);
    case Settle(i) => SettleInv(env, s, i);
    case _ => ApiStepInv(env, s, step);
  }

  lemma {:induction false} RunInv(env: Env, s: State, steps: seq<Step>)
    requires Inv(s) && CanRun(env, s, steps)
    ensures Inv(Run(env, s, steps))
    decreases |steps|
  {
    if steps != [] {
      StepInv(env, s, steps[0]);
      RunInv(env, Apply(env, s, steps[0]), steps[1..]);
    }
  }

  /** Every state a job can reach satisfies the invariant. */
  lemma ReachedInv(env: Env, s0: State, steps: seq<Step>)
    requires Fresh(s0) && CanRun(env, s0, steps)
    ensures Inv(Run(env, s0, steps))
  {
    assert Inv(s0) by {
      FreshInv(s0);
    }
    RunInv(env, s0, steps);
  }
}
