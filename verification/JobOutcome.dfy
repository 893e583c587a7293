/** What the slot counter guarantees about the final status of a job. */
module JobOutcome {
  import opened Common
  import opened JobRow
  import opened Messages
  import opened CrawlProtocol
  import opened SlotConservation

  // ---------------------------------------------------------------------
  // Conservation
  // ---------------------------------------------------------------------

  function InFlight(tasks: seq<Task>): nat {
    if tasks == [] then 0 else (if tasks[0].phase.Published? then 1 else 0) + InFlight(tasks[1..])
  }

  function BeingProcessed(tasks: seq<Task>): nat {
    if tasks == [] then 0 else (if AtWork(tasks[0]) then 1 else 0) + BeingProcessed(tasks[1..])
  }

  function ReservedUnpublished(tasks: seq<Task>): nat {
    if tasks == [] then 0 else Kept(tasks[0]) + ReservedUnpublished(tasks[1..])
  }

  lemma {:induction false} SlotSumSplits(tasks: seq<Task>)
    ensures SlotSum(tasks) == InFlight(tasks) + BeingProcessed(tasks) + ReservedUnpublished(tasks)
  {
    if tasks != [] {
      SlotSumSplits(tasks[1..]);
    }
  }

  lemma InvSplits(s: State)
    requires Inv(s)
    ensures s.row.activeTasks == s.apiSlots + InFlight(s.tasks) + BeingProcessed(s.tasks)
                                 + ReservedUnpublished(s.tasks) + s.leaked
  {
    SlotSumSplits(s.tasks);
  }

  /** In every reachable state the counter is the messages in flight, plus those being
      processed, plus the slots reserved but not yet published, plus the leaked ones. */
  lemma SlotsAreConserved(env: Env, s0: State, steps: seq<Step>)
    requires Fresh(s0) && CanRun(env, s0, steps)
    ensures var s := Run(env, s0, steps);
            s.row.activeTasks == s.apiSlots + InFlight(s.tasks) + BeingProcessed(s.tasks)
                                 + ReservedUnpublished(s.tasks) + s.leaked
  {
    ReachedInv(env, s0, steps);
    InvSplits(Run(env, s0, steps));
  }

  /** The steps that leave a slot nobody gives back. A settlement does so only when its
      handler was cancelled or raised between reserving and publishing. */
  predicate Leaks(env: Env, s: State, step: Step)
    requires Enabled(env, s, step)
  {
    match step
    case ApiPublishFails => true
    case SkipReplay(_) => true
    case Crash(_) => true
    case Raise(i) => s.tasks[i].msg.Search?
    case Settle(i) => Kept(s.tasks[i]) > 0
    case _ => false
  }

  lemma LeaksExactly(env: Env, s: State, step: Step)
    requires Enabled(env, s, step)
    ensures Apply(env, s, step).leaked >= s.leaked
    ensures Apply(env, s, step).leaked > s.leaked <==> Leaks(env, s, step)
  {
  }

  predicate LeakFree(env: Env, s: State, steps: seq<Step>)
    requires CanRun(env, s, steps)
    decreases |steps|
  {
    steps == [] || (!Leaks(env, s, steps[0]) && LeakFree(env, Apply(env, s, steps[0]), steps[1..]))
  }

  lemma {:induction false} LeakedGrows(env: Env, s: State, steps: seq<Step>)
    requires CanRun(env, s, steps)
    ensures Run(env, s, steps).leaked >= s.leaked
    ensures Run(env, s, steps).leaked == s.leaked <==> LeakFree(env, s, steps)
    decreases |steps|
  {
    if steps != [] {
      LeaksExactly(env, s, steps[0]);
      LeakedGrows(env, Apply(env, s, steps[0]), steps[1..]);
    }
  }

  // ---------------------------------------------------------------------
  // No early completion
  // ---------------------------------------------------------------------

  predicate Quiescent(s: State) {
    s.tasks != [] && s.apiSlots == 0 && forall i :: 0 <= i < |s.tasks| ==> Finished(s.tasks[i])
  }

  /** A completed job has nothing in flight, being processed or reserved, and never lost a
      slot: every message of the job has been settled by its owner. */
  lemma NoEarlyCompletion(env: Env, s0: State, steps: seq<Step>)
    requires Fresh(s0) && CanRun(env, s0, steps) && Run(env, s0, steps).row.status.Completed?
    ensures var s := Run(env, s0, steps);
            && s.tasks != [] && s.apiSlots == 0 && s.row.activeTasks == 0 && s.row.pageStored
            && forall i :: 0 <= i < |s.tasks| ==> s.tasks[i].phase.Settled?
    ensures LeakFree(env, s0, steps)
  {
    ReachedInv(env, s0, steps);
    var s := Run(env, s0, steps);
    SlotSumZero(s.tasks);
    LeakedGrows(env, s0, steps);
  }

  /** Once everything is finished the counter is the number of leaked slots, so it is 0
      exactly when no step of the run leaked. */
  lemma QuiescentCounter(env: Env, s0: State, steps: seq<Step>)
    requires Fresh(s0) && CanRun(env, s0, steps) && Quiescent(Run(env, s0, steps))
    ensures var s := Run(env, s0, steps); s.row.activeTasks == s.leaked
    ensures Run(env, s0, steps).row.activeTasks == 0 <==> LeakFree(env, s0, steps)
  {
    ReachedInv(env, s0, steps);
    SlotSumZero(Run(env, s0, steps).tasks);
    LeakedGrows(env, s0, steps);
  }

  // ---------------------------------------------------------------------
  // Final statuses
  // ---------------------------------------------------------------------

  lemma StepKeepsOutcome(env: Env, s: State, step: Step)
    requires Inv(s) && Enabled(env, s, step) && (s.row.status.Completed? || s.row.status.Failed?)
    ensures Apply(env, s, step).row.status == s.row.status
  {
    StepInv(env, s, step);
    match step
    case Deliver(i, g) => DeliverInv(env, s, i, g);
    case Settle(i) =>
      SlotSumAtLeast(s.tasks, i);
      if s.tasks[i].msg.Page? {
        OnlyTheOwnerSettles(s.row, JOB_ID, s.tasks[i].msg, s.tasks[i].msg.owner, s.tasks[i].phase.Failing?);
      }
    case _ =>
  }

  /** completed and failed are final: no interleaving of later steps changes them. */
  lemma {:induction false} OutcomeIsFinal(env: Env, s: State, steps: seq<Step>)
    requires Inv(s) && CanRun(env, s, steps) && (s.row.status.Completed? || s.row.status.Failed?)
    ensures Run(env, s, steps).row.status == s.row.status
    decreases |steps|
  {
    if steps != [] {
      StepKeepsOutcome(env, s, steps[0]);
      StepInv(env, s, steps[0]);
      OutcomeIsFinal(env, Apply(env, s, steps[0]), steps[1..]);
    }
  }

  /** One page whose handler lets an exception escape decides the job (a deep or dark page; the
      surface worker's request handler swallows its own PageProcessingError): after it, whatever
      the other workers, the API and the watchdog do, the job is and stays failed. */
  lemma {:induction false} CrashedJobStaysFailed(env: Env, s: State, steps: seq<Step>, k: nat)
    requires Inv(s) && CanRun(env, s, steps) && k < |steps| && steps[k].Raise?
    ensures Run(env, s, steps).row.status.Failed?
    decreases |steps|
  {
    var s' := Apply(env, s, steps[0]);
    StepInv(env, s, steps[0]);
    if k == 0 {
      SlotSumAtLeast(s.tasks, steps[0].i);
      assert s.row.activeTasks > 0;
      OutcomeIsFinal(env, s', steps[1..]);
    } else {
      CrashedJobStaysFailed(env, s', steps[1..], k - 1);
    }
  }

  /** One leaked slot blocks completion for good. */
  lemma LeakBlocksCompletion(env: Env, s: State, steps: seq<Step>)
    requires Inv(s) && CanRun(env, s, steps) && s.leaked > 0
    ensures !Run(env, s, steps).row.status.Completed?
  {
    RunInv(env, s, steps);
    LeakedGrows(env, s, steps);
  }

  lemma StepKeepsDrained(env: Env, s: State, step: Step)
    requires Inv(s) && Enabled(env, s, step) && s.drained.Some?
    ensures Apply(env, s, step).drained == s.drained
  {
    if step.Settle? {
      SlotSumAtLeast(s.tasks, step.i);
    }
  }

  lemma {:induction false} DrainedForever(env: Env, s: State, steps: seq<Step>)
    requires Inv(s) && CanRun(env, s, steps) && s.drained.Some?
    ensures Run(env, s, steps).drained == s.drained
    decreases |steps|
  {
    if steps != [] {
      StepKeepsDrained(env, s, steps[0]);
      StepInv(env, s, steps[0]);
      DrainedForever(env, Apply(env, s, steps[0]), steps[1..]);
    }
  }

  /** The settlement that takes the counter from 1 to 0. */
  predicate Drains(s: State, step: Step) {
    step.Settle? && s.row.activeTasks == 1
  }

  predicate GreenDrain(s: State, step: Step) {
    Drains(s, step) && s.row.status.Active() && s.row.pageStored
  }

  predicate HasGreenDrain(env: Env, s: State, steps: seq<Step>)
    requires CanRun(env, s, steps)
    decreases |steps|
  {
    steps != [] && (GreenDrain(s, steps[0]) || HasGreenDrain(env, Apply(env, s, steps[0]), steps[1..]))
  }

  /** When a job turns green, in terms of the run alone: exactly when some settlement took
      the counter from 1 to 0 while the job was active and a page had been stored. */
  lemma {:induction false} CompletedExactly(env: Env, s: State, steps: seq<Step>)
    requires Inv(s) && CanRun(env, s, steps) && !s.row.status.Completed?
    ensures Run(env, s, steps).row.status.Completed? <==> HasGreenDrain(env, s, steps)
    decreases |steps|
  {
    if steps != [] {
      var s' := Apply(env, s, steps[0]);
      StepInv(env, s, steps[0]);
      StepTurnsGreen(env, s, steps[0]);
      if s'.row.status.Completed? {
        OutcomeIsFinal(env, s', steps[1..]);
      } else {
        CompletedExactly(env, s', steps[1..]);
      }
    }
  }

  lemma StepTurnsGreen(env: Env, s: State, step: Step)
    requires Inv(s) && Enabled(env, s, step) && !s.row.status.Completed?
    ensures Apply(env, s, step).row.status.Completed? <==> GreenDrain(s, step)
  {
    StepInv(env, s, step);
    match step
    case Deliver(i, g) => DeliverInv(env, s, i, g);
    case CheckLink(i, _) => SlotSumAtLeast(s.tasks, i);
    case ReturnSlot(i) => SlotSumAtLeast(s.tasks, i);
    case Settle(i) =>
      SlotSumAtLeast(s.tasks, i);
      if s.tasks[i].msg.Page? {
        OnlyTheOwnerSettles(s.row, JOB_ID, s.tasks[i].msg, s.tasks[i].msg.owner, s.tasks[i].phase.Failing?);
      }
    case _ =>
  }

  // ---------------------------------------------------------------------
  // Jobs that never finish
  // ---------------------------------------------------------------------

  /** A leak-free quiescent job has reached a final status unless its last settlement came
      while it was paused, and then it never completes, resumed or not. */
  lemma QuiescentOutcome(env: Env, s0: State, steps: seq<Step>, more: seq<Step>)
    requires Fresh(s0) && CanRun(env, s0, steps) && Quiescent(Run(env, s0, steps))
    requires LeakFree(env, s0, steps) && CanRun(env, Run(env, s0, steps), more)
    ensures var s := Run(env, s0, steps);
            && s.drained.Some?
            && (s.drained.value.status.Active() ==> s.row.status.Completed? || s.row.status.Failed?)
            && (s.drained.value.status.Paused? ==> !Run(env, s, more).row.status.Completed?)
  {
    QuiescentCounter(env, s0, steps);
    ReachedInv(env, s0, steps);
    var s := Run(env, s0, steps);
    DrainedForever(env, s, more);
    RunInv(env, s, more);
  }

  /** A job whose one page is being fetched by the surface worker. */
  function Fetching(url: Text, config: CrawlConfig): State {
    State(Row(Status.Running, None, 1, false), 0,
          [Task(Page(url, Surface, 0, 0, 0, SeedConfig(config, url)), {Surface}, Started, 0)], {}, 0, None)
  }

  lemma FetchingReached(env: Env, s0: State, url: Text, config: CrawlConfig) returns (steps: seq<Step>, mid: State)
    requires Fresh(s0)
    ensures CanRun(env, s0, steps) && Run(env, s0, steps) == mid && mid == Fetching(url, config)
  {
    var page := Page(url, Surface, 0, 0, 0, SeedConfig(config, url));
    var s1 := s0.(row := s0.row.(activeTasks := 1), apiSlots := 1);
    var s2 := s1.(apiSlots := 0, tasks := [Task(page, {}, Published, 0)]);
    var s3 := s2.(row := s2.row.(status := Status.Running));
    steps := [ApiRegister, ApiPublish(page), MarkRunning, Deliver(0, Surface)];
    var unseen: set<WorkerType> := {};
    assert unseen + {Surface} == {Surface};
    assert Apply(env, s3, Deliver(0, Surface)).tasks == Fetching(url, config).tasks;
    mid := Fetching(url, config);
    RunFour(env, s0, steps, s1, s2, s3, mid);
  }

  /** Its row after it was paused, stored, settled and resumed. */
  function Stuck(url: Text, config: CrawlConfig): State {
    Fetching(url, config).(
      row := Row(Status.Running, None, 0, true),
      tasks := [Fetching(url, config).tasks[0].(phase := Settled)],
      drained := Some(Row(Paused, Some(Status.Running), 1, true)))
  }

  lemma StuckReached(env: Env, s: State, url: Text, config: CrawlConfig) returns (steps: seq<Step>)
    requires s == Fetching(url, config) && !env.kindOf(url).AudioUrl?
    ensures CanRun(env, s, steps) && Run(env, s, steps) == Stuck(url, config)
  {
    var s1 := s.(row := Row(Paused, Some(Status.Running), 1, false));
    var s2 := s1.(row := s1.row.(pageStored := true));
    var s3 := Stuck(url, config).(row := Row(Paused, Some(Status.Running), 0, true));
    OnlyTheOwnerSettles(s2.row, JOB_ID, s.tasks[0].msg, Surface, false);
    steps := [PauseJob, StorePage(0), Settle(0), ResumeJob];
    RunFour(env, s, steps, s1, s2, s3, Stuck(url, config));
  }

  /** Once a settlement has emptied the counter of a paused job, the job never completes. */
  lemma NeverCompletes(env: Env, s: State)
    requires Inv(s) && s.drained.Some? && s.drained.value.status.Paused?
    ensures forall more :: CanRun(env, s, more) ==> !Run(env, s, more).row.status.Completed?
  {
    forall more | CanRun(env, s, more)
      ensures !Run(env, s, more).row.status.Completed?
    {
      DrainedForever(env, s, more);
      RunInv(env, s, more);
    }
  }

  /** So a job of any URL that is not audio can hang: paused while its only page is being fetched and resumed after the
      page was stored and settled, it is running with counter 0, nothing left to do and no
      leak, and no later step completes it. */
  lemma PausedDrainIsStuck(env: Env, s0: State, url: Text, config: CrawlConfig) returns (steps: seq<Step>, end: State)
    requires Fresh(s0) && !env.kindOf(url).AudioUrl?
    ensures CanRun(env, s0, steps) && Run(env, s0, steps) == end
    ensures Quiescent(end) && end.leaked == 0
    ensures end.row.status == Status.Running && end.row.activeTasks == 0 && end.row.pageStored
    ensures forall more :: CanRun(env, end, more) ==> !Run(env, end, more).row.status.Completed?
  {
    var before, mid := FetchingReached(env, s0, url, config);
    var after := StuckReached(env, mid, url, config);
    end := Run(env, mid, after);
    steps := Joined(env, s0, before, mid, after);
    ReachedInv(env, s0, steps);
    NeverCompletes(env, end);
  }
}
