/** Which jobs can still complete. */
module JobLiveness {
  import opened Common
  import opened JobRow
  import opened Messages
  import opened CrawlProtocol
  import opened SlotConservation
  import opened JobOutcome
  import opened CrawlTermination

  // ---------------------------------------------------------------------
  // Work left
  // ---------------------------------------------------------------------

  /** How many more steps the quickest orderly end of a task takes, roughly. */
  function StepsLeft(t: Task): nat {
    match t.phase
    case Published => 3
    case Started => 1
    case Reserving(activity, reserved, _) => if activity == Escalation then 1 + 4 * reserved else 1 + reserved
    case Failing(_) => 1
    case Settled => 0
    case Abandoned => 0
  }

  function WorkLeft(tasks: seq<Task>): nat {
    Total(tasks, StepsLeft)
  }

  // ---------------------------------------------------------------------
  // One step towards the end
  // ---------------------------------------------------------------------

  /** A job that is on its way: nothing lost, active, the counter not emptied. */
  predicate InProgress(env: Env, s: State) {
    && Inv(s) && Activities(env, s) && s.tasks != [] && s.leaked == 0 && s.drained.None?
    && s.row.status.Active()
  }

  predicate OnTrack(env: Env, s: State) {
    InProgress(env, s) && s.row.pageStored
  }

  /** The step brought the job closer to its end, or to it. */
  predicate Closer(env: Env, s: State, s': State) {
    s'.row.status.Completed? || (OnTrack(env, s') && WorkLeft(s'.tasks) < WorkLeft(s.tasks))
  }

  lemma DeliverCloser(env: Env, s: State, i: nat)
    requires OnTrack(env, s) && i < |s.tasks| && s.tasks[i].phase.Published?
    ensures var step := Deliver(i, Owner(s.tasks[i].msg));
            Enabled(env, s, step) && Closer(env, s, Apply(env, s, step))
  {
    assert TaskFits(s.tasks[i]);
    var step := Deliver(i, Owner(s.tasks[i].msg));
    StepInv(env, s, step);
    StepActivities(env, s, step);
    TotalUpdate(s.tasks, i, Apply(env, s, step).tasks[i], StepsLeft);
  }

  lemma SettleCloser(env: Env, s: State, i: nat)
    requires OnTrack(env, s) && i < |s.tasks| && AtWork(s.tasks[i]) && Kept(s.tasks[i]) == 0
    ensures Enabled(env, s, Settle(i)) && Closer(env, s, Apply(env, s, Settle(i)))
  {
    var t := s.tasks[i];
    assert !t.phase.Failing?;
    StepInv(env, s, Settle(i));
    StepActivities(env, s, Settle(i));
    StepTurnsGreen(env, s, Settle(i));
    PhaseChange(s, i, t.(phase := Settled));
    if t.msg.Page? {
      OnlyTheOwnerSettles(s.row, JOB_ID, t.msg, t.msg.owner, false);
    }
    TotalUpdate(s.tasks, i, t.(phase := Settled), StepsLeft);
  }

  lemma ReturnCloser(env: Env, s: State, i: nat)
    requires OnTrack(env, s) && i < |s.tasks| && s.tasks[i].phase.Reserving? && s.tasks[i].phase.reserved >= 1
    requires !s.tasks[i].phase.activity.Escalation?
    ensures Enabled(env, s, ReturnSlot(i)) && Closer(env, s, Apply(env, s, ReturnSlot(i)))
  {
    StepInv(env, s, ReturnSlot(i));
    StepActivities(env, s, ReturnSlot(i));
    GiveBackInv(s, i);
    PhaseChange(s, i, s.tasks[i]);
    TotalUpdate(s.tasks, i, GiveBack(s, i).tasks[i], StepsLeft);
  }

  lemma EscalateCloser(env: Env, s: State, i: nat)
    requires OnTrack(env, s) && i < |s.tasks| && s.tasks[i].phase.Reserving? && s.tasks[i].phase.reserved >= 1
    requires s.tasks[i].phase.activity.Escalation?
    ensures Enabled(env, s, PublishEscalated(i)) && Closer(env, s, Apply(env, s, PublishEscalated(i)))
  {
    assert TaskFits(s.tasks[i]) && ActivityFits(env, s.tasks[i]);
    var step := PublishEscalated(i);
    StepInv(env, s, step);
    StepActivities(env, s, step);
    var p := s.tasks[i].phase;
    var left := s.tasks[i].(phase := Reserving(p.activity, p.reserved - 1, Idle));
    TotalUpdate(s.tasks, i, left, StepsLeft);
    TotalAppend(s.tasks[i := left], Task(EscalatedPage(s.tasks[i].msg), {}, Published, s.tasks[i].root), StepsLeft);
  }

  lemma SomeStepCloser(env: Env, s: State) returns (step: Step)
    requires OnTrack(env, s)
    ensures Enabled(env, s, step) && Closer(env, s, Apply(env, s, step))
  {
    SlotSumZero(s.tasks);
    var i: nat :| i < |s.tasks| && !Finished(s.tasks[i]);
    var phase := s.tasks[i].phase;
    if phase.Published? {
      DeliverCloser(env, s, i);
      step := Deliver(i, Owner(s.tasks[i].msg));
    } else if Kept(s.tasks[i]) == 0 {
      SettleCloser(env, s, i);
      step := Settle(i);
    } else if phase.Reserving? && phase.activity == Escalation {
      EscalateCloser(env, s, i);
      step := PublishEscalated(i);
    } else {
      assert !phase.Failing?;
      ReturnCloser(env, s, i);
      step := ReturnSlot(i);
    }
  }

  lemma {:induction false} OnTrackCompletes(env: Env, s: State) returns (steps: seq<Step>)
    requires OnTrack(env, s)
    ensures CanRun(env, s, steps) && Run(env, s, steps).row.status.Completed?
    decreases WorkLeft(s.tasks)
  {
    var step := SomeStepCloser(env, s);
    var s' := Apply(env, s, step);
    RunOne(env, s, [step], s');
    if s'.row.status.Completed? {
      steps := [step];
    } else {
      var rest := OnTrackCompletes(env, s');
      steps := Joined(env, s, [step], s', rest);
    }
  }

  // ---------------------------------------------------------------------
  // A first stored page
  // ---------------------------------------------------------------------

  /** A task that can still store a page, or bring about a message that does. */
  predicate MayStore(t: Task) {
    || t.phase.Published? || t.phase.Started?
    || (t.phase.Reserving? && (t.phase.reserved >= 1 || (t.phase.activity == FanOut && t.msg.Page?)))
  }

  function StoreDistance(t: Task): nat {
    match t.msg
    case Audio(_) => if t.phase.Published? then 2 else 1
    case Page(_, _, _, _, _, _) =>
      (match t.phase
       case Published => 5
       case Started => 4
       case Reserving(activity, reserved, _) =>
         (match activity case FanOut => 1 + reserved case AudioHandOff => 3 case Escalation => 6)
       case _ => 0)
    case Search(_, _, _) => if t.phase.Published? then 8 else if t.phase.Started? then 7 else 6
  }

  /** Some URL a search may come up with. */
  const SOME_URL := Ascii("http://example.org/")

  lemma KeepsProgress(env: Env, s: State, step: Step)
    requires InProgress(env, s) && Enabled(env, s, step)
    requires step.StorePage? || step.Reserve? || step.PublishSeed? || step.PublishEscalated? || step.PublishAudio?
          || step.ReturnSlot? || (step.Deliver? && step.group == Owner(s.tasks[step.i].msg))
    ensures InProgress(env, Apply(env, s, step))
  {
    StepInv(env, s, step);
    StepActivities(env, s, step);
    if step.ReturnSlot? {
      GiveBackInv(s, step.i);
    }
  }

  /** The step stored a page, or task j of the next state is closer to storing one. */
  predicate NearerStore(env: Env, s: State, i: nat, step: Step, j: nat)
    requires i < |s.tasks| && Enabled(env, s, step)
  {
    var s' := Apply(env, s, step);
    s'.row.pageStored
    || (j < |s'.tasks| && MayStore(s'.tasks[j]) && StoreDistance(s'.tasks[j]) < StoreDistance(s.tasks[i]))
  }

  lemma StartedNearer(env: Env, s: State, i: nat) returns (step: Step)
    requires InProgress(env, s) && i < |s.tasks| && s.tasks[i].phase.Started?
    ensures Enabled(env, s, step) && InProgress(env, Apply(env, s, step)) && NearerStore(env, s, i, step, i)
  {
    var m := s.tasks[i].msg;
    if m.Search? {
      step := Reserve(i, FanOut, 1);
    } else if m.Page? && env.kindOf(m.url).AudioUrl? {
      step := Reserve(i, AudioHandOff, 1);
    } else {
      step := StorePage(i);
    }
    KeepsProgress(env, s, step);
  }

  lemma ReservingNearer(env: Env, s: State, i: nat) returns (step: Step, j: nat)
    requires InProgress(env, s) && i < |s.tasks| && s.tasks[i].phase.Reserving? && MayStore(s.tasks[i])
    ensures Enabled(env, s, step) && InProgress(env, Apply(env, s, step)) && NearerStore(env, s, i, step, j)
  {
    var t := s.tasks[i];
    assert TaskFits(t) && ActivityFits(env, t);
    j := |s.tasks|;
    match t.phase.activity {
      case FanOut =>
        if t.msg.Search? {
          step := PublishSeed(i, SOME_URL);
        } else {
          step := if t.phase.reserved == 0 then StorePage(i) else ReturnSlot(i);
          j := i;
        }
      case Escalation => step := PublishEscalated(i);
      case AudioHandOff => step := PublishAudio(i);
    }
    KeepsProgress(env, s, step);
  }

  lemma NearerStep(env: Env, s: State, i: nat) returns (step: Step, j: nat)
    requires InProgress(env, s) && i < |s.tasks| && MayStore(s.tasks[i])
    ensures Enabled(env, s, step) && InProgress(env, Apply(env, s, step)) && NearerStore(env, s, i, step, j)
  {
    j := i;
    if s.tasks[i].phase.Published? {
      assert TaskFits(s.tasks[i]);
      step := Deliver(i, Owner(s.tasks[i].msg));
      KeepsProgress(env, s, step);
    } else if s.tasks[i].phase.Started? {
      step := StartedNearer(env, s, i);
    } else {
      step, j := ReservingNearer(env, s, i);
    }
  }

  lemma {:induction false} DriveToStore(env: Env, s: State, i: nat) returns (steps: seq<Step>, end: State)
    requires InProgress(env, s) && i < |s.tasks| && MayStore(s.tasks[i])
    ensures CanRun(env, s, steps) && Run(env, s, steps) == end && OnTrack(env, end)
    decreases StoreDistance(s.tasks[i])
  {
    var step, j := NearerStep(env, s, i);
    var s' := Apply(env, s, step);
    RunOne(env, s, [step], s');
    if s'.row.pageStored {
      steps, end := [step], s';
    } else {
      var rest;
      rest, end := DriveToStore(env, s', j);
      steps := Joined(env, s, [step], s', rest);
    }
  }

  // ---------------------------------------------------------------------
  // Exactly which jobs can still complete
  // ---------------------------------------------------------------------

  /** Complete already, or neither failed nor drained, without a lost slot, and with a page
      stored or one that can still come. */
  predicate Viable(s: State) {
    || s.row.status.Completed?
    || (s.leaked == 0 && s.drained.None? && !s.row.status.Failed?
        && (s.row.pageStored || exists i :: 0 <= i < |s.tasks| && MayStore(s.tasks[i])))
  }

  predicate Completes(env: Env, s: State, more: seq<Step>) {
    CanRun(env, s, more) && Run(env, s, more).row.status.Completed?
  }

  lemma ResumedInProgress(env: Env, s: State)
    requires Inv(s) && Activities(env, s) && s.tasks != [] && Viable(s) && !s.row.status.Completed?
    ensures var a := Apply(env, s, ResumeJob);
            InProgress(env, a) && a.tasks == s.tasks && a.row.pageStored == s.row.pageStored
  {
    StepInv(env, s, ResumeJob);
    StepActivities(env, s, ResumeJob);
  }

  lemma ViableCompletes(env: Env, s: State) returns (more: seq<Step>)
    requires Inv(s) && Activities(env, s) && s.tasks != [] && Viable(s)
    ensures Completes(env, s, more)
  {
    if s.row.status.Completed? {
      more := [];
    } else {
      ResumedInProgress(env, s);
      var a := Apply(env, s, ResumeJob);
      RunOne(env, s, [ResumeJob], a);
      var store, b := [], a;
      if !s.row.pageStored {
        var i :| 0 <= i < |s.tasks| && MayStore(s.tasks[i]);
        store, b := DriveToStore(env, a, i);
      }
      var rest := OnTrackCompletes(env, b);
      var tail := Joined(env, a, store, b, rest);
      more := Joined(env, s, [ResumeJob], a, tail);
    }
  }

  /** Nothing is stored and nobody is left who could store anything. */
  predicate Barren(s: State) {
    && s.tasks != [] && s.apiSlots == 0 && !s.row.pageStored
    && forall i :: 0 <= i < |s.tasks| ==> !MayStore(s.tasks[i])
  }

  lemma SubjectBarren(env: Env, s: State, step: Step)
    requires Enabled(env, s, step) && 0 <= SubjectOf(step) < |s.tasks|
    requires TaskFits(s.tasks[SubjectOf(step)]) && !MayStore(s.tasks[SubjectOf(step)])
    ensures !MayStore(Apply(env, s, step).tasks[SubjectOf(step)])
    ensures |Apply(env, s, step).tasks| == |s.tasks|
  {
  }

  lemma StepBarren(env: Env, s: State, step: Step)
    requires Inv(s) && Barren(s) && Enabled(env, s, step)
    ensures Barren(Apply(env, s, step))
  {
    var s' := Apply(env, s, step);
    assert 0 <= SubjectOf(step) < |s.tasks| ==>
             TaskFits(s.tasks[SubjectOf(step)]) && !MayStore(s.tasks[SubjectOf(step)]);
    forall j | 0 <= j < |s'.tasks|
      ensures !MayStore(s'.tasks[j])
    {
      if SubjectOf(step) == j {
        SubjectBarren(env, s, step);
      } else {
        assert !MayStore(s.tasks[j]);
        OthersUnchanged(env, s, step, j);
      }
    }
  }

  lemma {:induction false} RunBarren(env: Env, s: State, steps: seq<Step>)
    requires Inv(s) && Barren(s) && CanRun(env, s, steps)
    ensures Barren(Run(env, s, steps))
    decreases |steps|
  {
    if steps != [] {
      StepBarren(env, s, steps[0]);
      StepInv(env, s, steps[0]);
      RunBarren(env, Apply(env, s, steps[0]), steps[1..]);
    }
  }

  lemma CompletingIsViable(env: Env, s: State, more: seq<Step>)
    requires Inv(s) && s.tasks != [] && Completes(env, s, more)
    ensures Viable(s)
  {
    RunInv(env, s, more);
    if s.leaked > 0 {
      LeakBlocksCompletion(env, s, more);
    }
    if s.row.status.Failed? {
      OutcomeIsFinal(env, s, more);
    }
    if s.drained.Some? {
      DrainedForever(env, s, more);
    }
    if Barren(s) {
      RunBarren(env, s, more);
    }
  }

  lemma {:induction false} RunActivities(env: Env, s: State, steps: seq<Step>)
    requires Activities(env, s) && CanRun(env, s, steps)
    ensures Activities(env, Run(env, s, steps))
    decreases |steps|
  {
    if steps != [] {
      StepActivities(env, s, steps[0]);
      RunActivities(env, Apply(env, s, steps[0]), steps[1..]);
    }
  }

  /** In every reachable state of a submitted job: some continuation completes the job exactly
      when it is complete already, or has not failed, has lost no slot, its counter has not been
      emptied, and a page is stored or somebody is left who can store one. So the protocol
      never deadlocks, paused or not, and these ways out of completion are the only ones. */
  lemma CompletableExactly(env: Env, s0: State, steps: seq<Step>)
    requires Fresh(s0) && CanRun(env, s0, steps) && Run(env, s0, steps).tasks != []
    ensures (exists more :: Completes(env, Run(env, s0, steps), more)) <==> Viable(Run(env, s0, steps))
  {
    var s := Run(env, s0, steps);
    ReachedInv(env, s0, steps);
    RunActivities(env, s0, steps);
    if Viable(s) {
      var more := ViableCompletes(env, s);
      assert Completes(env, s, more);
    }
    forall more | Completes(env, s, more)
      ensures Viable(s)
    {
      CompletingIsViable(env, s, more);
    }
  }
}
