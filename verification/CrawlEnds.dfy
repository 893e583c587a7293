/** Every crawl comes to rest: the steps of all its handlers together are bounded, and as long
    as a message is unfinished some step of it is possible. */
module CrawlEnds {
  import opened Common
  import opened Messages
  import opened CrawlProtocol
  import opened SlotConservation
  import opened JobOutcome
  import opened CrawlTermination

  // ---------------------------------------------------------------------
  // Effort
  // ---------------------------------------------------------------------

  function Rank(stage: Stage): nat {
    match stage
    case Idle => 2
    case Checked(_) => 1
    case Marked(_) => 0
  }

  /** The steps the handler of a task and of all it causes can still take. */
  function Toil(env: Env, t: Task, b: nat): nat {
    match t.phase
    case Published => 9 * Weight(env, t.msg, b) - 6
    case Started => 9 * (Weight(env, t.msg, b) - 1) + 3
    case Reserving(activity, reserved, stage) => 9 * (reserved * SlotWeight(env, t.msg, activity, b)) + Rank(stage)
    case Failing(_) => 1
    case _ => 0
  }

  /** With the deliveries still to come. */
  function Effort(env: Env, t: Task, b: nat): nat {
    |Groups(t.msg) - t.seenBy| + Toil(env, t, b)
  }

  function EffortOf(env: Env, b: nat): Task -> nat {
    (t: Task) => Effort(env, t, b)
  }

  function TotalEffort(env: Env, s: State, b: nat): nat {
    Total(s.tasks, EffortOf(env, b))
  }

  lemma EffortChange(env: Env, s: State, i: nat, t: Task, b: nat)
    requires i < |s.tasks|
    ensures Total(s.tasks[i := t], EffortOf(env, b))
         == TotalEffort(env, s, b) - Effort(env, s.tasks[i], b) + Effort(env, t, b)
  {
    TotalUpdate(s.tasks, i, t, EffortOf(env, b));
  }

  lemma AtMostThreeGroups(m: Message)
    ensures 1 <= |Groups(m)| <= 3
  {
    assert |CRAWL_GROUPS| == |{Surface, Deep, Dark}| == 3;
  }

  lemma NewEffort(env: Env, msg: Message, root: nat, b: nat)
    ensures Effort(env, Task(msg, {}, Published, root), b) <= 9 * Weight(env, msg, b) - 3
  {
    AtMostThreeGroups(msg);
    var none: set<WorkerType> := {};
    assert Groups(msg) - none == Groups(msg);
  }

  // ---------------------------------------------------------------------
  // Steps of a task
  // ---------------------------------------------------------------------

  /** A step of a handler or a delivery. Writing a crawl_log row once more is not counted. */
  predicate IsTaskStep(step: Step) {
    SubjectOf(step) >= 0 && !step.StorePage?
  }

  lemma SeenShrinks(groups: set<WorkerType>, seen: set<WorkerType>, g: WorkerType)
    requires g in groups && g !in seen
    ensures |groups - (seen + {g})| == |groups - seen| - 1
  {
    assert groups - (seen + {g}) == (groups - seen) - {g};
  }

  lemma SeenEffort(env: Env, t: Task, g: WorkerType, phase: Phase, b: nat)
    requires g in Groups(t.msg) && g !in t.seenBy
    requires Toil(env, t.(phase := phase), b) <= Toil(env, t, b)
    ensures Effort(env, t.(seenBy := t.seenBy + {g}, phase := phase), b) < Effort(env, t, b)
  {
    SeenShrinks(Groups(t.msg), t.seenBy, g);
  }

  lemma DeliverEffort(env: Env, s: State, i: nat, g: WorkerType, b: nat)
    requires Inv(s) && Enabled(env, s, Deliver(i, g))
    ensures TotalEffort(env, Apply(env, s, Deliver(i, g)), b) < TotalEffort(env, s, b)
  {
    var t := s.tasks[i];
    assert TaskFits(t);
    var phase := if g == Owner(t.msg) then Started else t.phase;
    SeenEffort(env, t, g, phase, b);
    EffortChange(env, s, i, t.(seenBy := t.seenBy + {g}, phase := phase), b);
  }

  /** Steps that only move the task on to a phase with less to do. */
  lemma PhaseEffort(env: Env, s: State, i: nat, phase: Phase, b: nat)
    requires i < |s.tasks| && Toil(env, s.tasks[i].(phase := phase), b) < Toil(env, s.tasks[i], b)
    ensures Total(s.tasks[i := s.tasks[i].(phase := phase)], EffortOf(env, b)) < TotalEffort(env, s, b)
  {
    EffortChange(env, s, i, s.tasks[i].(phase := phase), b);
  }

  lemma SlotIsWork(env: Env, t: Task, b: nat)
    requires TaskFits(t) && ActivityFits(env, t) && t.phase.Reserving?
    ensures SlotWeight(env, t.msg, t.phase.activity, b) >= 1
  {
  }

  lemma OneSlotLess(r: nat, w: nat)
    requires r >= 1
    ensures 9 * ((r - 1) * w) + 9 * w == 9 * (r * w)
  {
    OneLess(r, w);
  }

  lemma HandOverEffort(env: Env, s: State, i: nat, msg: Message, root: nat, b: nat)
    requires i < |s.tasks| && s.tasks[i].phase.Reserving? && s.tasks[i].phase.reserved >= 1
    requires Weight(env, msg, b) <= SlotWeight(env, s.tasks[i].msg, s.tasks[i].phase.activity, b)
    ensures TotalEffort(env, HandOver(s, i, msg, root), b) < TotalEffort(env, s, b)
  {
    var t := s.tasks[i];
    var p := t.phase;
    var left, child := t.(phase := Reserving(p.activity, p.reserved - 1, Idle)), Task(msg, {}, Published, root);
    EffortChange(env, s, i, left, b);
    TotalAppend(s.tasks[i := left], child, EffortOf(env, b));
    NewEffort(env, msg, root, b);
    OneSlotLess(p.reserved, SlotWeight(env, t.msg, p.activity, b));
  }

  lemma GiveBackEffort(env: Env, s: State, i: nat, b: nat)
    requires i < |s.tasks| && s.tasks[i].phase.Reserving? && s.tasks[i].phase.reserved >= 1
    requires TaskFits(s.tasks[i]) && ActivityFits(env, s.tasks[i])
    ensures TotalEffort(env, GiveBack(s, i), b) < TotalEffort(env, s, b)
  {
    var t := s.tasks[i];
    SlotIsWork(env, t, b);
    OneSlotLess(t.phase.reserved, SlotWeight(env, t.msg, t.phase.activity, b));
    PhaseEffort(env, s, i, GiveBack(s, i).tasks[i].phase, b);
  }

  lemma ReserveEffort(env: Env, s: State, i: nat, activity: Activity, count: nat, b: nat)
    requires Enabled(env, s, Reserve(i, activity, count)) && WithinBound(Reserve(i, activity, count), b)
    ensures TotalEffort(env, Apply(env, s, Reserve(i, activity, count)), b) < TotalEffort(env, s, b)
  {
    ReservePotential(env, s, i, activity, count, b);
    PhaseEffort(env, s, i, Reserving(activity, count, Idle), b);
  }

  lemma AtWorkToil(env: Env, t: Task, b: nat)
    requires TaskFits(t) && ActivityFits(env, t) && AtWork(t)
    ensures Toil(env, t, b) >= 1 && (!t.phase.Failing? ==> Toil(env, t, b) >= 2)
  {
    if t.phase.Reserving? && t.phase.reserved >= 1 {
      SlotIsWork(env, t, b);
      OneSlotLess(t.phase.reserved, SlotWeight(env, t.msg, t.phase.activity, b));
    }
  }

  lemma EndEffort(env: Env, s: State, step: Step, b: nat)
    requires Inv(s) && Activities(env, s) && Enabled(env, s, step)
    requires step.Raise? || step.SkipReplay? || step.Settle? || step.Crash?
    ensures TotalEffort(env, Apply(env, s, step), b) < TotalEffort(env, s, b)
  {
    var t := s.tasks[step.i];
    assert TaskFits(t) && ActivityFits(env, t);
    AtWorkToil(env, t, b);
    PhaseEffort(env, s, step.i, Apply(env, s, step).tasks[step.i].phase, b);
  }

  lemma PublishEffort(env: Env, s: State, step: Step, b: nat)
    requires Inv(s) && Activities(env, s) && Enabled(env, s, step)
    requires step.PublishLink? || step.PublishSeed? || step.PublishEscalated? || step.PublishAudio?
    ensures TotalEffort(env, Apply(env, s, step), b) < TotalEffort(env, s, b)
  {
    var added, t := Added(env, s, step).value, s.tasks[step.i];
    assert ActivityFits(env, t) && TaskFits(t);
    if step.PublishLink? || step.PublishSeed? {
      PageWeightIsMost(env, added.msg, b);
    }
    HandOverEffort(env, s, step.i, added.msg, added.root, b);
  }

  lemma LinkEffort(env: Env, s: State, step: Step, b: nat)
    requires Inv(s) && Activities(env, s) && Enabled(env, s, step)
    requires step.CheckLink? || step.MarkLink? || step.ReturnSlot?
    ensures TotalEffort(env, Apply(env, s, step), b) < TotalEffort(env, s, b)
  {
    assert TaskFits(s.tasks[step.i]) && ActivityFits(env, s.tasks[step.i]);
    if step.ReturnSlot? || (step.CheckLink? && env.keyOf(step.link) in s.visited) {
      GiveBackEffort(env, s, step.i, b);
    } else {
      PhaseEffort(env, s, step.i, Apply(env, s, step).tasks[step.i].phase, b);
    }
  }

  /** Every step of a task lowers the effort, and no other step of a submitted job raises it. */
  lemma StepEffort(env: Env, s: State, step: Step, b: nat)
    requires Inv(s) && Activities(env, s) && Enabled(env, s, step) && WithinBound(step, b) && s.tasks != []
    ensures TotalEffort(env, Apply(env, s, step), b) + (if IsTaskStep(step) then 1 else 0) <= TotalEffort(env, s, b)
  {
    match step
    case Deliver(i, g) => DeliverEffort(env, s, i, g, b);
    case Reserve(i, activity, count) => ReserveEffort(env, s, i, activity, count, b);
    case CheckLink(_, _) => LinkEffort(env, s, step, b);
    case MarkLink(_) => LinkEffort(env, s, step, b);
    case ReturnSlot(_) => LinkEffort(env, s, step, b);
    case PublishLink(_) => PublishEffort(env, s, step, b);
    case PublishSeed(_, _) => PublishEffort(env, s, step, b);
    case PublishEscalated(_) => PublishEffort(env, s, step, b);
    case PublishAudio(_) => PublishEffort(env, s, step, b);
    case Raise(_) => EndEffort(env, s, step, b);
    case SkipReplay(_) => EndEffort(env, s, step, b);
    case Settle(_) => EndEffort(env, s, step, b);
    case Crash(_) => EndEffort(env, s, step, b);
    case _ =>
  }

  // ---------------------------------------------------------------------
  // Runs
  // ---------------------------------------------------------------------

  function CountTaskSteps(steps: seq<Step>): nat {
    if steps == [] then 0 else (if IsTaskStep(steps[0]) then 1 else 0) + CountTaskSteps(steps[1..])
  }

  lemma {:induction false} RunEffort(env: Env, s: State, steps: seq<Step>, b: nat)
    requires Inv(s) && Activities(env, s) && s.tasks != [] && CanRun(env, s, steps) && BoundedRun(steps, b)
    ensures TotalEffort(env, Run(env, s, steps), b) + CountTaskSteps(steps) <= TotalEffort(env, s, b)
    decreases |steps|
  {
    if steps != [] {
      assert WithinBound(steps[0], b);
      StepEffort(env, s, steps[0], b);
      StepInv(env, s, steps[0]);
      StepActivities(env, s, steps[0]);
      StepKeepsTasks(env, s, steps[0]);
      RunEffort(env, Apply(env, s, steps[0]), steps[1..], b);
    }
  }

  lemma SubmittedEffort(env: Env, s: State, msg: Message, b: nat)
    requires s.tasks == [Task(msg, {}, Published, 0)]
    ensures TotalEffort(env, s, b) <= 9 * Weight(env, msg, b)
  {
    NewEffort(env, msg, 0, b);
    TotalOne(s.tasks[0], EffortOf(env, b));
  }

  lemma {:induction false} UnsubmittedEnds(env: Env, s: State, steps: seq<Step>, b: nat, w: nat)
    requires Inv(s) && s.tasks == [] && CanRun(env, s, steps) && BoundedRun(steps, b) && RootsWeigh(env, steps, b, w)
    ensures CountTaskSteps(steps) <= 9 * w
    decreases |steps|
  {
    if steps != [] {
      var s' := Apply(env, s, steps[0]);
      StepInv(env, s, steps[0]);
      StepActivities(env, s, steps[0]);
      if steps[0].ApiPublish? {
        SubmittedEffort(env, s', steps[0].msg, b);
        RunEffort(env, s', steps[1..], b);
      } else {
        UnsubmittedEnds(env, s', steps[1..], b, w);
      }
    }
  }

  /** However a job's run interleaves, its deliveries and handlers take at most nine steps for
      each message its root can cause. */
  lemma CrawlEnds(env: Env, s0: State, steps: seq<Step>, b: nat, w: nat)
    requires Fresh(s0) && CanRun(env, s0, steps) && BoundedRun(steps, b) && RootsWeigh(env, steps, b, w)
    ensures CountTaskSteps(steps) <= 9 * w
  {
    assert Inv(s0) && s0.tasks == [] by {
      FreshInv(s0);
    }
    UnsubmittedEnds(env, s0, steps, b, w);
  }

  /** And it does not stop before everything is finished: in every reachable state of a
      submitted job either all messages are finished or some delivery or settlement is
      possible. So every run that keeps taking possible task steps ends with a quiescent job. */
  lemma RestIsQuiescent(env: Env, s0: State, steps: seq<Step>)
    requires Fresh(s0) && CanRun(env, s0, steps) && Run(env, s0, steps).tasks != []
    ensures var s := Run(env, s0, steps);
            Quiescent(s) || exists step :: IsTaskStep(step) && Enabled(env, s, step)
  {
    ReachedInv(env, s0, steps);
    UnfinishedMoves(env, Run(env, s0, steps));
  }

  lemma UnfinishedMoves(env: Env, s: State)
    requires Inv(s) && s.tasks != []
    ensures Quiescent(s) || exists step :: IsTaskStep(step) && Enabled(env, s, step)
  {
    if !Quiescent(s) {
      var i: nat :| i < |s.tasks| && !Finished(s.tasks[i]);
      assert TaskFits(s.tasks[i]);
      var step := if s.tasks[i].phase.Published? then Deliver(i, Owner(s.tasks[i].msg)) else Settle(i);
      assert IsTaskStep(step) && Enabled(env, s, step);
    }
  }
}
