/** Every crawl ends: a bound on how many messages a job can ever process, from the depth
    guard, the links per page and the escalation budget. */
module CrawlTermination {
  import opened Common
  import opened Messages
  import opened CrawlProtocol
  import opened SlotConservation

  /** The most messages a page with k levels below it can cause, itself included, when every
      page yields at most b links: the page, and either an audio hand-off or its escalated
      copy, whose URL was not audio, and b children. */
  function PageWeight(k: nat, b: nat): (w: nat)
    ensures w >= 2
  {
    if k == 0 then 2 else 2 + b * PageWeight(k - 1, b)
  }

  function LevelsBelow(config: CrawlConfig, depth: int, maxDepth: int): nat {
    if config.enableExtraction then Max(maxDepth - depth, 0) else 0
  }

  /** The children of a page that fans out. */
  function FanOutWeight(m: Message, b: nat): nat
    requires m.Page?
  {
    var k := LevelsBelow(m.config, m.depth, m.maxDepth);
    if k == 0 then 0 else b * PageWeight(k - 1, b)
  }

  /** Escalation hands a page to the deep worker, which never escalates, so the retry budget of
      MAX_RETRY_COUNT is never used up. */
  function Weight(env: Env, m: Message, b: nat): (w: nat)
    ensures w >= 1
  {
    match m
    case Search(_, maxDepth, config) => 1 + b * PageWeight(LevelsBelow(config, 0, maxDepth), b)
    case Audio(_) => 1
    case Page(url, owner, _, _, _, _) =>
      match env.kindOf(url)
      case DocumentUrl => 1
      case AudioUrl => 2
      case HtmlUrl =>
        if MayEscalate(env, m) then 2 + FanOutWeight(m, b)
        else 1 + Max(if owner == Surface then 1 else 0, FanOutWeight(m, b))
  }

  lemma PageWeightIsMost(env: Env, m: Message, b: nat)
    requires m.Page?
    ensures Weight(env, m, b) <= PageWeight(LevelsBelow(m.config, m.depth, m.maxDepth), b)
  {
  }

  /** The weight of each message a reserved slot may still become. */
  function SlotWeight(env: Env, m: Message, activity: Activity, b: nat): nat {
    match activity
    case FanOut =>
      if m.Search? then PageWeight(LevelsBelow(m.searchConfig, 0, m.searchDepth), b)
      else if m.Page? then PageWeight(LevelsBelow(m.config, m.depth + 1, m.maxDepth), b)
      else 0
    case Escalation => Weight(env, m, b) - 1
    case AudioHandOff => 1
  }

  /** What a task can still cause beyond what it has already done. */
  function Potential(env: Env, t: Task, b: nat): nat {
    match t.phase
    case Published => Weight(env, t.msg, b)
    case Started => Weight(env, t.msg, b) - 1
    case Reserving(activity, reserved, _) => reserved * SlotWeight(env, t.msg, activity, b)
    case _ => 0
  }

  function PotentialOf(env: Env, b: nat): Task -> nat {
    (t: Task) => Potential(env, t, b)
  }

  function TotalPotential(env: Env, tasks: seq<Task>, b: nat): nat {
    Total(tasks, PotentialOf(env, b))
  }

  lemma PotentialUpdate(env: Env, tasks: seq<Task>, i: nat, t: Task, b: nat)
    requires i < |tasks|
    ensures TotalPotential(env, tasks[i := t], b)
         == TotalPotential(env, tasks, b) - Potential(env, tasks[i], b) + Potential(env, t, b)
  {
    TotalUpdate(tasks, i, t, PotentialOf(env, b));
  }

  lemma PotentialAppend(env: Env, tasks: seq<Task>, t: Task, b: nat)
    ensures TotalPotential(env, tasks + [t], b) == TotalPotential(env, tasks, b) + Potential(env, t, b)
  {
    TotalAppend(tasks, t, PotentialOf(env, b));
  }

  /** The environment's part: a page yields at most b links, a search at most b seeds. */
  predicate WithinBound(step: Step, b: nat) {
    step.Reserve? && step.activity == FanOut ==> step.count <= b
  }

  /** The owner of a message starts working on it. */
  predicate Starts(s: State, step: Step) {
    step.Deliver? && step.i < |s.tasks| && step.group == Owner(s.tasks[step.i].msg)
  }

  lemma MulMono(a: nat, b: nat, w: nat)
    requires a <= b
    ensures a * w <= b * w
  {
  }

  lemma ReservePotential(env: Env, s: State, i: nat, activity: Activity, count: nat, b: nat)
    requires i < |s.tasks| && s.tasks[i].phase.Started? && CanReserve(env, s.tasks[i].msg, activity, count)
    requires WithinBound(Reserve(i, activity, count), b)
    ensures count * SlotWeight(env, s.tasks[i].msg, activity, b) <= Weight(env, s.tasks[i].msg, b) - 1
  {
    var m := s.tasks[i].msg;
    if activity == FanOut {
      MulMono(count, b, SlotWeight(env, m, activity, b));
    }
  }

  lemma OneLess(n: nat, w: nat)
    requires n >= 1
    ensures (n - 1) * w + w == n * w
  {
  }

  lemma HandOverPotential(env: Env, s: State, i: nat, msg: Message, root: nat, b: nat)
    requires i < |s.tasks| && s.tasks[i].phase.Reserving? && s.tasks[i].phase.reserved >= 1
    ensures TotalPotential(env, HandOver(s, i, msg, root).tasks, b)
              + SlotWeight(env, s.tasks[i].msg, s.tasks[i].phase.activity, b)
         == TotalPotential(env, s.tasks, b) + Weight(env, msg, b)
  {
    var t := s.tasks[i];
    var p := t.phase;
    var left := t.(phase := Reserving(p.activity, p.reserved - 1, Idle));
    var child := Task(msg, {}, Published, root);
    PotentialUpdate(env, s.tasks, i, left, b);
    PotentialAppend(env, s.tasks[i := left], child, b);
    assert HandOver(s, i, msg, root).tasks == s.tasks[i := left] + [child];
    OneLess(p.reserved, SlotWeight(env, t.msg, p.activity, b));
  }

  lemma DeliverPotential(env: Env, s: State, i: nat, g: WorkerType, b: nat)
    requires i < |s.tasks| && TaskFits(s.tasks[i]) && g !in s.tasks[i].seenBy
    ensures TotalPotential(env, Delivered(s, i, g).tasks, b) + (if g == Owner(s.tasks[i].msg) then 1 else 0)
         == TotalPotential(env, s.tasks, b)
  {
    PotentialUpdate(env, s.tasks, i, Delivered(s, i, g).tasks[i], b);
  }

  lemma GiveBackPotential(env: Env, s: State, i: nat, b: nat)
    requires i < |s.tasks| && s.tasks[i].phase.Reserving? && s.tasks[i].phase.reserved >= 1
    ensures TotalPotential(env, GiveBack(s, i).tasks, b) <= TotalPotential(env, s.tasks, b)
  {
    var p := s.tasks[i].phase;
    PotentialUpdate(env, s.tasks, i, GiveBack(s, i).tasks[i], b);
    OneLess(p.reserved, SlotWeight(env, s.tasks[i].msg, p.activity, b));
  }

  lemma SetPhasePotential(env: Env, s: State, i: nat, phase: Phase, b: nat)
    requires i < |s.tasks|
    ensures TotalPotential(env, SetPhase(s, i, phase).tasks, b)
         == TotalPotential(env, s.tasks, b) - Potential(env, s.tasks[i], b)
            + Potential(env, s.tasks[i].(phase := phase), b)
  {
    PotentialUpdate(env, s.tasks, i, s.tasks[i].(phase := phase), b);
  }

  lemma PublishPotential(env: Env, s: State, step: Step, b: nat)
    requires Inv(s) && Activities(env, s) && Enabled(env, s, step)
    requires step.PublishLink? || step.PublishSeed? || step.PublishEscalated? || step.PublishAudio?
    ensures TotalPotential(env, Apply(env, s, step).tasks, b) <= TotalPotential(env, s.tasks, b)
  {
    var added, t := Added(env, s, step).value, s.tasks[step.i];
    assert ActivityFits(env, t) && TaskFits(t);
    HandOverPotential(env, s, step.i, added.msg, added.root, b);
    if step.PublishLink? || step.PublishSeed? {
      PageWeightIsMost(env, added.msg, b);
    }
  }

  lemma PhasePotential(env: Env, s: State, step: Step, b: nat)
    requires Enabled(env, s, step)
    requires step.MarkLink? || step.Raise? || step.SkipReplay? || step.Settle? || step.Crash?
    ensures TotalPotential(env, Apply(env, s, step).tasks, b) <= TotalPotential(env, s.tasks, b)
  {
    SetPhasePotential(env, s, step.i, Apply(env, s, step).tasks[step.i].phase, b);
  }

  /** No step of a submitted job raises the potential, and each message an owner starts on
      lowers it. */
  lemma StepPotential(env: Env, s: State, step: Step, b: nat)
    requires Inv(s) && Activities(env, s) && Enabled(env, s, step) && WithinBound(step, b)
    requires s.tasks != []
    ensures TotalPotential(env, Apply(env, s, step).tasks, b) + (if Starts(s, step) then 1 else 0)
         <= TotalPotential(env, s.tasks, b)
  {
    match step
    case PublishLink(_) => PublishPotential(env, s, step, b);
    case PublishSeed(_, _) => PublishPotential(env, s, step, b);
    case PublishEscalated(_) => PublishPotential(env, s, step, b);
    case PublishAudio(_) => PublishPotential(env, s, step, b);
    case Deliver(i, g) => DeliverPotential(env, s, i, g, b);
    case Reserve(i, activity, count) =>
      ReservePotential(env, s, i, activity, count, b);
      SetPhasePotential(env, s, i, Reserving(activity, count, Idle), b);
    case CheckLink(i, link) =>
      if env.keyOf(link) in s.visited {
        GiveBackPotential(env, s, i, b);
      } else {
        SetPhasePotential(env, s, i, s.tasks[i].phase.(stage := Checked(link)), b);
      }
    case ReturnSlot(i) => GiveBackPotential(env, s, i, b);
    case MarkLink(_) => PhasePotential(env, s, step, b);
    case Raise(_) => PhasePotential(env, s, step, b);
    case SkipReplay(_) => PhasePotential(env, s, step, b);
    case Settle(_) => PhasePotential(env, s, step, b);
    case Crash(_) => PhasePotential(env, s, step, b);
    case _ =>
  }

  predicate ActivityFits(env: Env, t: Task) {
    t.phase.Reserving? ==>
      match t.phase.activity
      case FanOut => t.msg.Search? || (FansOut(t.msg) && env.kindOf(t.msg.url).HtmlUrl?)
      case Escalation => MayEscalate(env, t.msg)
      case AudioHandOff => MayHandOff(env, t.msg)
  }

  /** Only pages that may escalate do, and only pages below their depth limit fan out. */
  predicate Activities(env: Env, s: State) {
    forall i :: 0 <= i < |s.tasks| ==> ActivityFits(env, s.tasks[i])
  }

  lemma SubjectActivity(env: Env, s: State, step: Step)
    requires Enabled(env, s, step) && 0 <= SubjectOf(step) < |s.tasks| && ActivityFits(env, s.tasks[SubjectOf(step)])
    ensures ActivityFits(env, Apply(env, s, step).tasks[SubjectOf(step)])
  {
  }

  lemma NewTaskPublished(env: Env, s: State, step: Step)
    requires Enabled(env, s, step)
    ensures |Apply(env, s, step).tasks| <= |s.tasks| + 1
    ensures |Apply(env, s, step).tasks| > |s.tasks| ==> Apply(env, s, step).tasks[|s.tasks|].phase.Published?
  {
  }

  lemma StepActivities(env: Env, s: State, step: Step)
    requires Activities(env, s) && Enabled(env, s, step)
    ensures Activities(env, Apply(env, s, step))
  {
    NewTaskPublished(env, s, step);
    forall j | 0 <= j < |Apply(env, s, step).tasks|
      ensures ActivityFits(env, Apply(env, s, step).tasks[j])
    {
      if j < |s.tasks| {
        assert ActivityFits(env, s.tasks[j]);
        if SubjectOf(step) == j {
          SubjectActivity(env, s, step);
        } else {
          OthersUnchanged(env, s, step, j);
        }
      }
    }
  }

  lemma StepKeepsTasks(env: Env, s: State, step: Step)
    requires Enabled(env, s, step)
    ensures |Apply(env, s, step).tasks| >= |s.tasks|
  {
  }

  predicate BoundedRun(steps: seq<Step>, b: nat) {
    forall k :: 0 <= k < |steps| ==> WithinBound(steps[k], b)
  }

  /** How many times an owner started on a message during the run. */
  function CountStarts(env: Env, s: State, steps: seq<Step>): nat
    requires CanRun(env, s, steps)
    decreases |steps|
  {
    if steps == [] then 0
    else (if Starts(s, steps[0]) then 1 else 0) + CountStarts(env, Apply(env, s, steps[0]), steps[1..])
  }

  lemma {:induction false} RunPotential(env: Env, s: State, steps: seq<Step>, b: nat)
    requires Inv(s) && Activities(env, s) && s.tasks != [] && CanRun(env, s, steps) && BoundedRun(steps, b)
    ensures TotalPotential(env, Run(env, s, steps).tasks, b) + CountStarts(env, s, steps)
         <= TotalPotential(env, s.tasks, b)
    decreases |steps|
  {
    if steps != [] {
      var s' := Apply(env, s, steps[0]);
      assert WithinBound(steps[0], b);
      StepPotential(env, s, steps[0], b);
      StepInv(env, s, steps[0]);
      StepActivities(env, s, steps[0]);
      StepKeepsTasks(env, s, steps[0]);
      RunPotential(env, s', steps[1..], b);
    }
  }

  /** No message the API publishes during the run weighs more than w. */
  predicate RootsWeigh(env: Env, steps: seq<Step>, b: nat, w: nat) {
    forall k :: 0 <= k < |steps| && steps[k].ApiPublish? ==> Weight(env, steps[k].msg, b) <= w
  }

  /** However a job's run interleaves, at most Weight(env, root) messages are ever started on.
      A submitted URL without any link to follow weighs at most 2: the page and either its
      escalated copy or an audio hand-off. */
  lemma CrawlIsBounded(env: Env, s0: State, steps: seq<Step>, b: nat, w: nat)
    requires Fresh(s0) && CanRun(env, s0, steps) && BoundedRun(steps, b)
    requires RootsWeigh(env, steps, b, w)
    ensures CountStarts(env, s0, steps) <= w
  {
    assert Inv(s0) && s0.tasks == [] by {
      FreshInv(s0);
    }
    UnsubmittedIsBounded(env, s0, steps, b, w);
  }

  lemma {:induction false} UnsubmittedIsBounded(env: Env, s: State, steps: seq<Step>, b: nat, w: nat)
    requires Inv(s) && s.tasks == [] && CanRun(env, s, steps) && BoundedRun(steps, b)
    requires RootsWeigh(env, steps, b, w)
    ensures CountStarts(env, s, steps) <= w
    decreases |steps|
  {
    if steps != [] {
      var s' := Apply(env, s, steps[0]);
      StepInv(env, s, steps[0]);
      StepActivities(env, s, steps[0]);
      if steps[0].ApiPublish? {
        RunPotential(env, s', steps[1..], b);
        assert s'.tasks == [s'.tasks[0]];
        TotalOne(s'.tasks[0], PotentialOf(env, b));
      } else {
        UnsubmittedIsBounded(env, s', steps[1..], b, w);
      }
    }
  }
}
