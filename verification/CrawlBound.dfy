/** The bound on the work of a crawl is the best possible one. */
module CrawlBound {
  import opened Common
  import opened JobRow
  import opened Messages
  import opened CrawlProtocol
  import opened CrawlScopeRuns
  import opened SlotConservation
  import opened CrawlTermination

  // ---------------------------------------------------------------------
  // Sites with enough links
  // ---------------------------------------------------------------------

  predicate Follows(env: Env, config: CrawlConfig, taken: set<Text>, link: Text) {
    env.accepts(config, link) && env.keyOf(link) !in taken
  }

  ghost predicate HasMore(env: Env, config: CrawlConfig, taken: set<Text>) {
    exists link :: Follows(env, config, taken, link)
  }

  /** What is in scope is fetched as a page, by the surface worker first, and there is always
      more of it. */
  ghost predicate Plentiful(env: Env) {
    && (forall config, u :: env.accepts(config, u) ==> env.kindOf(u).HtmlUrl? && env.assign(u) == Surface)
    && (forall config, taken: set<Text> :: HasMore(env, config, taken))
  }

  /** Whatever kind of URL the root is, there is such an environment. */
  function OpenEnv(root: Text, kind: UrlKind): Env {
    Env((u: Text) => u, (c: CrawlConfig, u: Text) => u != root, (u: Text) => Surface,
        (u: Text) => if u == root then kind else HtmlUrl)
  }

  lemma {:induction false} LongerThanAll(taken: set<Text>) returns (n: nat)
    ensures forall t :: t in taken ==> |t| < n
    decreases taken
  {
    if taken == {} {
      n := 0;
    } else {
      var t :| t in taken;
      var m := LongerThanAll(taken - {t});
      n := Max(m, |t| + 1);
      assert forall u :: u in taken ==> u == t || u in taken - {t};
    }
  }

  lemma OpenEnvIsPlentiful(root: Text, kind: UrlKind)
    ensures Plentiful(OpenEnv(root, kind)) && OpenEnv(root, kind).kindOf(root) == kind
  {
    var env := OpenEnv(root, kind);
    forall config, taken: set<Text>
      ensures HasMore(env, config, taken)
    {
      var n := LongerThanAll(taken + {root});
      var link: Text := seq(n, _ => 0);
      assert Follows(env, config, taken, link);
    }
  }

  // ---------------------------------------------------------------------
  // Steps that waste nothing
  // ---------------------------------------------------------------------

  predicate Steady(env: Env, s: State) {
    Inv(s) && Activities(env, s) && ScopeInv(env, s)
  }

  /** How far a task is from handing its next message to its owner. */
  function Distance(t: Task): nat {
    match t.phase
    case Published => 1
    case Started => 5
    case Reserving(_, _, stage) => if stage.Marked? then 2 else if stage.Checked? then 3 else 4
    case _ => 0
  }

  /** The step keeps all potential, up to the message it starts on. */
  predicate Wasteless(env: Env, s: State, step: Step, b: nat) {
    && Enabled(env, s, step) && WithinBound(step, b) && !step.ApiPublish?
    && TotalPotential(env, Apply(env, s, step).tasks, b) + (if Starts(s, step) then 1 else 0)
       == TotalPotential(env, s.tasks, b)
  }

  /** Task j of the next state is closer to an owner than task i was, and has work left. */
  predicate Handed(env: Env, s: State, i: nat, step: Step, j: nat, b: nat)
    requires i < |s.tasks| && Enabled(env, s, step)
  {
    var tasks := Apply(env, s, step).tasks;
    && !Starts(s, step) && j < |tasks| && Potential(env, tasks[j], b) > 0
    && Distance(tasks[j]) < Distance(s.tasks[i])
  }

  lemma DeliverStep(env: Env, s: State, i: nat, b: nat) returns (step: Step)
    requires i < |s.tasks| && TaskFits(s.tasks[i]) && s.tasks[i].phase.Published?
    ensures Wasteless(env, s, step, b) && Starts(s, step)
  {
    step := Deliver(i, Owner(s.tasks[i].msg));
    DeliverPotential(env, s, i, Owner(s.tasks[i].msg), b);
  }

  lemma TimesAtLeast(b: nat, w: nat)
    requires b >= 1
    ensures b * w >= w
  {
    MulMono(1, b, w);
  }

  /** The activity that uses up all that a page can still cause. */
  lemma BestActivity(env: Env, m: Message, b: nat) returns (activity: Activity, count: nat)
    requires Weight(env, m, b) > 1
    ensures CanReserve(env, m, activity, count) && (activity == FanOut ==> count <= b)
    ensures count * SlotWeight(env, m, activity, b) == Weight(env, m, b) - 1
  {
    activity, count := AudioHandOff, 1;
    if m.Search? {
      activity, count := FanOut, b;
    } else if m.Page? && env.kindOf(m.url).HtmlUrl? {
      var k := LevelsBelow(m.config, m.depth, m.maxDepth);
      if MayEscalate(env, m) {
        activity := Escalation;
      } else if k >= 1 && b >= 1 {
        activity, count := FanOut, b;
        TimesAtLeast(b, PageWeight(k - 1, b));
      }
    }
  }

  lemma ReserveStep(env: Env, s: State, i: nat, b: nat) returns (step: Step)
    requires i < |s.tasks| && s.tasks[i].phase.Started? && Potential(env, s.tasks[i], b) > 0
    ensures Wasteless(env, s, step, b) && Handed(env, s, i, step, i, b)
  {
    var activity, count := BestActivity(env, s.tasks[i].msg, b);
    step := Reserve(i, activity, count);
    SetPhasePotential(env, s, i, Reserving(activity, count, Idle), b);
  }

  /** Looking at a link and marking it changes no potential. */
  lemma StageStep(env: Env, s: State, i: nat, step: Step, stage: Stage, b: nat)
    requires i < |s.tasks| && s.tasks[i].phase.Reserving? && Potential(env, s.tasks[i], b) > 0
    requires Enabled(env, s, step) && (step == MarkLink(i) || (step.CheckLink? && step.i == i))
    requires Apply(env, s, step).tasks == SetPhase(s, i, s.tasks[i].phase.(stage := stage)).tasks
    requires Distance(s.tasks[i].(phase := s.tasks[i].phase.(stage := stage))) < Distance(s.tasks[i])
    ensures Wasteless(env, s, step, b) && Handed(env, s, i, step, i, b)
  {
    SetPhasePotential(env, s, i, s.tasks[i].phase.(stage := stage), b);
  }

  predicate FollowsLinks(env: Env, s: State, i: nat) {
    && i < |s.tasks| && s.tasks[i].msg.Page? && s.tasks[i].phase.Reserving?
    && s.tasks[i].phase.reserved >= 1 && s.tasks[i].phase.activity == FanOut
    && TaskFits(s.tasks[i]) && ActivityFits(env, s.tasks[i])
  }

  lemma LinkStep(env: Env, s: State, i: nat, next: Text, b: nat) returns (step: Step, j: nat)
    requires FollowsLinks(env, s, i) && Potential(env, s.tasks[i], b) > 0
    requires Follows(env, FilterConfig(s.tasks[i].msg), s.visited, next)
    requires s.tasks[i].phase.stage.Marked? ==> SurfacePage(env, s.tasks[i].phase.stage.link)
    ensures Wasteless(env, s, step, b) && Handed(env, s, i, step, j, b)
  {
    var stage := s.tasks[i].phase.stage;
    j := i;
    if stage.Idle? {
      step := CheckLink(i, next);
      StageStep(env, s, i, step, Checked(next), b);
    } else if stage.Checked? {
      step := MarkLink(i);
      StageStep(env, s, i, step, Marked(stage.link), b);
    } else {
      step, j := PublishLink(i), |s.tasks|;
      ChildStep(env, s, i, b);
    }
  }

  /** Fetched as a page, and by the surface worker first. */
  predicate SurfacePage(env: Env, url: Text) {
    env.kindOf(url).HtmlUrl? && env.assign(url) == Surface
  }

  lemma SurfacePageWeighsMost(env: Env, m: Message, b: nat)
    requires m.Page? && m.owner == Surface && m.retryCount == 0 && env.kindOf(m.url).HtmlUrl?
    ensures Weight(env, m, b) == PageWeight(LevelsBelow(m.config, m.depth, m.maxDepth), b)
  {
  }

  lemma ChildStep(env: Env, s: State, i: nat, b: nat)
    requires FollowsLinks(env, s, i)
    requires s.tasks[i].phase.stage.Marked? && SurfacePage(env, s.tasks[i].phase.stage.link)
    ensures Wasteless(env, s, PublishLink(i), b) && Handed(env, s, i, PublishLink(i), |s.tasks|, b)
  {
    var t := s.tasks[i];
    var child := ChildPage(t.msg, t.phase.stage.link, Surface);
    SurfacePageWeighsMost(env, child, b);
    HandOverPotential(env, s, i, child, t.root, b);
  }

  lemma SeedStep(env: Env, s: State, i: nat, url: Text, b: nat)
    requires InPhase(s, i, FanOut, Idle) && s.tasks[i].msg.Search? && SurfacePage(env, url)
    ensures Wasteless(env, s, PublishSeed(i, url), b) && Handed(env, s, i, PublishSeed(i, url), |s.tasks|, b)
  {
    var seed := SeedPage(s.tasks[i].msg, url, Surface);
    SurfacePageWeighsMost(env, seed, b);
    HandOverPotential(env, s, i, seed, |s.tasks|, b);
  }

  lemma EscalateStep(env: Env, s: State, i: nat, b: nat)
    requires InPhase(s, i, Escalation, Idle) && MayEscalate(env, s.tasks[i].msg)
    ensures Wasteless(env, s, PublishEscalated(i), b) && Handed(env, s, i, PublishEscalated(i), |s.tasks|, b)
  {
    HandOverPotential(env, s, i, EscalatedPage(s.tasks[i].msg), s.tasks[i].root, b);
  }

  lemma AudioStep(env: Env, s: State, i: nat, b: nat)
    requires InPhase(s, i, AudioHandOff, Idle) && s.tasks[i].msg.Page?
    ensures Wasteless(env, s, PublishAudio(i), b) && Handed(env, s, i, PublishAudio(i), |s.tasks|, b)
  {
    HandOverPotential(env, s, i, Audio(s.tasks[i].msg.url), s.tasks[i].root, b);
  }

  /** The keys of the pages a job has so far. */
  function Keys(env: Env, tasks: seq<Task>): set<Text> {
    if tasks == [] then {}
    else Keys(env, tasks[1..]) + (if tasks[0].msg.Page? then {env.keyOf(tasks[0].msg.url)} else {})
  }

  /** A link or seed of a key no page of the job has, which the surface worker fetches. */
  lemma NewPage(env: Env, config: CrawlConfig, taken: set<Text>) returns (url: Text)
    requires Plentiful(env)
    ensures Follows(env, config, taken, url) && SurfacePage(env, url)
  {
    assert HasMore(env, config, taken);
    url :| Follows(env, config, taken, url);
  }

  lemma StagedPage(env: Env, t: Task)
    requires Plentiful(env) && StageInScope(env, t) && t.phase.Reserving? && t.phase.stage.Marked?
    ensures SurfacePage(env, t.phase.stage.link)
  {
  }

  lemma PublishStep(env: Env, s: State, i: nat, b: nat) returns (step: Step, j: nat)
    requires Plentiful(env) && Steady(env, s) && i < |s.tasks|
    requires s.tasks[i].phase.Reserving? && s.tasks[i].phase.reserved >= 1 && Potential(env, s.tasks[i], b) > 0
    ensures Wasteless(env, s, step, b) && Handed(env, s, i, step, j, b)
  {
    var t := s.tasks[i];
    assert TaskFits(t) && ActivityFits(env, t) && StageInScope(env, t);
    j := |s.tasks|;
    match t.phase.activity
    case Escalation =>
      step := PublishEscalated(i);
      EscalateStep(env, s, i, b);
    case AudioHandOff =>
      step := PublishAudio(i);
      AudioStep(env, s, i, b);
    case FanOut =>
      if t.msg.Search? {
        var url := NewPage(env, t.msg.searchConfig, Keys(env, s.tasks));
        step := PublishSeed(i, url);
        SeedStep(env, s, i, url, b);
      } else {
        if t.phase.stage.Marked? {
          StagedPage(env, t);
        }
        var next := NewPage(env, FilterConfig(t.msg), s.visited);
        step, j := LinkStep(env, s, i, next, b);
      }
  }

  lemma NextStep(env: Env, s: State, i: nat, b: nat) returns (step: Step, j: nat)
    requires Plentiful(env) && Steady(env, s) && i < |s.tasks| && Potential(env, s.tasks[i], b) > 0
    ensures Wasteless(env, s, step, b)
    ensures Starts(s, step) || Handed(env, s, i, step, j, b)
  {
    j := i;
    if s.tasks[i].phase.Published? {
      assert TaskFits(s.tasks[i]);
      step := DeliverStep(env, s, i, b);
    } else if s.tasks[i].phase.Started? {
      step := ReserveStep(env, s, i, b);
    } else {
      step, j := PublishStep(env, s, i, b);
    }
  }

  // ---------------------------------------------------------------------
  // Runs that waste nothing
  // ---------------------------------------------------------------------

  /** A run that turns all the potential it uses up into starts. */
  predicate WastelessRun(env: Env, s: State, steps: seq<Step>, end: State, b: nat) {
    && CanRun(env, s, steps) && Run(env, s, steps) == end && BoundedRun(steps, b)
    && (forall k :: 0 <= k < |steps| ==> !steps[k].ApiPublish?)
    && TotalPotential(env, end.tasks, b) + CountStarts(env, s, steps) == TotalPotential(env, s.tasks, b)
  }

  lemma OneMore(env: Env, s: State, step: Step, rest: seq<Step>, end: State, b: nat)
    requires Wasteless(env, s, step, b) && WastelessRun(env, Apply(env, s, step), rest, end, b)
    ensures WastelessRun(env, s, [step] + rest, end, b)
    ensures CountStarts(env, s, [step] + rest)
         == (if Starts(s, step) then 1 else 0) + CountStarts(env, Apply(env, s, step), rest)
  {
    var steps := [step] + rest;
    assert steps[0] == step && steps[1..] == rest;
  }

  lemma NoMore(env: Env, s: State, b: nat)
    ensures WastelessRun(env, s, [], s, b) && CountStarts(env, s, []) == 0
  {
  }

  lemma StepSteady(env: Env, s: State, step: Step)
    requires Steady(env, s) && Enabled(env, s, step)
    ensures Steady(env, Apply(env, s, step))
  {
    StepInv(env, s, step);
    StepActivities(env, s, step);
    StepScope(env, s, step);
  }

  /** Task i is driven on until it, or the message it publishes, is started on. */
  lemma {:induction false} Drive(env: Env, s: State, i: nat, b: nat) returns (steps: seq<Step>, end: State)
    requires Plentiful(env) && Steady(env, s) && i < |s.tasks| && Potential(env, s.tasks[i], b) > 0
    ensures WastelessRun(env, s, steps, end, b) && Steady(env, end) && CountStarts(env, s, steps) >= 1
    decreases Distance(s.tasks[i])
  {
    var step, j := NextStep(env, s, i, b);
    var s' := Apply(env, s, step);
    StepSteady(env, s, step);
    if Starts(s, step) {
      NoMore(env, s', b);
      OneMore(env, s, step, [], s', b);
      steps, end := [step] + [], s';
    } else {
      var rest;
      rest, end := Drive(env, s', j, b);
      OneMore(env, s, step, rest, end, b);
      steps := [step] + rest;
    }
  }

  lemma {:induction false} PositiveTask(env: Env, tasks: seq<Task>, b: nat) returns (i: nat)
    requires TotalPotential(env, tasks, b) > 0
    ensures i < |tasks| && Potential(env, tasks[i], b) > 0
  {
    if Potential(env, tasks[0], b) > 0 {
      i := 0;
    } else {
      var j := PositiveTask(env, tasks[1..], b);
      i := j + 1;
    }
  }

  lemma {:induction false} CountStartsAppend(env: Env, s: State, x: seq<Step>, y: seq<Step>)
    requires CanRun(env, s, x) && CanRun(env, Run(env, s, x), y)
    ensures CanRun(env, s, x + y)
    ensures CountStarts(env, s, x + y) == CountStarts(env, s, x) + CountStarts(env, Run(env, s, x), y)
    decreases |x|
  {
    if x == [] {
      assert x + y == y;
    } else {
      CountStartsAppend(env, Apply(env, s, x[0]), x[1..], y);
      assert (x + y)[0] == x[0] && (x + y)[1..] == x[1..] + y;
    }
  }

  lemma Then(env: Env, s: State, x: seq<Step>, mid: State, y: seq<Step>, end: State, b: nat)
    requires WastelessRun(env, s, x, mid, b) && WastelessRun(env, mid, y, end, b)
    ensures WastelessRun(env, s, x + y, end, b)
  {
    RunAppend(env, s, x, y);
    CountStartsAppend(env, s, x, y);
    forall k | 0 <= k < |x + y|
      ensures WithinBound((x + y)[k], b) && !(x + y)[k].ApiPublish?
    {
      assert (x + y)[k] == if k < |x| then x[k] else y[k - |x|];
    }
  }

  lemma {:induction false} Exhaust(env: Env, s: State, b: nat) returns (steps: seq<Step>, end: State)
    requires Plentiful(env) && Steady(env, s)
    ensures WastelessRun(env, s, steps, end, b) && TotalPotential(env, end.tasks, b) == 0
    decreases TotalPotential(env, s.tasks, b)
  {
    if TotalPotential(env, s.tasks, b) == 0 {
      steps, end := [], s;
      NoMore(env, s, b);
    } else {
      var i := PositiveTask(env, s.tasks, b);
      var first, mid := Drive(env, s, i, b);
      var rest;
      rest, end := Exhaust(env, mid, b);
      Then(env, s, first, mid, rest, end, b);
      steps := first + rest;
    }
  }

  // ---------------------------------------------------------------------
  // The bound is attained
  // ---------------------------------------------------------------------

  function Submitted(root: Message): State {
    State(Row(Pending, None, 1, false), 0, [Task(root, {}, Published, 0)], {}, 0, None)
  }

  lemma SubmittedReached(env: Env, s0: State, root: Message) returns (steps: seq<Step>)
    requires Fresh(s0) && IsRoot(root)
    ensures CanRun(env, s0, steps) && Run(env, s0, steps) == Submitted(root)
    ensures CountStarts(env, s0, steps) == 0
    ensures forall k :: 0 <= k < |steps| ==> !steps[k].Reserve? && (steps[k].ApiPublish? ==> steps[k].msg == root)
  {
    var s1 := s0.(row := s0.row.(activeTasks := 1), apiSlots := 1);
    steps := [ApiRegister, ApiPublish(root)];
    RunTwo(env, s0, steps, s1, Submitted(root));
    assert steps[1..] == [ApiPublish(root)] && steps[1..][1..] == [];
    assert CountStarts(env, s1, steps[1..]) == CountStarts(env, Submitted(root), []) == 0;
  }

  /** For every root page or search and every b some run of a fresh job, in which no page yields
      more than b links, starts on exactly Weight(root) messages, wherever there are links
      enough: CrawlIsBounded cannot be improved. */
  lemma BoundIsAttained(env: Env, s0: State, root: Message, b: nat) returns (steps: seq<Step>)
    requires Fresh(s0) && IsRoot(root) && Plentiful(env)
    ensures CanRun(env, s0, steps) && BoundedRun(steps, b)
    ensures forall k :: 0 <= k < |steps| && steps[k].ApiPublish? ==> steps[k].msg == root
    ensures CountStarts(env, s0, steps) == Weight(env, root, b)
  {
    var first := SubmittedReached(env, s0, root);
    ReachedInv(env, s0, first);
    ReachedScope(env, s0, first);
    var rest, end := Exhaust(env, Submitted(root), b);
    TotalOne(Submitted(root).tasks[0], PotentialOf(env, b));
    CountStartsAppend(env, s0, first, rest);
    steps := first + rest;
    forall k | 0 <= k < |steps|
      ensures WithinBound(steps[k], b) && (steps[k].ApiPublish? ==> steps[k].msg == root)
    {
      assert steps[k] == if k < |first| then first[k] else rest[k - |first|];
    }
  }

  /** In particular for every message and every kind of URL it can have. */
  lemma BoundIsAttainedSomewhere(s0: State, root: Message, kind: UrlKind, b: nat) returns (env: Env, steps: seq<Step>)
    requires Fresh(s0) && IsRoot(root)
    ensures root.Page? ==> env.kindOf(root.url) == kind
    ensures CanRun(env, s0, steps) && BoundedRun(steps, b)
    ensures CountStarts(env, s0, steps) == Weight(env, root, b)
  {
    var url := if root.Page? then root.url else [];
    env := OpenEnv(url, kind);
    OpenEnvIsPlentiful(url, kind);
    steps := BoundIsAttained(env, s0, root, b);
  }

  // ---------------------------------------------------------------------
  // Depth and links alone
  // ---------------------------------------------------------------------

  /** One message for every page of a full tree of k levels. */
  function PagesOfTree(k: nat, b: nat): nat {
    if k == 0 then 1 else 1 + b * PagesOfTree(k - 1, b)
  }

  lemma TimesLess(b: nat, x: nat, y: nat)
    requires x < y
    ensures b * x <= b * y && (b > 0 ==> b * x < b * y)
  {
    if b > 0 {
      assert b * y - b * x == b * (y - x);
    }
  }

  lemma {:induction false} TreeIsSmaller(k: nat, b: nat)
    ensures PagesOfTree(k, b) < PageWeight(k, b)
  {
    if k > 0 {
      TreeIsSmaller(k - 1, b);
      TimesLess(b, PagesOfTree(k - 1, b), PageWeight(k - 1, b));
    }
  }

  /** How the most messages of a job compare with the pages of the tree that depth and links
      allow: a submitted page can start more, except one of the deep worker with nothing below
      it, which starts only itself. With nothing below it any other page can start on 2. */
  lemma TreeIsExceeded(env: Env, s0: State, root: Message, b: nat) returns (steps: seq<Step>)
    requires Fresh(s0) && IsRoot(root) && root.Page? && env.kindOf(root.url).HtmlUrl? && Plentiful(env)
    ensures CanRun(env, s0, steps) && BoundedRun(steps, b)
    ensures forall k :: 0 <= k < |steps| && steps[k].ApiPublish? ==> steps[k].msg == root
    ensures var k, starts := LevelsBelow(root.config, root.depth, root.maxDepth), CountStarts(env, s0, steps);
            && (starts > PagesOfTree(k, b) <==> root.owner != Deep || (k >= 1 && b >= 1))
            && (k == 0 ==> starts == if root.owner == Deep then 1 else 2)
  {
    var k := LevelsBelow(root.config, root.depth, root.maxDepth);
    steps := BoundIsAttained(env, s0, root, b);
    if k > 0 {
      TreeIsSmaller(k - 1, b);
      TimesLess(b, PagesOfTree(k - 1, b), PageWeight(k - 1, b));
    }
  }
}
