/** What every published page of a job has in common with the seed it descends from. */
module CrawlScopeRuns {
  import opened Common
  import opened Messages
  import opened CrawlProtocol

  /** A page below the seed was accepted by the scope filter of its own recursive_config,
      and that config, like the depth limit, is the seed's and has its defaults filled in. */
  predicate PageInScope(env: Env, tasks: seq<Task>, t: Task) {
    t.msg.Page? ==>
      && t.root < |tasks|
      && tasks[t.root].msg.Page?
      && tasks[t.root].msg.depth == 0
      && t.msg.config == tasks[t.root].msg.config
      && t.msg.config.seedUrl.Some? && t.msg.config.sameDomainOnly.Some?
      && t.msg.maxDepth == tasks[t.root].msg.maxDepth
      && (t.msg.depth == 0 ==> t.msg.url == tasks[t.root].msg.url)
      && (t.msg.depth != 0 ==> 0 < t.msg.depth <= t.msg.maxDepth && env.accepts(t.msg.config, t.msg.url))
  }

  predicate StageInScope(env: Env, t: Task) {
    && (t.phase.Reserving? && t.phase.stage.Checked? ==>
          t.phase.activity == FanOut && t.msg.Page? && env.accepts(FilterConfig(t.msg), t.phase.stage.link))
    && (t.phase.Reserving? && t.phase.stage.Marked? ==>
          t.phase.activity == FanOut && t.msg.Page? && env.accepts(FilterConfig(t.msg), t.phase.stage.link))
    && (t.phase.Reserving? && t.phase.activity == FanOut && t.msg.Page? ==> t.msg.depth < t.msg.maxDepth)
  }

  predicate ScopeInv(env: Env, s: State) {
    forall i :: 0 <= i < |s.tasks| ==>
      PageInScope(env, s.tasks, s.tasks[i]) && StageInScope(env, s.tasks[i])
  }

  /** Adding a task or changing phases keeps the messages where they are. */
  predicate SameMessages(before: seq<Task>, after: seq<Task>) {
    && |before| <= |after|
    && forall i :: 0 <= i < |before| ==> after[i].msg == before[i].msg && after[i].root == before[i].root
  }

  lemma KeepsMessages(env: Env, s: State, step: Step)
    requires Enabled(env, s, step)
    ensures SameMessages(s.tasks, Apply(env, s, step).tasks)
    ensures |Apply(env, s, step).tasks| <= |s.tasks| + 1
  {
  }

  lemma PagesKept(env: Env, before: seq<Task>, after: seq<Task>, j: nat)
    requires SameMessages(before, after) && j < |before|
    requires PageInScope(env, before, before[j])
    ensures PageInScope(env, after, after[j])
  {
  }

  lemma StagesKept(env: Env, s: State, step: Step, j: nat)
    requires ScopeInv(env, s) && Enabled(env, s, step) && j < |s.tasks|
    ensures StageInScope(env, Apply(env, s, step).tasks[j])
  {
    assert StageInScope(env, s.tasks[j]);
    if SubjectOf(step) != j {
      OthersUnchanged(env, s, step, j);
    } else {
      SubjectInScope(env, s, step);
    }
  }

  lemma SubjectInScope(env: Env, s: State, step: Step)
    requires Enabled(env, s, step) && 0 <= SubjectOf(step) < |s.tasks|
    requires StageInScope(env, s.tasks[SubjectOf(step)])
    ensures StageInScope(env, Apply(env, s, step).tasks[SubjectOf(step)])
  {
  }

  /** The message a step adds, judged by the messages there were. */
  lemma NewPage(env: Env, s: State, step: Step, tasks: seq<Task>)
    requires ScopeInv(env, s) && Enabled(env, s, step) && Added(env, s, step).Some?
    requires SameMessages(s.tasks, tasks) && |tasks| == |s.tasks| + 1
    requires tasks[|s.tasks|] == Added(env, s, step).value
    ensures PageInScope(env, tasks, tasks[|s.tasks|]) && StageInScope(env, tasks[|s.tasks|])
  {
    match step
    case PublishLink(i) => assert PageInScope(env, s.tasks, s.tasks[i]) && StageInScope(env, s.tasks[i]);
    case PublishEscalated(i) => assert PageInScope(env, s.tasks, s.tasks[i]);
    case _ =>
  }

  lemma StepScope(env: Env, s: State, step: Step)
    requires ScopeInv(env, s) && Enabled(env, s, step)
    ensures ScopeInv(env, Apply(env, s, step))
  {
    var tasks := Apply(env, s, step).tasks;
    KeepsMessages(env, s, step);
    forall j | 0 <= j < |tasks|
      ensures PageInScope(env, tasks, tasks[j]) && StageInScope(env, tasks[j])
    {
      if j < |s.tasks| {
        PagesKept(env, s.tasks, tasks, j);
        StagesKept(env, s, step, j);
      } else {
        AddedIsNew(env, s, step);
        NewPage(env, s, step, tasks);
      }
    }
  }

  /** In every run, every page at any depth carries its seed's config and depth limit, lies
      within the limit, and below the seed was let through by the scope filter. */
  lemma {:induction false} RunScope(env: Env, s: State, steps: seq<Step>)
    requires ScopeInv(env, s) && CanRun(env, s, steps)
    ensures ScopeInv(env, Run(env, s, steps))
    decreases |steps|
  {
    if steps != [] {
      StepScope(env, s, steps[0]);
      RunScope(env, Apply(env, s, steps[0]), steps[1..]);
    }
  }

  lemma ReachedScope(env: Env, s0: State, steps: seq<Step>)
    requires Fresh(s0) && CanRun(env, s0, steps)
    ensures ScopeInv(env, Run(env, s0, steps))
  {
    assert ScopeInv(env, s0);
    RunScope(env, s0, steps);
  }

  // ---------------------------------------------------------------------
  // The seed of a submission that names none
  // ---------------------------------------------------------------------

  /** The submission left seed_url to the defaults, which fill in the root page's own URL. */
  predicate NamesNoSeed(m: Message) {
    (m.Search? ==> m.searchConfig.seedUrl.None?) && (m.Page? ==> m.config.seedUrl == Some(m.url))
  }

  predicate OwnSeed(tasks: seq<Task>, t: Task) {
    && (t.msg.Search? ==> t.msg.searchConfig.seedUrl.None?)
    && (t.msg.Page? ==> t.root < |tasks| && tasks[t.root].msg.Page?
                        && t.msg.config.seedUrl == Some(tasks[t.root].msg.url))
  }

  predicate OwnSeeds(s: State) {
    forall i :: 0 <= i < |s.tasks| ==> OwnSeed(s.tasks, s.tasks[i])
  }

  lemma NewOwnSeed(env: Env, s: State, step: Step, tasks: seq<Task>)
    requires OwnSeeds(s) && Enabled(env, s, step) && Added(env, s, step).Some?
    requires SameMessages(s.tasks, tasks) && |tasks| == |s.tasks| + 1
    requires tasks[|s.tasks|] == Added(env, s, step).value && (step.ApiPublish? ==> NamesNoSeed(step.msg))
    ensures OwnSeed(tasks, tasks[|s.tasks|])
  {
    match step
    case PublishLink(i) => assert OwnSeed(s.tasks, s.tasks[i]);
    case PublishSeed(i, _) => assert OwnSeed(s.tasks, s.tasks[i]);
    case PublishEscalated(i) => assert OwnSeed(s.tasks, s.tasks[i]);
    case _ =>
  }

  lemma StepOwnSeeds(env: Env, s: State, step: Step)
    requires OwnSeeds(s) && Enabled(env, s, step) && (step.ApiPublish? ==> NamesNoSeed(step.msg))
    ensures OwnSeeds(Apply(env, s, step))
  {
    var tasks := Apply(env, s, step).tasks;
    KeepsMessages(env, s, step);
    forall j | 0 <= j < |tasks|
      ensures OwnSeed(tasks, tasks[j])
    {
      if j < |s.tasks| {
        assert OwnSeed(s.tasks, s.tasks[j]) && tasks[j].msg == s.tasks[j].msg;
      } else {
        AddedIsNew(env, s, step);
        NewOwnSeed(env, s, step, tasks);
      }
    }
  }

  /** When no submission of the job names a seed, every page is scoped to the URL of the
      depth-0 page it descends from. */
  lemma {:induction false} RunOwnSeeds(env: Env, s: State, steps: seq<Step>)
    requires OwnSeeds(s) && CanRun(env, s, steps)
    requires forall k :: 0 <= k < |steps| && steps[k].ApiPublish? ==> NamesNoSeed(steps[k].msg)
    ensures OwnSeeds(Run(env, s, steps))
    decreases |steps|
  {
    if steps != [] {
      StepOwnSeeds(env, s, steps[0]);
      RunOwnSeeds(env, Apply(env, s, steps[0]), steps[1..]);
    }
  }

  // ---------------------------------------------------------------------
  // Escalations
  // ---------------------------------------------------------------------

  /** Only the copy sent to the deep worker has been retried, and only once. */
  predicate RetriedOnce(m: Message) {
    m.Page? ==> m.retryCount == 0 || (m.retryCount == 1 && m.owner == Deep)
  }

  predicate RetryOk(t: Task) {
    RetriedOnce(t.msg) && (t.phase.Reserving? && t.phase.activity == Escalation ==> t.msg.Page? && t.msg.owner != Deep)
  }

  predicate RetriesOk(s: State) {
    forall i :: 0 <= i < |s.tasks| ==> RetryOk(s.tasks[i])
  }

  lemma SubjectRetryOk(env: Env, s: State, step: Step)
    requires Enabled(env, s, step) && 0 <= SubjectOf(step) < |s.tasks| && RetryOk(s.tasks[SubjectOf(step)])
    ensures RetryOk(Apply(env, s, step).tasks[SubjectOf(step)])
  {
  }

  lemma AddedRetryOk(env: Env, s: State, step: Step)
    requires RetriesOk(s) && Enabled(env, s, step) && Added(env, s, step).Some?
    ensures RetryOk(Added(env, s, step).value)
  {
    if step.PublishEscalated? {
      assert RetryOk(s.tasks[step.i]);
    }
  }

  lemma StepRetries(env: Env, s: State, step: Step)
    requires RetriesOk(s) && Enabled(env, s, step)
    ensures RetriesOk(Apply(env, s, step))
  {
    var tasks := Apply(env, s, step).tasks;
    KeepsMessages(env, s, step);
    AddedIsNew(env, s, step);
    forall j | 0 <= j < |tasks|
      ensures RetryOk(tasks[j])
    {
      if j == SubjectOf(step) {
        SubjectRetryOk(env, s, step);
      } else if j < |s.tasks| {
        OthersUnchanged(env, s, step, j);
      } else {
        AddedRetryOk(env, s, step);
      }
    }
  }

  lemma {:induction false} RunRetries(env: Env, s: State, steps: seq<Step>)
    requires RetriesOk(s) && CanRun(env, s, steps)
    ensures RetriesOk(Run(env, s, steps))
    decreases |steps|
  {
    if steps != [] {
      StepRetries(env, s, steps[0]);
      RunRetries(env, Apply(env, s, steps[0]), steps[1..]);
    }
  }

  /** The retry budget is never what stops an escalation: in every run of a new job a page may be
      escalated exactly when it is not the deep worker's and is fetched as a page. */
  lemma BudgetIsNeverUsedUp(env: Env, s: State, steps: seq<Step>, i: nat)
    requires Fresh(s) && CanRun(env, s, steps) && i < |Run(env, s, steps).tasks|
    ensures var m := Run(env, s, steps).tasks[i].msg;
            && RetriedOnce(m)
            && (MayEscalate(env, m) <==> m.Page? && m.owner != Deep && env.kindOf(m.url).HtmlUrl?)
  {
    RunRetries(env, s, steps);
    assert RetryOk(Run(env, s, steps).tasks[i]);
  }
}
