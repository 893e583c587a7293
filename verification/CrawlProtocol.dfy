/** One crawl job as a state machine: the jobs row, the messages published for the job, what
    the worker that owns each message is doing, and the dedup set. Every step is one atomic
    database, broker or Redis operation, so a run is an arbitrary interleaving of them. */
module CrawlProtocol {
  import opened Common
  import opened JobRow
  import opened Messages

  const JOB_ID := "JOB00000001"
  const MAX_RETRY_COUNT := 3

  /** What classify_url makes of a URL, before anything is fetched. */
  datatype UrlKind = HtmlUrl | AudioUrl | DocumentUrl

  /** The URL functions the protocol is independent of: the dedup key of a URL, the crawl-scope
      filter of a recursive_config, the worker a URL is assigned to, and its kind. */
  datatype Env = Env(
    keyOf: Text -> Text,
    accepts: (CrawlConfig, Text) -> bool,
    assign: Text -> CrawlWorker,
    kindOf: Text -> UrlKind)

  /** Where a fan-out stands with the link it is looking at: is_visited said no, then
      mark_visited was done. */
  datatype Stage = Idle | Checked(link: Text) | Marked(link: Text)

  /** What a handler reserves slots for; each way through a handler does at most one of them. */
  datatype Activity = FanOut | Escalation | AudioHandOff

  datatype Phase =
    | Published                                               // not yet seen by its owner
    | Started                                                 // owner at work, nothing reserved
    | Reserving(activity: Activity, reserved: nat, stage: Stage)
    | Failing(kept: nat)                                      // exception escaped, fail_job done
    | Settled
    | Abandoned                                               // its owner never settles it

  /** root is the index of the depth-0 page whose link tree the task belongs to. */
  datatype Task = Task(msg: Message, seenBy: set<WorkerType>, phase: Phase, root: nat)

  /** leaked counts reserved slots nobody will give back. drained is the row the settlement
      that emptied the counter found. */
  datatype State = State(
    row: Row, apiSlots: nat, tasks: seq<Task>, visited: set<Text>, leaked: nat, drained: Option<Row>)

  /** The jobs row has just been inserted and nothing else has happened. */
  predicate Fresh(s: State) {
    && s.row == FRESH_ROW && s.apiSlots == 0 && s.tasks == [] && s.visited == {}
    && s.leaked == 0 && s.drained == None
  }

  // ---------------------------------------------------------------------
  // Slots
  // ---------------------------------------------------------------------

  function Slots(t: Task): nat {
    match t.phase
    case Published => 1
    case Started => 1
    case Reserving(_, reserved, _) => 1 + reserved
    case Failing(kept) => 1 + kept
    case Settled => 0
    case Abandoned => 0
  }

  /** Slots the task holds beyond its own. */
  function Kept(t: Task): nat {
    match t.phase
    case Reserving(_, reserved, _) => reserved
    case Failing(kept) => kept
    case _ => 0
  }

  function SlotSum(tasks: seq<Task>): nat {
    if tasks == [] then 0 else Slots(tasks[0]) + SlotSum(tasks[1..])
  }

  /** A measure summed over all tasks. */
  function Total(tasks: seq<Task>, f: Task -> nat): nat {
    if tasks == [] then 0 else f(tasks[0]) + Total(tasks[1..], f)
  }

  lemma TotalOne(t: Task, f: Task -> nat)
    ensures Total([t], f) == f(t)
  {
    assert [t][1..] == [];
  }

  lemma {:induction false} TotalUpdate(tasks: seq<Task>, i: nat, t: Task, f: Task -> nat)
    requires i < |tasks|
    ensures Total(tasks[i := t], f) == Total(tasks, f) - f(tasks[i]) + f(t)
  {
    if i == 0 {
      assert tasks[i := t][1..] == tasks[1..];
    } else {
      assert tasks[i := t][1..] == tasks[1..][i - 1 := t];
      TotalUpdate(tasks[1..], i - 1, t, f);
    }
  }

  lemma {:induction false} TotalAppend(tasks: seq<Task>, t: Task, f: Task -> nat)
    ensures Total(tasks + [t], f) == Total(tasks, f) + f(t)
  {
    if tasks == [] {
      assert tasks + [t] == [t];
    } else {
      assert (tasks + [t])[0] == tasks[0] && (tasks + [t])[1..] == tasks[1..] + [t];
      TotalAppend(tasks[1..], t, f);
    }
  }

  predicate AtWork(t: Task) {
    t.phase.Started? || t.phase.Reserving? || t.phase.Failing?
  }

  predicate Finished(t: Task) {
    t.phase.Settled? || t.phase.Abandoned?
  }

  // ---------------------------------------------------------------------
  // Steps
  // ---------------------------------------------------------------------

  datatype Step =
    | ApiRegister
    | ApiPublish(msg: Message)
    | ApiPublishFails
    | MarkRunning
    | PauseJob
    | ResumeJob
    | Watchdog                                                // fail_job from outside the task
    | StorePage(i: nat)                                       // crawl_log row with status completed
    | Deliver(i: nat, group: WorkerType)
    | SkipReplay(i: nat)
    | Reserve(i: nat, activity: Activity, count: nat)
    | CheckLink(i: nat, link: Text)
    | MarkLink(i: nat)
    | PublishLink(i: nat)
    | PublishSeed(i: nat, url: Text)
    | PublishEscalated(i: nat)
    | PublishAudio(i: nat)
    | ReturnSlot(i: nat)
    | Raise(i: nat)
    | Settle(i: nat)
    | Crash(i: nat)

  /** recursive_config.setdefault of submit_crawl_job and build_seed_crawl_request. */
  function SeedConfig(c: CrawlConfig, url: Text): CrawlConfig {
    c.(seedUrl := if c.seedUrl.None? then Some(url) else c.seedUrl,
       sameDomainOnly := if c.sameDomainOnly.None? then Some(true) else c.sameDomainOnly)
  }

  /** What extract_and_queue_children reads from a page's recursive_config: without a seed_url
      the page's own URL stands in, without same_domain_only the crawl stays on the domain. */
  function FilterConfig(m: Message): CrawlConfig
    requires m.Page?
  {
    SeedConfig(m.config, m.url)
  }

  /** What the two submit procedures publish. */
  predicate IsRoot(m: Message) {
    (m.Search? && m.query != []) || (m.Page? && m.depth == 0 && m.retryCount == 0 && m.owner in CRAWL_GROUPS
                  && m.config == SeedConfig(m.config, m.url))
  }

  function SeedPage(m: Message, url: Text, owner: WorkerType): Message
    requires m.Search?
  {
    Page(url, owner, 0, m.searchDepth, 0, SeedConfig(m.searchConfig, url))
  }

  function ChildPage(m: Message, url: Text, owner: WorkerType): Message
    requires m.Page?
  {
    Page(url, owner, m.depth + 1, m.maxDepth, 0, m.config)
  }

  function EscalatedPage(m: Message): Message
    requires m.Page?
  {
    m.(owner := Deep, retryCount := m.retryCount + 1)
  }

  /** The guards of extract_and_queue_children. */
  predicate FansOut(m: Message) {
    m.Page? && m.depth < m.maxDepth && m.config.enableExtraction
  }

  /** Only a URL that is fetched as a page is escalated, and never by the deep worker. */
  predicate MayEscalate(env: Env, m: Message) {
    m.Page? && m.owner != Deep && m.retryCount < MAX_RETRY_COUNT && env.kindOf(m.url).HtmlUrl?
  }

  /** An audio URL is handed off by every worker; the surface worker also goes by the response. */
  predicate MayHandOff(env: Env, m: Message) {
    m.Page? && (env.kindOf(m.url).AudioUrl? || (env.kindOf(m.url).HtmlUrl? && m.owner == Surface))
  }

  predicate CanReserve(env: Env, m: Message, activity: Activity, count: nat) {
    match activity
    case FanOut => m.Search? || (FansOut(m) && env.kindOf(m.url).HtmlUrl?)
    case Escalation => MayEscalate(env, m) && count == 1
    case AudioHandOff => MayHandOff(env, m) && count == 1
  }

  /** A page is stored by its own handler, unless it is handed on, and after its fan-out; only the
      deep worker goes on to store it when the fan-out raised. An audio request is stored by
      the transcriber. */
  predicate CanStore(env: Env, t: Task) {
    && !t.msg.Search? && (t.msg.Page? ==> !env.kindOf(t.msg.url).AudioUrl?)
    && (t.phase.Started?
        || (t.msg.Page? && t.phase.Reserving? && t.phase.activity == FanOut
            && (t.phase.reserved == 0 || t.msg.owner == Deep)))
  }

  /** Exceptions escape the handlers of the deep, dark and discovery workers. The surface worker
      logs them in process_request and then settles as if the page had been handled. */
  predicate MayRaise(m: Message) {
    m.Search? || (m.Page? && m.owner != Surface)
  }

  predicate InPhase(s: State, i: nat, activity: Activity, stage: Stage) {
    && i < |s.tasks|
    && s.tasks[i].phase.Reserving?
    && s.tasks[i].phase.activity == activity
    && s.tasks[i].phase.reserved >= 1
    && s.tasks[i].phase.stage == stage
  }

  predicate Enabled(env: Env, s: State, step: Step) {
    match step
    case ApiRegister => s.tasks == [] && s.apiSlots == 0 && s.leaked == 0
    case ApiPublish(msg) => s.apiSlots == 1 && IsRoot(msg)
    case ApiPublishFails => s.apiSlots == 1
    case MarkRunning => true
    case PauseJob => true
    case ResumeJob => true
    case Watchdog => true
    case StorePage(i) => i < |s.tasks| && CanStore(env, s.tasks[i])
    case Deliver(i, g) =>
      i < |s.tasks| && g in Groups(s.tasks[i].msg) && g !in s.tasks[i].seenBy
    case SkipReplay(i) =>
      && i < |s.tasks| && s.tasks[i].msg.Search? && s.tasks[i].phase.Started?
      && !s.row.status.Pending? && !s.row.status.Running?
    case Reserve(i, activity, count) =>
      i < |s.tasks| && s.tasks[i].phase.Started? && CanReserve(env, s.tasks[i].msg, activity, count)
    case CheckLink(i, link) =>
      InPhase(s, i, FanOut, Idle) && s.tasks[i].msg.Page? && env.accepts(FilterConfig(s.tasks[i].msg), link)
    case MarkLink(i) =>
      i < |s.tasks| && s.tasks[i].phase.Reserving? && s.tasks[i].phase.stage.Checked?
    case PublishLink(i) =>
      && i < |s.tasks| && s.tasks[i].phase.Reserving? && s.tasks[i].phase.stage.Marked?
      && s.tasks[i].phase.reserved >= 1 && s.tasks[i].msg.Page?
    case PublishSeed(i, url) => InPhase(s, i, FanOut, Idle) && s.tasks[i].msg.Search?
    case PublishEscalated(i) => InPhase(s, i, Escalation, Idle) && s.tasks[i].msg.Page?
    case PublishAudio(i) => InPhase(s, i, AudioHandOff, Idle) && s.tasks[i].msg.Page?
    case ReturnSlot(i) =>
      && i < |s.tasks| && s.tasks[i].phase.Reserving? && s.tasks[i].phase.reserved >= 1
      && !s.tasks[i].phase.activity.Escalation?
    case Raise(i) =>
      && i < |s.tasks| && MayRaise(s.tasks[i].msg)
      && (s.tasks[i].phase.Started? || s.tasks[i].phase.Reserving?)
    case Settle(i) => i < |s.tasks| && AtWork(s.tasks[i])
    case Crash(i) => i < |s.tasks| && AtWork(s.tasks[i])
  }

  function SetPhase(s: State, i: nat, phase: Phase): State
    requires i < |s.tasks|
  {
    s.(tasks := s.tasks[i := s.tasks[i].(phase := phase)])
  }

  /** Task i passes one of its reserved slots to a newly published message. */
  function HandOver(s: State, i: nat, msg: Message, root: nat): State
    requires i < |s.tasks| && s.tasks[i].phase.Reserving? && s.tasks[i].phase.reserved >= 1
  {
    var p := s.tasks[i].phase;
    s.(tasks := s.tasks[i := s.tasks[i].(phase := Reserving(p.activity, p.reserved - 1, Idle))]
                + [Task(msg, {}, Published, root)])
  }

  /** Task i gives one of its reserved slots back with complete_job_task. */
  function GiveBack(s: State, i: nat): State
    requires i < |s.tasks| && s.tasks[i].phase.Reserving? && s.tasks[i].phase.reserved >= 1
  {
    var p := s.tasks[i].phase;
    SetPhase(s, i, Reserving(p.activity, p.reserved - 1, Idle)).(row := CompleteTask(s.row, false))
  }

  /** The settlement at the end of a handler. Discovery and transcription settle directly,
      a page through the ownership check of workers/common.py. */
  function SettledRow(row: Row, m: Message, failed: bool): Row {
    if m.Page? then SettleFromMessage(row, EnvelopeOf(JOB_ID, m), WorkerName(m.owner), failed)
    else CompleteTask(row, failed)
  }

  /** A delivery to a group: its owner starts, any other worker runs through the wrapper. */
  function Delivered(s: State, i: nat, g: WorkerType): State
    requires i < |s.tasks|
  {
    var t := s.tasks[i];
    if g == Owner(t.msg) then
      s.(tasks := s.tasks[i := t.(seenBy := t.seenBy + {g}, phase := Started)])
    else
      s.(tasks := s.tasks[i := t.(seenBy := t.seenBy + {g})],
         row := Wrapped(s.row, EnvelopeOf(JOB_ID, t.msg), WorkerName(g), Returned, false))
  }

  function Apply(env: Env, s: State, step: Step): State
    requires Enabled(env, s, step)
  {
    match step
    case ApiRegister => s.(row := RegisterTasks(s.row, 1), apiSlots := 1)
    case ApiPublish(msg) => s.(apiSlots := 0, tasks := s.tasks + [Task(msg, {}, Published, |s.tasks|)])
    case ApiPublishFails => s.(apiSlots := 0, leaked := s.leaked + 1, row := UpdateStatus(s.row, Failed))
    case MarkRunning => s.(row := UpdateStatus(s.row, Status.Running))
    case PauseJob => s.(row := Pause(s.row))
    case ResumeJob => s.(row := Resume(s.row))
    case Watchdog => s.(row := UpdateStatus(s.row, Failed))
    case StorePage(_) => s.(row := s.row.(pageStored := true))
    case Deliver(i, g) => Delivered(s, i, g)
    case SkipReplay(i) => SetPhase(s, i, Abandoned).(leaked := s.leaked + 1)
    case Reserve(i, activity, count) =>
      SetPhase(s, i, Reserving(activity, count, Idle)).(row := RegisterTasks(s.row, count))
    case CheckLink(i, link) =>
      if env.keyOf(link) in s.visited then GiveBack(s, i)
      else SetPhase(s, i, s.tasks[i].phase.(stage := Checked(link)))
    case MarkLink(i) =>
      var link := s.tasks[i].phase.stage.link;
      SetPhase(s, i, s.tasks[i].phase.(stage := Marked(link))).(visited := s.visited + {env.keyOf(link)})
    case PublishLink(i) =>
      var t := s.tasks[i];
      HandOver(s, i, ChildPage(t.msg, t.phase.stage.link, env.assign(t.phase.stage.link)), t.root)
    case PublishSeed(i, url) => HandOver(s, i, SeedPage(s.tasks[i].msg, url, env.assign(url)), |s.tasks|)
    case PublishEscalated(i) =>
      HandOver(s, i, EscalatedPage(s.tasks[i].msg), s.tasks[i].root)
    case PublishAudio(i) =>
      HandOver(s, i, Audio(s.tasks[i].msg.url), s.tasks[i].root)
    case ReturnSlot(i) => GiveBack(s, i)
    case Raise(i) =>
      if s.tasks[i].msg.Search?
      then SetPhase(s, i, Abandoned).(row := UpdateStatus(s.row, Failed), leaked := s.leaked + Slots(s.tasks[i]))
      else SetPhase(s, i, Failing(Kept(s.tasks[i]))).(row := UpdateStatus(s.row, Failed))
    case Settle(i) =>
      var t := s.tasks[i];
      var after := SettledRow(s.row, t.msg, t.phase.Failing?);
      SetPhase(s, i, Settled).(
        row := after,
        leaked := s.leaked + Kept(t),
        drained := if after.activeTasks == 0 then Some(s.row) else s.drained)
    case Crash(i) => SetPhase(s, i, Abandoned).(leaked := s.leaked + Slots(s.tasks[i]))
  }

  /** The task a step is about, or -1. */
  function SubjectOf(step: Step): int {
    match step
    case Deliver(i, _) => i
    case SkipReplay(i) => i
    case Reserve(i, _, _) => i
    case CheckLink(i, _) => i
    case MarkLink(i) => i
    case StorePage(i) => i
    case PublishLink(i) => i
    case PublishSeed(i, _) => i
    case PublishEscalated(i) => i
    case PublishAudio(i) => i
    case ReturnSlot(i) => i
    case Raise(i) => i
    case Settle(i) => i
    case Crash(i) => i
    case _ => -1
  }

  /** The task a step adds. */
  function Added(env: Env, s: State, step: Step): Option<Task>
    requires Enabled(env, s, step)
  {
    match step
    case ApiPublish(msg) => Some(Task(msg, {}, Published, |s.tasks|))
    case PublishLink(i) =>
      var t := s.tasks[i];
      var link := t.phase.stage.link;
      Some(Task(ChildPage(t.msg, link, env.assign(link)), {}, Published, t.root))
    case PublishSeed(i, url) =>
      Some(Task(SeedPage(s.tasks[i].msg, url, env.assign(url)), {}, Published, |s.tasks|))
    case PublishEscalated(i) => Some(Task(EscalatedPage(s.tasks[i].msg), {}, Published, s.tasks[i].root))
    case PublishAudio(i) => Some(Task(Audio(s.tasks[i].msg.url), {}, Published, s.tasks[i].root))
    case _ => None
  }

  lemma AddedIsNew(env: Env, s: State, step: Step)
    requires Enabled(env, s, step)
    ensures var tasks, added := Apply(env, s, step).tasks, Added(env, s, step);
            if added.None? then |tasks| == |s.tasks|
            else |tasks| == |s.tasks| + 1 && tasks[|s.tasks|] == added.value
  {
  }

  lemma OthersUnchanged(env: Env, s: State, step: Step, j: nat)
    requires Enabled(env, s, step) && j < |s.tasks| && SubjectOf(step) != j
    ensures j < |Apply(env, s, step).tasks| && Apply(env, s, step).tasks[j] == s.tasks[j]
  {
  }

  // ---------------------------------------------------------------------
  // Runs
  // ---------------------------------------------------------------------

  predicate CanRun(env: Env, s: State, steps: seq<Step>)
    decreases |steps|
  {
    steps == [] || (Enabled(env, s, steps[0]) && CanRun(env, Apply(env, s, steps[0]), steps[1..]))
  }

  function Run(env: Env, s: State, steps: seq<Step>): State
    requires CanRun(env, s, steps)
    decreases |steps|
  {
    if steps == [] then s else Run(env, Apply(env, s, steps[0]), steps[1..])
  }

  lemma {:induction false} RunAppend(env: Env, s: State, a: seq<Step>, b: seq<Step>)
    requires CanRun(env, s, a) && CanRun(env, Run(env, s, a), b)
    ensures CanRun(env, s, a + b) && Run(env, s, a + b) == Run(env, Run(env, s, a), b)
    decreases |a|
  {
    if a == [] {
      assert a + b == b;
    } else {
      RunAppend(env, Apply(env, s, a[0]), a[1..], b);
      assert (a + b)[0] == a[0] && (a + b)[1..] == a[1..] + b;
    }
  }

  lemma Joined(env: Env, s: State, a: seq<Step>, mid: State, b: seq<Step>) returns (steps: seq<Step>)
    requires CanRun(env, s, a) && Run(env, s, a) == mid && CanRun(env, mid, b)
    ensures CanRun(env, s, steps) && Run(env, s, steps) == Run(env, mid, b)
  {
    RunAppend(env, s, a, b);
    steps := a + b;
  }

  lemma RunOne(env: Env, s: State, steps: seq<Step>, a: State)
    requires |steps| == 1 && Enabled(env, s, steps[0]) && a == Apply(env, s, steps[0])
    ensures CanRun(env, s, steps) && Run(env, s, steps) == a
  {
    assert steps[1..] == [];
    assert CanRun(env, a, []) && Run(env, a, []) == a;
  }

  lemma RunTwo(env: Env, s: State, steps: seq<Step>, a: State, b: State)
    requires |steps| == 2
    requires Enabled(env, s, steps[0]) && a == Apply(env, s, steps[0])
    requires Enabled(env, a, steps[1]) && b == Apply(env, a, steps[1])
    ensures CanRun(env, s, steps) && Run(env, s, steps) == b
  {
    assert steps[1..][1..] == [];
    assert CanRun(env, b, []) && Run(env, b, []) == b;
    assert CanRun(env, a, steps[1..]) && Run(env, a, steps[1..]) == b;
  }

  /** Four steps in a row. */
  lemma RunFour(env: Env, s: State, steps: seq<Step>, a: State, b: State, c: State, d: State)
    requires |steps| == 4
    requires Enabled(env, s, steps[0]) && a == Apply(env, s, steps[0])
    requires Enabled(env, a, steps[1]) && b == Apply(env, a, steps[1])
    requires Enabled(env, b, steps[2]) && c == Apply(env, b, steps[2])
    requires Enabled(env, c, steps[3]) && d == Apply(env, c, steps[3])
    ensures CanRun(env, s, steps) && Run(env, s, steps) == d
  {
    var t1, t2, t3 := steps[1..], steps[2..], steps[3..];
    assert t1[1..] == t2 && t2[1..] == t3 && t3[1..] == [];
    assert CanRun(env, d, []) && Run(env, d, []) == d;
    assert CanRun(env, c, t3) && Run(env, c, t3) == d;
    assert CanRun(env, b, t2) && Run(env, b, t2) == d;
    assert CanRun(env, a, t1) && Run(env, a, t1) == d;
  }
}
