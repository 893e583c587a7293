/** When one job never publishes the same link twice: is_visited and mark_visited are two
    separate Redis calls, so it depends on how fan-outs interleave between them. */
module CrawlDedup {
  import opened Common
  import opened JobRow
  import opened Messages
  import opened CrawlProtocol
  import opened CrawlScopeRuns
  import opened SlotConservation

  /** A message published for a link found on a page; an escalated copy is not one. */
  predicate IsChild(m: Message) {
    m.Page? && m.depth > 0 && m.retryCount == 0
  }

  predicate HasChecked(env: Env, t: Task, key: Text) {
    t.phase.Reserving? && t.phase.stage.Checked? && env.keyOf(t.phase.stage.link) == key
  }

  predicate HasMarked(env: Env, t: Task, key: Text) {
    t.phase.Reserving? && t.phase.stage.Marked? && env.keyOf(t.phase.stage.link) == key
  }

  predicate ChildWithKey(env: Env, t: Task, key: Text) {
    IsChild(t.msg) && env.keyOf(t.msg.url) == key
  }

  /** Two fan-outs have both been told that the same key is new. */
  predicate Overlap(env: Env, s: State) {
    exists i, j ::
      && 0 <= i < j < |s.tasks|
      && s.tasks[i].phase.Reserving? && s.tasks[i].phase.stage.Checked?
      && HasChecked(env, s.tasks[j], env.keyOf(s.tasks[i].phase.stage.link))
  }

  /** The step does not start a check of a key another fan-out is between checking and marking. */
  predicate Serial(env: Env, s: State, step: Step) {
    step.CheckLink? ==> forall j :: 0 <= j < |s.tasks| ==> !HasChecked(env, s.tasks[j], env.keyOf(step.link))
  }

  predicate SerialRun(env: Env, s: State, steps: seq<Step>)
    requires CanRun(env, s, steps)
    decreases |steps|
  {
    steps == [] || (Serial(env, s, steps[0]) && SerialRun(env, Apply(env, s, steps[0]), steps[1..]))
  }

  /** No two children share a key, and every child's key is in the visited set. */
  predicate Distinct(env: Env, s: State) {
    && (forall i :: 0 <= i < |s.tasks| && IsChild(s.tasks[i].msg) ==> env.keyOf(s.tasks[i].msg.url) in s.visited)
    && (forall i, j :: 0 <= i < j < |s.tasks| && IsChild(s.tasks[i].msg) && IsChild(s.tasks[j].msg)
          ==> env.keyOf(s.tasks[i].msg.url) != env.keyOf(s.tasks[j].msg.url))
  }

  predicate CheckedFresh(env: Env, s: State, i: nat)
    requires i < |s.tasks|
  {
    s.tasks[i].phase.Reserving? && s.tasks[i].phase.stage.Checked? ==>
      var key := env.keyOf(s.tasks[i].phase.stage.link);
      key !in s.visited && forall j :: 0 <= j < |s.tasks| && j != i ==> !HasChecked(env, s.tasks[j], key)
  }

  predicate MarkedFresh(env: Env, s: State, i: nat)
    requires i < |s.tasks|
  {
    s.tasks[i].phase.Reserving? && s.tasks[i].phase.stage.Marked? ==>
      var key := env.keyOf(s.tasks[i].phase.stage.link);
      && key in s.visited
      && (forall j :: 0 <= j < |s.tasks| && j != i ==> !HasMarked(env, s.tasks[j], key))
      && (forall j :: 0 <= j < |s.tasks| ==> !ChildWithKey(env, s.tasks[j], key))
  }

  predicate DedupInv(env: Env, s: State) {
    Distinct(env, s) && forall i :: 0 <= i < |s.tasks| ==> CheckedFresh(env, s, i) && MarkedFresh(env, s, i)
  }

  lemma MarkDedup(env: Env, s: State, i: nat)
    requires DedupInv(env, s) && Enabled(env, s, MarkLink(i))
    ensures DedupInv(env, Apply(env, s, MarkLink(i)))
  {
    var s' := Apply(env, s, MarkLink(i));
    var key := env.keyOf(s.tasks[i].phase.stage.link);
    assert CheckedFresh(env, s, i);
    forall j | 0 <= j < |s'.tasks|
      ensures CheckedFresh(env, s', j) && MarkedFresh(env, s', j)
    {
      assert CheckedFresh(env, s, j) && MarkedFresh(env, s, j);
      assert !ChildWithKey(env, s.tasks[j], key);
      if j != i {
        assert s'.tasks[j] == s.tasks[j];
        assert !HasChecked(env, s.tasks[j], key);
      }
      if j == i {
        forall k | 0 <= k < |s'.tasks|
          ensures !ChildWithKey(env, s'.tasks[k], key) && (k != i ==> !HasMarked(env, s'.tasks[k], key))
        {
          assert MarkedFresh(env, s, k);
          assert s'.tasks[k].msg == s.tasks[k].msg;
        }
      }
    }
  }

  lemma PublishDistinct(env: Env, s: State, i: nat)
    requires DedupInv(env, s) && Enabled(env, s, PublishLink(i))
    ensures Distinct(env, Apply(env, s, PublishLink(i)))
  {
    var s' := Apply(env, s, PublishLink(i));
    var key := env.keyOf(s.tasks[i].phase.stage.link);
    assert MarkedFresh(env, s, i);
    assert forall j :: 0 <= j < |s.tasks| ==> !ChildWithKey(env, s.tasks[j], key);
    assert forall j :: 0 <= j < |s.tasks| ==> s'.tasks[j].msg == s.tasks[j].msg;
  }

  lemma PublishDedup(env: Env, s: State, i: nat)
    requires DedupInv(env, s) && Enabled(env, s, PublishLink(i))
    ensures DedupInv(env, Apply(env, s, PublishLink(i)))
  {
    var s' := Apply(env, s, PublishLink(i));
    var key := env.keyOf(s.tasks[i].phase.stage.link);
    PublishDistinct(env, s, i);
    forall j | 0 <= j < |s'.tasks|
      ensures CheckedFresh(env, s', j) && MarkedFresh(env, s', j)
    {
      if j < |s.tasks| && j != i {
        assert CheckedFresh(env, s, j) && MarkedFresh(env, s, j);
        assert s'.tasks[j] == s.tasks[j];
        assert MarkedFresh(env, s, i) && !HasMarked(env, s.tasks[j], key);
        assert forall k :: 0 <= k < |s.tasks| ==> s'.tasks[k].msg == s.tasks[k].msg;
      }
    }
  }

  lemma CheckDedup(env: Env, s: State, i: nat, link: Text)
    requires DedupInv(env, s) && Enabled(env, s, CheckLink(i, link)) && Serial(env, s, CheckLink(i, link))
    ensures DedupInv(env, Apply(env, s, CheckLink(i, link)))
  {
    var s' := Apply(env, s, CheckLink(i, link));
    forall j | 0 <= j < |s'.tasks|
      ensures CheckedFresh(env, s', j) && MarkedFresh(env, s', j)
    {
      assert CheckedFresh(env, s, j) && MarkedFresh(env, s, j);
      assert !HasChecked(env, s.tasks[j], env.keyOf(link));
    }
  }

  /** Task j of after takes part in no check or mark that it did not take part in before. */
  predicate NoNewStage(env: Env, before: seq<Task>, after: seq<Task>, j: nat)
    requires j < |after|
  {
    if j >= |before| then !IsChild(after[j].msg) && after[j].phase == Published
    else
      && after[j].msg == before[j].msg
      && (after[j].phase.Reserving? && !after[j].phase.stage.Idle? ==>
            before[j].phase.Reserving? && before[j].phase.stage == after[j].phase.stage)
  }

  lemma QuietStep(env: Env, s: State, step: Step, j: nat)
    requires Enabled(env, s, step) && !step.CheckLink? && !step.MarkLink? && !step.PublishLink?
    requires j < |Apply(env, s, step).tasks|
    ensures NoNewStage(env, s.tasks, Apply(env, s, step).tasks, j)
  {
  }

  /** A step that adds no child and starts no check keeps every key where it was. */
  lemma OtherDedup(env: Env, s: State, step: Step)
    requires DedupInv(env, s) && Enabled(env, s, step)
    requires !step.CheckLink? && !step.MarkLink? && !step.PublishLink?
    ensures DedupInv(env, Apply(env, s, step))
  {
    var s' := Apply(env, s, step);
    assert s'.visited == s.visited;
    forall j | 0 <= j < |s'.tasks|
      ensures NoNewStage(env, s.tasks, s'.tasks, j)
    {
      QuietStep(env, s, step, j);
    }
    QuietKeepsDedup(env, s, s');
  }

  lemma QuietKeepsDedup(env: Env, s: State, s': State)
    requires DedupInv(env, s) && s'.visited == s.visited && |s.tasks| <= |s'.tasks|
    requires forall j :: 0 <= j < |s'.tasks| ==> NoNewStage(env, s.tasks, s'.tasks, j)
    ensures DedupInv(env, s')
  {
    forall j | 0 <= j < |s'.tasks|
      ensures j < |s.tasks| ==> s'.tasks[j].msg == s.tasks[j].msg
      ensures j >= |s.tasks| ==> !IsChild(s'.tasks[j].msg) && s'.tasks[j].phase == Published
      ensures j < |s.tasks| ==> forall key ::
                && (HasChecked(env, s'.tasks[j], key) ==> HasChecked(env, s.tasks[j], key))
                && (HasMarked(env, s'.tasks[j], key) ==> HasMarked(env, s.tasks[j], key))
    {
      assert NoNewStage(env, s.tasks, s'.tasks, j);
    }
    forall j | 0 <= j < |s'.tasks|
      ensures CheckedFresh(env, s', j) && MarkedFresh(env, s', j)
    {
      assert NoNewStage(env, s.tasks, s'.tasks, j);
      if j < |s.tasks| {
        assert CheckedFresh(env, s, j) && MarkedFresh(env, s, j);
      }
    }
  }

  lemma StepDedup(env: Env, s: State, step: Step)
    requires DedupInv(env, s) && Enabled(env, s, step) && Serial(env, s, step)
    ensures DedupInv(env, Apply(env, s, step))
  {
    match step
    case CheckLink(i, link) => CheckDedup(env, s, i, link);
    case MarkLink(i) => MarkDedup(env, s, i);
    case PublishLink(i) => PublishDedup(env, s, i);
    case _ => OtherDedup(env, s, step);
  }

  lemma FreshDedup(env: Env, s: State)
    requires Fresh(s)
    ensures DedupInv(env, s)
  {
  }

  lemma {:induction false} SerialRunDedup(env: Env, s: State, steps: seq<Step>)
    requires DedupInv(env, s) && CanRun(env, s, steps) && SerialRun(env, s, steps)
    ensures DedupInv(env, Run(env, s, steps))
    decreases |steps|
  {
    if steps != [] {
      StepDedup(env, s, steps[0]);
      SerialRunDedup(env, Apply(env, s, steps[0]), steps[1..]);
    }
  }

  /** As long as no check starts between another fan-out's check and mark of the same key,
      no link of a job is ever published twice, at any depth and by whatever worker, and every
      child's key is marked. */
  lemma NoLinkTwice(env: Env, s0: State, steps: seq<Step>)
    requires Fresh(s0) && CanRun(env, s0, steps) && SerialRun(env, s0, steps)
    ensures Distinct(env, Run(env, s0, steps))
  {
    assert DedupInv(env, s0) by {
      FreshDedup(env, s0);
    }
    SerialRunDedup(env, s0, steps);
  }

  lemma NoOverlap(env: Env, s: State)
    requires DedupInv(env, s)
    ensures !Overlap(env, s)
  {
    forall i, j | 0 <= i < j < |s.tasks| && s.tasks[i].phase.Reserving? && s.tasks[i].phase.stage.Checked?
      ensures !HasChecked(env, s.tasks[j], env.keyOf(s.tasks[i].phase.stage.link))
    {
      assert CheckedFresh(env, s, i);
    }
  }

  /** A step meets the condition precisely when it does not leave two fan-outs holding the
      same key. */
  lemma SerialIsNoOverlap(env: Env, s: State, step: Step)
    requires DedupInv(env, s) && Enabled(env, s, step)
    ensures Serial(env, s, step) <==> !Overlap(env, Apply(env, s, step))
  {
    var s' := Apply(env, s, step);
    if Serial(env, s, step) {
      StepDedup(env, s, step);
      NoOverlap(env, s');
    }
    if !Serial(env, s, step) {
      var key := env.keyOf(step.link);
      var j :| 0 <= j < |s.tasks| && HasChecked(env, s.tasks[j], key);
      assert CheckedFresh(env, s, j);
      assert j != step.i;
      assert s'.tasks[j] == s.tasks[j];
      assert HasChecked(env, s'.tasks[Min(step.i, j)], key) && HasChecked(env, s'.tasks[Max(step.i, j)], key);
    }
  }

  /** Two children of the job carry the key. */
  predicate CrawledTwice(env: Env, s: State, key: Text) {
    exists i, j :: 0 <= i < j < |s.tasks| && ChildWithKey(env, s.tasks[i], key) && ChildWithKey(env, s.tasks[j], key)
  }

  lemma NotTwice(env: Env, s: State, key: Text)
    requires DedupInv(env, s)
    ensures !CrawledTwice(env, s, key)
  {
  }

  predicate HasNoChecks(steps: seq<Step>) {
    forall k :: 0 <= k < |steps| ==> !steps[k].CheckLink?
  }

  lemma {:induction false} NoChecksAreSerial(env: Env, s: State, steps: seq<Step>)
    requires CanRun(env, s, steps) && HasNoChecks(steps)
    ensures SerialRun(env, s, steps)
    decreases |steps|
  {
    if steps != [] {
      NoChecksAreSerial(env, Apply(env, s, steps[0]), steps[1..]);
    }
  }

  lemma NoChecksJoined(env: Env, s: State, first: seq<Step>, mid: State, second: seq<Step>, end: State)
    requires CanRun(env, s, first) && Run(env, s, first) == mid && CanRun(env, mid, second)
    requires Run(env, mid, second) == end && HasNoChecks(first) && HasNoChecks(second)
    ensures CanRun(env, s, first + second) && Run(env, s, first + second) == end && HasNoChecks(first + second)
  {
    RunAppend(env, s, first, second);
  }

  lemma TwoChildren(env: Env, s: State, n: nat, key: Text)
    requires n + 1 < |s.tasks| && ChildWithKey(env, s.tasks[n], key) && ChildWithKey(env, s.tasks[n + 1], key)
    ensures CrawledTwice(env, s, key)
  {
  }

  /** From any state with two such fan-outs four further steps publish the link twice. */
  lemma OverlapPublishesTwice(env: Env, s: State, i: nat, j: nat) returns (steps: seq<Step>)
    requires Inv(s) && ScopeInv(env, s) && i < j < |s.tasks|
    requires s.tasks[i].phase.Reserving? && s.tasks[i].phase.stage.Checked?
    requires HasChecked(env, s.tasks[j], env.keyOf(s.tasks[i].phase.stage.link))
    ensures CanRun(env, s, steps) && |steps| == 4 && HasNoChecks(steps)
    ensures CrawledTwice(env, Run(env, s, steps), env.keyOf(s.tasks[i].phase.stage.link))
  {
    assert TaskFits(s.tasks[i]);
    var m1, s1, first := MarkedAndPublished(env, s, i);
    SecondStillFits(env, s, m1, s1, i, j);
    var m2, s2, second := MarkedAndPublished(env, s1, j);
    NoChecksJoined(env, s, first, s1, second, s2);
    steps := first + second;
    TwoChildren(env, s2, |s.tasks|, env.keyOf(s.tasks[i].phase.stage.link));
  }

  /** The condition is exact over whole runs: in a reachable state in which it has been kept,
      a step meets it iff no continuation that keeps it crawls any link twice. */
  lemma SerialExactly(env: Env, s: State, step: Step)
    requires Inv(s) && ScopeInv(env, s) && DedupInv(env, s) && Enabled(env, s, step)
    ensures Serial(env, s, step) <==> forall more, key ::
              TwiceLater(env, Apply(env, s, step), more, key) ==> !SerialRun(env, Apply(env, s, step), more)
  {
    var s' := Apply(env, s, step);
    SerialIsNoOverlap(env, s, step);
    if Serial(env, s, step) {
      StepDedup(env, s, step);
      forall more, key | CanRun(env, s', more) && SerialRun(env, s', more)
        ensures !TwiceLater(env, s', more, key)
      {
        SerialRunDedup(env, s', more);
        NotTwice(env, Run(env, s', more), key);
      }
    } else {
      StepInv(env, s, step);
      StepScope(env, s, step);
      var i, j :| && 0 <= i < j < |s'.tasks|
                  && s'.tasks[i].phase.Reserving? && s'.tasks[i].phase.stage.Checked?
                  && HasChecked(env, s'.tasks[j], env.keyOf(s'.tasks[i].phase.stage.link));
      var more := OverlapPublishesTwice(env, s', i, j);
      NoChecksAreSerial(env, s', more);
      assert TwiceLater(env, s', more, env.keyOf(s'.tasks[i].phase.stage.link));
    }
  }

  predicate TwiceLater(env: Env, s: State, more: seq<Step>, key: Text) {
    CanRun(env, s, more) && CrawledTwice(env, Run(env, s, more), key)
  }

  lemma SecondStillFits(env: Env, s: State, mid: State, s1: State, i: nat, j: nat)
    requires Inv(s) && ScopeInv(env, s) && i < |s.tasks| && j < |s.tasks| && j < |s1.tasks|
    requires Enabled(env, s, MarkLink(i)) && mid == Apply(env, s, MarkLink(i))
    requires Enabled(env, mid, PublishLink(i)) && s1 == Apply(env, mid, PublishLink(i))
    requires s1.tasks[j] == s.tasks[j]
    ensures TaskFits(s1.tasks[j]) && ScopeInv(env, s1)
  {
    StepScope(env, s, MarkLink(i));
    StepScope(env, mid, PublishLink(i));
  }

  lemma MarkedAndPublished(env: Env, s: State, i: nat) returns (mid: State, end: State, steps: seq<Step>)
    requires i < |s.tasks| && TaskFits(s.tasks[i]) && ScopeInv(env, s)
    requires s.tasks[i].phase.Reserving? && s.tasks[i].phase.stage.Checked?
    ensures Enabled(env, s, MarkLink(i)) && mid == Apply(env, s, MarkLink(i))
    ensures Enabled(env, mid, PublishLink(i)) && end == Apply(env, mid, PublishLink(i))
    ensures CanRun(env, s, steps) && Run(env, s, steps) == end && |steps| == 2 && HasNoChecks(steps)
    ensures |end.tasks| == |s.tasks| + 1 && (forall j :: 0 <= j < |s.tasks| && j != i ==> end.tasks[j] == s.tasks[j])
    ensures ChildWithKey(env, end.tasks[|s.tasks|], env.keyOf(s.tasks[i].phase.stage.link))
  {
    assert PageInScope(env, s.tasks, s.tasks[i]) && StageInScope(env, s.tasks[i]);
    mid := Apply(env, s, MarkLink(i));
    end := Apply(env, mid, PublishLink(i));
    steps := [MarkLink(i), PublishLink(i)];
    RunTwo(env, s, steps, mid, end);
  }

  // ---------------------------------------------------------------------
  // Two fan-outs of one job do overlap
  // ---------------------------------------------------------------------

  /** A topic search about to publish two seeds. */
  function TwoSeedsReserved(root: Message): State {
    State(Row(Pending, None, 3, false), 0, [Task(root, {Discovery}, Reserving(FanOut, 2, Idle), 0)], {}, 0, None)
  }

  lemma SearchReserved(env: Env, s: State, root: Message) returns (steps: seq<Step>, end: State)
    requires Fresh(s) && root.Search? && IsRoot(root)
    ensures CanRun(env, s, steps) && Run(env, s, steps) == end
    ensures end == TwoSeedsReserved(root)
  {
    var a := s.(row := s.row.(activeTasks := 1), apiSlots := 1);
    var b := a.(apiSlots := 0, tasks := [Task(root, {}, Published, 0)]);
    var none: set<WorkerType> := {};
    assert none + {Discovery} == {Discovery};
    var c := b.(tasks := [Task(root, {Discovery}, Started, 0)]);
    end := TwoSeedsReserved(root);
    steps := [ApiRegister, ApiPublish(root), Deliver(0, Discovery), Reserve(0, FanOut, 2)];
    assert Apply(env, b, steps[2]).tasks == c.tasks && Apply(env, c, steps[3]).tasks == end.tasks;
    RunFour(env, s, steps, a, b, c, end);
  }

  /** Both seeds published and on the workers they are assigned to. */
  lemma SeedsStarted(env: Env, s: State, root: Message, u: Text, v: Text) returns (steps: seq<Step>, end: State)
    requires root.Search? && s == TwoSeedsReserved(root)
    ensures CanRun(env, s, steps) && Run(env, s, steps) == end
    ensures end == s.(tasks := [Task(root, {Discovery}, Reserving(FanOut, 0, Idle), 0),
                                Task(SeedPage(root, u, env.assign(u)), {env.assign(u)}, Started, 1),
                                Task(SeedPage(root, v, env.assign(v)), {env.assign(v)}, Started, 2)])
  {
    var x, y := env.assign(u), env.assign(v);
    var p, q := SeedPage(root, u, x), SeedPage(root, v, y);
    var t1 := Task(root, {Discovery}, Reserving(FanOut, 1, Idle), 0);
    var t0 := Task(root, {Discovery}, Reserving(FanOut, 0, Idle), 0);
    var none: set<WorkerType> := {};
    assert none + {x} == {x} && none + {y} == {y};
    var a := s.(tasks := [t1, Task(p, {}, Published, 1)]);
    var b := s.(tasks := [t0, Task(p, {}, Published, 1), Task(q, {}, Published, 2)]);
    var c := s.(tasks := [t0, Task(p, {x}, Started, 1), Task(q, {}, Published, 2)]);
    end := s.(tasks := [t0, Task(p, {x}, Started, 1), Task(q, {y}, Started, 2)]);
    steps := [PublishSeed(0, u), PublishSeed(0, v), Deliver(1, x), Deliver(2, y)];
    assert Apply(env, s, steps[0]).tasks == a.tasks && Apply(env, a, steps[1]).tasks == b.tasks;
    assert Apply(env, b, steps[2]).tasks == c.tasks && Apply(env, c, steps[3]).tasks == end.tasks;
    RunFour(env, s, steps, a, b, c, end);
  }

  predicate MayFollow(env: Env, t: Task, link: Text) {
    t.phase.Started? && t.msg.Page? && CanReserve(env, t.msg, FanOut, 1) && env.accepts(FilterConfig(t.msg), link)
  }

  /** Tasks 1 and 2 have both been told that the link is new. */
  predicate AskedTwice(s: State, link: Text) {
    && |s.tasks| == 3
    && s.tasks[1].phase.Reserving? && s.tasks[1].phase.stage == Checked(link)
    && s.tasks[2].phase.Reserving? && s.tasks[2].phase.stage == Checked(link)
  }

  /** Both pages found the same new link and asked about it. */
  lemma BothChecked(env: Env, s: State, link: Text) returns (steps: seq<Step>)
    requires |s.tasks| == 3 && s.visited == {}
    requires MayFollow(env, s.tasks[1], link) && MayFollow(env, s.tasks[2], link)
    ensures CanRun(env, s, steps) && AskedTwice(Run(env, s, steps), link)
  {
    var a := Apply(env, s, Reserve(1, FanOut, 1));
    var b := Apply(env, a, Reserve(2, FanOut, 1));
    var c := Apply(env, b, CheckLink(1, link));
    var end := Apply(env, c, CheckLink(2, link));
    steps := [Reserve(1, FanOut, 1), Reserve(2, FanOut, 1), CheckLink(1, link), CheckLink(2, link)];
    RunFour(env, s, steps, a, b, c, end);
  }

  /** A submitted search whose two seeds are different pages that both link to the same page. */
  predicate SharedLink(env: Env, root: Message, u: Text, v: Text, link: Text) {
    && IsRoot(root) && root.Search? && root.searchDepth >= 1 && root.searchConfig.enableExtraction
    && env.keyOf(u) != env.keyOf(v) && env.kindOf(u).HtmlUrl? && env.kindOf(v).HtmlUrl?
    && env.accepts(SeedConfig(root.searchConfig, u), link) && env.accepts(SeedConfig(root.searchConfig, v), link)
  }

  lemma OverlapReached(env: Env, s: State, root: Message, u: Text, v: Text, link: Text)
    returns (steps: seq<Step>, end: State)
    requires Fresh(s) && SharedLink(env, root, u, v, link)
    ensures CanRun(env, s, steps) && Run(env, s, steps) == end && AskedTwice(end, link)
  {
    var first, s1 := SearchReserved(env, s, root);
    var second, s2 := SeedsStarted(env, s1, root, u, v);
    var third := BothChecked(env, s2, link);
    end := Run(env, s2, third);
    var front := Joined(env, s, first, s1, second);
    steps := Joined(env, s, front, s2, third);
  }

  /** So a topic search with two seeds whose pages share an in-scope link can crawl it twice. */
  lemma LinkCrawledTwice(env: Env, s: State, root: Message, u: Text, v: Text, link: Text)
    returns (steps: seq<Step>)
    requires Fresh(s) && SharedLink(env, root, u, v, link)
    ensures CanRun(env, s, steps) && CrawledTwice(env, Run(env, s, steps), env.keyOf(link))
  {
    var front, mid := OverlapReached(env, s, root, u, v, link);
    ReachedInv(env, s, front);
    ReachedScope(env, s, front);
    var last := OverlapPublishesTwice(env, mid, 1, 2);
    steps := Joined(env, s, front, mid, last);
  }
}
