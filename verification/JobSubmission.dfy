/** The other producers of messages: the two submit procedures, the discovery fan-out and the
    audio hand-off. Each registers its slots before it publishes. */
module JobSubmission {
  import opened Common
  import opened TextOps
  import opened JobRow
  import opened Messages
  import opened CrawlProtocol
  import opened RecursiveCrawl

  // ---------------------------------------------------------------------
  // app/pipeline/main.py
  // ---------------------------------------------------------------------

  const NETWORKS: set<Text> := {Ascii("surface"), Ascii("deep"), Ascii("dark"), Ascii("all")}

  /** BadRequest and NotReady are the 400 and the early 503, before any row exists; Unreachable
      is the 503 after the row was created. */
  datatype Submission =
    | BadRequest
    | NotReady
    | Duplicate(active: JobTable)
    | Unreachable(failed: JobTable)
    | Queued(job: JobTable)

  const FAILED_AT_START := Row(Failed, None, 1, false)
  const RUNNING_AT_START := Row(Running, None, 1, false)

  /** ready says whether _require_kafka gets a producer, active is the job that
      get_active_job_for_url finds, accepted says whether the broker takes the message. */
  method SubmitCrawlJob(topic: Topic, ready: bool, active: Option<JobTable>, url: Text, owner: WorkerType,
                        maxDepth: int, config: CrawlConfig, accepted: bool)
    returns (result: Submission)
    modifies topic
    ensures !ready ==> result == NotReady && topic.messages == old(topic.messages)
    ensures ready && active.Some? ==> result == Duplicate(active.value) && topic.messages == old(topic.messages)
    ensures ready && active.None? && !accepted ==>
              && result.Unreachable? && fresh(result.failed) && result.failed.row == FAILED_AT_START
              && topic.messages == old(topic.messages)
    ensures ready && active.None? && accepted ==>
              && result.Queued? && fresh(result.job) && result.job.row == RUNNING_AT_START
              && topic.messages == old(topic.messages) + [Page(url, owner, 0, maxDepth, 0, SeedConfig(config, url))]
  {
    if !ready {
      return NotReady;
    }
    if active.Some? {
      return Duplicate(active.value);
    }
    var db := new JobTable();
    var message := Page(url, owner, 0, maxDepth, 0, SeedConfig(config, url));
    result := RegisterAndPublish(topic, db, message, accepted);
  }

  method SubmitDiscoveryJob(topic: Topic, ready: bool, network: Text, query: Text, maxDepth: int,
                            config: CrawlConfig, accepted: bool)
    returns (result: Submission)
    modifies topic
    ensures result.BadRequest? <==>
              (network != [] && Lower(network) !in NETWORKS) || (forall b :: b in query ==> b in BLANKS)
    ensures !result.Queued? ==> topic.messages == old(topic.messages)
    ensures result.Queued? ==>
              exists i, j ::
                && 0 <= i <= j <= |query|
                && topic.messages == old(topic.messages) + [Search(query[i..j], maxDepth, config)]
                && (forall b :: b in query[..i] ==> b in BLANKS)
                && (forall b :: b in query[j..] ==> b in BLANKS)
                && (i < j ==> query[i] !in BLANKS && query[j - 1] !in BLANKS)
    ensures !result.BadRequest? ==>
              result.NotReady? == !ready && result.Queued? == (ready && accepted)
              && result.Unreachable? == (ready && !accepted)
    ensures result.Queued? ==> fresh(result.job) && result.job.row == RUNNING_AT_START
    ensures result.Unreachable? ==> fresh(result.failed) && result.failed.row == FAILED_AT_START
  {
    var name := Lower(if network == [] then Ascii("surface") else network);
    StripEmpty(query);
    ghost var i, j := StripTrims(query);
    SurfaceIsNetwork();
    if name !in NETWORKS || Strip(query) == [] {
      return BadRequest;
    }
    if !ready {
      return NotReady;
    }
    var db := new JobTable();
    result := RegisterAndPublish(topic, db, Search(Strip(query), maxDepth, config), accepted);
    assert result.Queued? ==> topic.messages == old(topic.messages) + [Search(query[i..j], maxDepth, config)];
  }

  /** The part both procedures share: the root slot, the root message, the status. */
  method RegisterAndPublish(topic: Topic, db: JobTable, message: Message, accepted: bool)
    returns (result: Submission)
    requires db.row == FRESH_ROW
    modifies topic, db
    ensures result == if accepted then Queued(db) else Unreachable(db)
    ensures db.row == if accepted then RUNNING_AT_START else FAILED_AT_START
    ensures topic.messages == if accepted then old(topic.messages) + [message] else old(topic.messages)
  {
    db.RegisterJobTasks(1);
    var ok := topic.SendAndWait(message, accepted);
    if !ok {
      db.FailJob();
      return Unreachable(db);
    }
    db.MarkRunning();
    result := Queued(db);
  }

  const BLANKS: set<byte> := {9, 10, 11, 12, 13, 28, 29, 30, 31, 32}

  /** query.strip() */
  function Strip(s: Text): (r: Text)
    ensures r != [] ==> r[0] !in BLANKS && r[|r| - 1] !in BLANKS
  {
    if s == [] then s
    else if s[0] in BLANKS then Strip(s[1..])
    else if s[|s| - 1] in BLANKS then Strip(s[..|s| - 1])
    else s
  }

  lemma {:induction false} StripEmpty(s: Text)
    ensures Strip(s) == [] <==> forall b :: b in s ==> b in BLANKS
  {
    if s != [] {
      if s[0] in BLANKS {
        StripEmpty(s[1..]);
        assert s == [s[0]] + s[1..];
      } else {
        assert s[0] in s;
        if s[|s| - 1] in BLANKS {
          StripEmpty(s[..|s| - 1]);
          assert s[..|s| - 1][0] == s[0];
        }
      }
    }
  }

  /** The text from i to j is all but blanks at either end, and neither starts nor ends with one. */
  predicate Trimmed(s: Text, i: nat, j: nat)
    requires i <= j <= |s|
  {
    && (forall b :: b in s[..i] ==> b in BLANKS)
    && (forall b :: b in s[j..] ==> b in BLANKS)
    && (i < j ==> s[i] !in BLANKS && s[j - 1] !in BLANKS)
  }

  lemma BlankInFront(b: byte, t: Text)
    requires b in BLANKS && forall c :: c in t ==> c in BLANKS
    ensures forall c :: c in [b] + t ==> c in BLANKS
    ensures forall c :: c in t + [b] ==> c in BLANKS
  {
  }

  lemma TrimmedAfterBlank(s: Text, i: nat, j: nat)
    requires s != [] && s[0] in BLANKS && i <= j < |s| && Trimmed(s[1..], i, j)
    ensures Trimmed(s, i + 1, j + 1) && s[i + 1..j + 1] == s[1..][i..j]
  {
    assert s[..i + 1] == [s[0]] + s[1..][..i] && s[j + 1..] == s[1..][j..];
    BlankInFront(s[0], s[1..][..i]);
  }

  lemma TrimmedBeforeBlank(s: Text, i: nat, j: nat)
    requires s != [] && s[|s| - 1] in BLANKS && i <= j < |s| && Trimmed(s[..|s| - 1], i, j)
    ensures Trimmed(s, i, j) && s[i..j] == s[..|s| - 1][i..j]
  {
    var n := |s| - 1;
    assert s[..i] == s[..n][..i] && s[j..] == s[..n][j..] + [s[n]];
    BlankInFront(s[n], s[..n][j..]);
  }

  /** strip gives the text without the blanks at either end. */
  lemma {:induction false} StripTrims(s: Text) returns (i: nat, j: nat)
    ensures i <= j <= |s| && Strip(s) == s[i..j] && Trimmed(s, i, j)
  {
    if s != [] && s[0] in BLANKS {
      i, j := StripTrims(s[1..]);
      TrimmedAfterBlank(s, i, j);
      i, j := i + 1, j + 1;
    } else if s != [] && s[|s| - 1] in BLANKS {
      i, j := StripTrims(s[..|s| - 1]);
      TrimmedBeforeBlank(s, i, j);
    } else {
      i, j := 0, |s|;
      assert s[i..j] == s;
    }
  }

  lemma SurfaceIsNetwork()
    ensures Lower(Ascii("surface")) == Ascii("surface")
  {
    var t := Ascii("surface");
    assert forall i :: 0 <= i < |t| ==> !IsUpper(t[i]);
  }

  /** A submission is a run of the protocol from the freshly inserted row: with the broker up
      it ends with one published root, one slot and status running, with the broker down with
      a failed job whose root slot nobody holds. */
  lemma SubmissionIsRun(env: Env, s: State, message: Message, accepted: bool) returns (steps: seq<Step>)
    requires Fresh(s) && IsRoot(message)
    ensures CanRun(env, s, steps)
    ensures Run(env, s, steps) ==
              if accepted then State(RUNNING_AT_START, 0, [Task(message, {}, Published, 0)], {}, 0, None)
              else State(FAILED_AT_START, 0, [], {}, 1, None)
  {
    var s1 := s.(row := s.row.(activeTasks := 1), apiSlots := 1);
    if accepted {
      var s2 := s1.(apiSlots := 0, tasks := [Task(message, {}, Published, 0)]);
      var end := State(RUNNING_AT_START, 0, s2.tasks, {}, 0, None);
      RunOne(env, s, [ApiRegister], s1);
      RunTwo(env, s1, [ApiPublish(message), Step.MarkRunning], s2, end);
      steps := Joined(env, s, [ApiRegister], s1, [ApiPublish(message), Step.MarkRunning]);
    } else {
      var end := State(FAILED_AT_START, 0, [], {}, 1, None);
      steps := [ApiRegister, ApiPublishFails];
      RunTwo(env, s, steps, s1, end);
    }
  }

  // ---------------------------------------------------------------------
  // hand_off_audio
  // ---------------------------------------------------------------------

  /** Called by a page that holds its own slot, the hand-off leaves the counter one higher when
      the audio request is out and as it was when the broker refused it. */
  method HandOffAudio(db: JobTable, topic: Topic, url: Text, accepted: bool) returns (queued: bool)
    modifies db, topic
    ensures queued == accepted
    ensures topic.messages == if accepted then old(topic.messages) + [Audio(url)] else old(topic.messages)
    ensures db.row == if accepted then RegisterTasks(old(db.row), 1)
                      else CompleteTask(RegisterTasks(old(db.row), 1), false)
    ensures old(db.row).activeTasks >= 1 ==>
              db.row == old(db.row).(activeTasks := old(db.row).activeTasks + if accepted then 1 else 0)
  {
    db.RegisterJobTasks(1);
    queued := topic.SendAndWait(Audio(url), accepted);
    if !queued {
      var _ := db.CompleteJobTask(false);
    }
  }

  lemma HandOffIsRun(env: Env, s: State, i: nat, accepted: bool) returns (steps: seq<Step>)
    requires i < |s.tasks| && s.tasks[i].phase.Started? && MayHandOff(env, s.tasks[i].msg)
    ensures CanRun(env, s, steps)
    ensures var t := s.tasks[i].(phase := Reserving(AudioHandOff, 0, Idle));
            Run(env, s, steps) ==
              if accepted then
                s.(row := RegisterTasks(s.row, 1),
                   tasks := s.tasks[i := t] + [Task(Audio(t.msg.url), {}, Published, t.root)])
              else s.(row := CompleteTask(RegisterTasks(s.row, 1), false), tasks := s.tasks[i := t])
  {
    var reserve := Reserve(i, AudioHandOff, 1);
    var s1 := Apply(env, s, reserve);
    var last := if accepted then PublishAudio(i) else ReturnSlot(i);
    var t := s.tasks[i].(phase := Reserving(AudioHandOff, 0, Idle));
    var end := Apply(env, s1, last);
    assert s1.tasks[i := t] == s.tasks[i := t];
    steps := [reserve, last];
    RunTwo(env, s, steps, s1, end);
  }

  // ---------------------------------------------------------------------
  // Discovery fan_out
  // ---------------------------------------------------------------------

  function OneSeed(env: Env, request: Message, p: Progress, url: Text, accepted: bool): Progress
    requires request.Search?
  {
    if accepted then
      p.(published := p.published + [SeedPage(request, url, env.assign(url))], queued := p.queued + 1)
    else p.(row := CompleteTask(p.row, false), failed := p.failed + 1)
  }

  function Seeds(env: Env, request: Message, p: Progress, seeds: seq<Text>, broker: seq<bool>): Progress
    requires request.Search? && |seeds| <= |broker|
  {
    if seeds == [] then p
    else
      var n := |seeds| - 1;
      OneSeed(env, request, Seeds(env, request, p, seeds[..n], broker), seeds[n], broker[n])
  }

  method FanOutSeeds(env: Env, db: JobTable, topic: Topic, request: Message, seeds: seq<Text>, broker: seq<bool>)
    returns (queued: nat)
    requires request.Search? && |seeds| <= |broker|
    modifies db, topic
    ensures var start := Progress(RegisterTasks(old(db.row), |seeds|), {}, [], 0, 0, 0);
            var end := Seeds(env, request, start, seeds, broker);
            && db.row == end.row && queued == end.queued
            && topic.messages == old(topic.messages) + end.published
  {
    queued := 0;
    if seeds == [] { return; }
    db.RegisterJobTasks(|seeds|);
    ghost var start := Progress(db.row, {}, [], 0, 0, 0);
    ghost var sent := topic.messages;
    for k := 0 to |seeds|
      invariant var now := Seeds(env, request, start, seeds[..k], broker);
                && db.row == now.row && queued == now.queued && topic.messages == sent + now.published
    {
      assert seeds[..k + 1][..k] == seeds[..k] && seeds[..k + 1][k] == seeds[k];
      var ok := topic.SendAndWait(SeedPage(request, seeds[k], env.assign(seeds[k])), broker[k]);
      if ok {
        queued := queued + 1;
      } else {
        var _ := db.CompleteJobTask(false);
      }
    }
    assert seeds[..|seeds|] == seeds;
  }

  /** The seeds the broker took, in order. */
  function Taken(seeds: seq<Text>, broker: seq<bool>): seq<Text>
    requires |seeds| <= |broker|
  {
    if seeds == [] then []
    else
      var n := |seeds| - 1;
      Taken(seeds[..n], broker) + (if broker[n] then [seeds[n]] else [])
  }

  /** A discovery root that holds its own slot turns exactly the seeds the broker takes into
      depth-0 pages, each scoped to itself unless the request names a seed, and leaves the
      counter higher by their number. */
  lemma {:induction false} SeedsPublishExactly(env: Env, request: Message, p: Progress,
                                               seeds: seq<Text>, broker: seq<bool>)
    requires request.Search? && |seeds| <= |broker| && p.row.activeTasks >= 1 + |seeds| && p.published == []
    requires p.queued == 0 && p.failed == 0
    ensures var q, taken := Seeds(env, request, p, seeds, broker), Taken(seeds, broker);
            && |taken| == |q.published| == q.queued && q.queued + q.failed == |seeds|
            && (forall k :: 0 <= k < |taken| ==> q.published[k] == SeedPage(request, taken[k], env.assign(taken[k])))
            && q.row == p.row.(activeTasks := p.row.activeTasks - |seeds| + q.queued)
  {
    if seeds != [] {
      SeedsPublishExactly(env, request, p, seeds[..|seeds| - 1], broker);
    }
  }

  function SeedTasks(messages: seq<Message>, first: nat): seq<Task> {
    seq(|messages|, k requires 0 <= k < |messages| => Task(messages[k], {}, Published, first + k))
  }

  function AfterSeeds(s: State, i: nat, left: nat, p: Progress): State
    requires i < |s.tasks|
  {
    s.(row := p.row,
       tasks := s.tasks[i := s.tasks[i].(phase := Reserving(FanOut, left, Idle))] + SeedTasks(p.published, |s.tasks|))
  }

  lemma OneSeedIsRun(env: Env, s: State, i: nat, left: nat, p: Progress, url: Text, accepted: bool)
    returns (steps: seq<Step>)
    requires i < |s.tasks| && s.tasks[i].msg.Search? && left >= 1
    ensures CanRun(env, AfterSeeds(s, i, left, p), steps)
    ensures Run(env, AfterSeeds(s, i, left, p), steps)
         == AfterSeeds(s, i, left - 1, OneSeed(env, s.tasks[i].msg, p, url, accepted))
  {
    var s0 := AfterSeeds(s, i, left, p);
    var end := AfterSeeds(s, i, left - 1, OneSeed(env, s.tasks[i].msg, p, url, accepted));
    var step := if accepted then PublishSeed(i, url) else ReturnSlot(i);
    assert Apply(env, s0, step).tasks == end.tasks;
    steps := [step];
    RunOne(env, s0, steps, end);
  }

  lemma OneMoreSeed(env: Env, s: State, i: nat, start: State, front: seq<Step>, left: nat, p: Progress,
                    url: Text, accepted: bool)
    returns (steps: seq<Step>)
    requires i < |s.tasks| && s.tasks[i].msg.Search? && left >= 1
    requires CanRun(env, start, front) && Run(env, start, front) == AfterSeeds(s, i, left, p)
    ensures CanRun(env, start, steps)
    ensures Run(env, start, steps) == AfterSeeds(s, i, left - 1, OneSeed(env, s.tasks[i].msg, p, url, accepted))
  {
    var last := OneSeedIsRun(env, s, i, left, p, url, accepted);
    steps := Joined(env, start, front, AfterSeeds(s, i, left, p), last);
  }

  lemma {:induction false} SeedsAreRun(env: Env, s: State, i: nat, left: nat, p: Progress,
                                       seeds: seq<Text>, broker: seq<bool>)
    returns (steps: seq<Step>)
    requires i < |s.tasks| && s.tasks[i].msg.Search? && |seeds| <= |broker| && |seeds| <= left
    ensures CanRun(env, AfterSeeds(s, i, left, p), steps)
    ensures Run(env, AfterSeeds(s, i, left, p), steps)
         == AfterSeeds(s, i, left - |seeds|, Seeds(env, s.tasks[i].msg, p, seeds, broker))
  {
    if seeds == [] {
      steps := [];
    } else {
      var n := |seeds| - 1;
      var front := SeedsAreRun(env, s, i, left, p, seeds[..n], broker);
      var mid := Seeds(env, s.tasks[i].msg, p, seeds[..n], broker);
      steps := OneMoreSeed(env, s, i, AfterSeeds(s, i, left, p), front, left - n, mid, seeds[n], broker[n]);
    }
  }

  /** The discovery fan-out is a run of the protocol that ends with no slot left over. */
  lemma SeedFanOutIsRun(env: Env, s: State, i: nat, seeds: seq<Text>, broker: seq<bool>) returns (steps: seq<Step>)
    requires i < |s.tasks| && s.tasks[i].msg.Search? && s.tasks[i].phase.Started? && |seeds| <= |broker|
    ensures CanRun(env, s, steps)
    ensures Run(env, s, steps)
         == AfterSeeds(s, i, 0, Seeds(env, s.tasks[i].msg,
                                      Progress(RegisterTasks(s.row, |seeds|), {}, [], 0, 0, 0), seeds, broker))
  {
    var start := Progress(RegisterTasks(s.row, |seeds|), {}, [], 0, 0, 0);
    var reserve := [Reserve(i, FanOut, |seeds|)];
    var s1 := AfterSeeds(s, i, |seeds|, start);
    assert Apply(env, s, reserve[0]).tasks == s1.tasks;
    RunOne(env, s, reserve, s1);
    var rest := SeedsAreRun(env, s, i, |seeds|, start, seeds, broker);
    steps := Joined(env, s, reserve, s1, rest);
  }
}
