/** extract_and_queue_children as it runs: the loop over the filtered links, changing the
    jobs row, the visited set and the crawl topic, and its place in the protocol. */
module RecursiveCrawl {
  import opened Common
  import opened JobRow
  import opened Messages
  import opened CrawlProtocol

  /** The per-job dedup key of Redis. `_use_set` is None until the server has been probed
      for RedisBloom; here the probe says no and the plain SET is used. */
  class DedupService {
    var useBloom: Option<bool>
    var visited: set<Text>

    predicate PlainSet()
      reads this
    {
      useBloom.Some? ==> !useBloom.value
    }

    constructor ()
      ensures PlainSet() && visited == {}
    {
      useBloom := None;
      visited := {};
    }

    method IsVisited(key: Text) returns (seen: bool)
      requires PlainSet()
      modifies this`useBloom
      ensures PlainSet()
      ensures seen <==> key in visited
    {
      if useBloom == None {
        useBloom := Some(false);
      }
      seen := key in visited;
    }

    method MarkVisited(key: Text) returns (added: bool)
      requires PlainSet()
      modifies this
      ensures PlainSet() && visited == old(visited) + {key}
      ensures added <==> key !in old(visited)
    {
      if useBloom == None {
        useBloom := Some(false);
      }
      added := key !in visited;
      visited := visited + {key};
    }
  }

  /** The state of a fan-out after some of its links. */
  datatype Progress = Progress(
    row: Row, visited: set<Text>, published: seq<Message>, queued: nat, skipped: nat, failed: nat)

  function OneLink(env: Env, request: Message, p: Progress, link: Text, accepted: bool): Progress
    requires request.Page?
  {
    var key := env.keyOf(link);
    if key in p.visited then
      p.(row := CompleteTask(p.row, false), skipped := p.skipped + 1)
    else if accepted then
      p.(visited := p.visited + {key},
         published := p.published + [ChildPage(request, link, env.assign(link))],
         queued := p.queued + 1)
    else
      p.(visited := p.visited + {key}, row := CompleteTask(p.row, false), failed := p.failed + 1)
  }

  function Links(env: Env, request: Message, p: Progress, links: seq<Text>, broker: seq<bool>): Progress
    requires request.Page? && |links| <= |broker|
  {
    if links == [] then p
    else
      var n := |links| - 1;
      OneLink(env, request, Links(env, request, p, links[..n], broker), links[n], broker[n])
  }

  function Keeps(env: Env, config: CrawlConfig): Text -> bool {
    (u: Text) => env.accepts(config, u)
  }

  /** broker[k] says whether the k-th send is accepted. */
  method ExtractAndQueueChildren(env: Env, db: JobTable, dedup: DedupService, topic: Topic,
                                 request: Message, extracted: seq<Text>, broker: seq<bool>)
    returns (filtered: seq<Text>, queued: nat, skipped: nat)
    requires request.Page? && |extracted| <= |broker| && dedup.PlainSet()
    modifies db, dedup, topic
    ensures dedup.PlainSet()
    ensures filtered == if FansOut(request)
                        then Filter(extracted, Keeps(env, FilterConfig(request))) else []
    ensures |filtered| <= |broker|
    ensures var start := Progress(RegisterTasks(old(db.row), |filtered|), old(dedup.visited), [], 0, 0, 0);
            var end := Links(env, request, start, filtered, broker);
            && db.row == end.row && dedup.visited == end.visited
            && topic.messages == old(topic.messages) + end.published
            && queued == end.queued && skipped == end.skipped
    ensures var seen := old(dedup.visited);
            && queued == |set k | 0 <= k < |filtered| && IsNew(env, seen, filtered, k) && broker[k]|
            && skipped == |set k | 0 <= k < |filtered| && !IsNew(env, seen, filtered, k)|
  {
    if request.depth >= request.maxDepth || !request.config.enableExtraction || extracted == [] {
      return [], 0, 0;
    }
    filtered := FilterLinks(env, FilterConfig(request), extracted);
    db.RegisterJobTasks(|filtered|);
    queued, skipped := QueueLinks(env, db, dedup, topic, request, filtered, broker);
  }

  /** The loop over the filtered links, whose slots are already reserved. */
  method QueueLinks(env: Env, db: JobTable, dedup: DedupService, topic: Topic,
                    request: Message, links: seq<Text>, broker: seq<bool>)
    returns (queued: nat, skipped: nat)
    requires request.Page? && |links| <= |broker| && dedup.PlainSet()
    modifies db, dedup, topic
    ensures dedup.PlainSet()
    ensures var end := Links(env, request, Progress(old(db.row), old(dedup.visited), [], 0, 0, 0), links, broker);
            && db.row == end.row && dedup.visited == end.visited
            && topic.messages == old(topic.messages) + end.published
            && queued == end.queued && skipped == end.skipped
    ensures var seen := old(dedup.visited);
            && queued == |set k | 0 <= k < |links| && IsNew(env, seen, links, k) && broker[k]|
            && skipped == |set k | 0 <= k < |links| && !IsNew(env, seen, links, k)|
  {
    LinksCounted(env, request, db.row, dedup.visited, links, broker);
    queued, skipped := 0, 0;
    ghost var start := Progress(db.row, dedup.visited, [], 0, 0, 0);
    ghost var now := start;
    ghost var sent := topic.messages;
    var k := 0;
    while k < |links|
      invariant 0 <= k <= |links| && dedup.PlainSet()
      invariant now == Links(env, request, start, links[..k], broker)
      invariant db.row == now.row && dedup.visited == now.visited
      invariant topic.messages == sent + now.published
      invariant queued == now.queued && skipped == now.skipped
    {
      LinksSnoc(env, request, start, links, broker, k);
      var link := links[k];
      var normalized := env.keyOf(link);
      now := OneLink(env, request, now, link, broker[k]);
      var seen := dedup.IsVisited(normalized);
      if seen {
        skipped := skipped + 1;
        var _ := db.CompleteJobTask(false);
      } else {
        var _ := dedup.MarkVisited(normalized);
        var child := ChildPage(request, link, env.assign(link));
        var ok := topic.SendAndWait(child, broker[k]);
        if ok {
          queued := queued + 1;
        } else {
          var _ := db.CompleteJobTask(false);
        }
      }
      k := k + 1;
    }
    assert links[..k] == links;
  }

  lemma LinksSnoc(env: Env, request: Message, p: Progress, links: seq<Text>, broker: seq<bool>, k: nat)
    requires request.Page? && k < |links| <= |broker|
    ensures Links(env, request, p, links[..k + 1], broker)
         == OneLink(env, request, Links(env, request, p, links[..k], broker), links[k], broker[k])
  {
    assert links[..k + 1][..k] == links[..k];
  }

  method FilterLinks(env: Env, config: CrawlConfig, links: seq<Text>) returns (filtered: seq<Text>)
    ensures filtered == Filter(links, Keeps(env, config))
    ensures |filtered| <= |links|
  {
    var keep := Keeps(env, config);
    filtered := [];
    for k := 0 to |links|
      invariant filtered == Filter(links[..k], keep) && |filtered| <= k
    {
      assert links[..k + 1] == links[..k] + [links[k]];
      FilterAppend(links[..k], [links[k]], keep);
      if env.accepts(config, links[k]) {
        filtered := filtered + [links[k]];
      }
    }
    assert links[..|links|] == links;
  }

  // ---------------------------------------------------------------------
  // What a fan-out does
  // ---------------------------------------------------------------------

  lemma OneLinkBalance(env: Env, request: Message, p: Progress, link: Text, accepted: bool)
    requires request.Page? && p.row.activeTasks >= 2
    ensures var q := OneLink(env, request, p, link, accepted);
            && q.queued + q.skipped + q.failed == p.queued + p.skipped + p.failed + 1
            && |q.published| - |p.published| == q.queued - p.queued
            && q.row == p.row.(activeTasks := p.row.activeTasks - 1 + (q.queued - p.queued))
  {
  }

  /** Every link is queued, skipped or failed, and every reserved slot is carried by a
      message or given back. The page's own slot keeps the job from completing meanwhile. */
  lemma {:induction false} LinksBalance(env: Env, request: Message, p: Progress, links: seq<Text>, broker: seq<bool>)
    requires request.Page? && |links| <= |broker| && p.row.activeTasks >= 1 + |links|
    ensures var q := Links(env, request, p, links, broker);
            && q.queued >= p.queued
            && q.queued + q.skipped + q.failed == p.queued + p.skipped + p.failed + |links|
            && |q.published| - |p.published| == q.queued - p.queued
            && q.row == p.row.(activeTasks := p.row.activeTasks - |links| + (q.queued - p.queued))
  {
    if links != [] {
      var n := |links| - 1;
      LinksBalance(env, request, p, links[..n], broker);
      OneLinkBalance(env, request, Links(env, request, p, links[..n], broker), links[n], broker[n]);
    }
  }

  /** The whole fan-out of a page that holds its own slot moves the counter by exactly the
      number of children queued and leaves the status alone. */
  lemma FanOutAddsQueued(env: Env, request: Message, row: Row, visited: set<Text>, links: seq<Text>, broker: seq<bool>)
    requires request.Page? && |links| <= |broker| && row.activeTasks >= 1
    ensures var q := Links(env, request, Progress(RegisterTasks(row, |links|), visited, [], 0, 0, 0), links, broker);
            && q.row == row.(activeTasks := row.activeTasks + q.queued)
            && q.queued == |q.published| && q.queued + q.skipped + q.failed == |links|
  {
    LinksBalance(env, request, Progress(RegisterTasks(row, |links|), visited, [], 0, 0, 0), links, broker);
  }

  predicate IsNew(env: Env, visited: set<Text>, links: seq<Text>, k: nat)
    requires k < |links|
  {
    env.keyOf(links[k]) !in visited && forall j :: 0 <= j < k ==> env.keyOf(links[j]) != env.keyOf(links[k])
  }

  predicate DistinctKeys(env: Env, published: seq<Message>) {
    && (forall m :: m in published ==> m.Page?)
    && forall i, j :: 0 <= i < j < |published| ==> env.keyOf(published[i].url) != env.keyOf(published[j].url)
  }

  /** The child published for link k, if it is. */
  predicate Publishes(env: Env, request: Message, visited: set<Text>, links: seq<Text>, broker: seq<bool>,
                      k: nat, m: Message)
    requires request.Page? && k < |links| <= |broker|
  {
    IsNew(env, visited, links, k) && broker[k] && m == ChildPage(request, links[k], env.assign(links[k]))
  }

  lemma {:induction false} LinksVisit(env: Env, request: Message, p: Progress, links: seq<Text>, broker: seq<bool>)
    requires request.Page? && |links| <= |broker|
    ensures forall x :: x in Links(env, request, p, links, broker).visited <==>
              x in p.visited || exists k :: 0 <= k < |links| && env.keyOf(links[k]) == x
  {
    if links != [] {
      var n := |links| - 1;
      LinksVisit(env, request, p, links[..n], broker);
      assert forall k :: 0 <= k < n ==> links[..n][k] == links[k];
    }
  }

  lemma LastIsNew(env: Env, request: Message, p: Progress, links: seq<Text>, broker: seq<bool>)
    requires request.Page? && 0 < |links| <= |broker|
    ensures var n := |links| - 1;
            env.keyOf(links[n]) in Links(env, request, p, links[..n], broker).visited
            <==> !IsNew(env, p.visited, links, n)
  {
    var n := |links| - 1;
    LinksVisit(env, request, p, links[..n], broker);
    assert forall k :: 0 <= k < n ==> links[..n][k] == links[k];
  }

  lemma {:induction false} LinksDistinct(env: Env, request: Message, p: Progress, links: seq<Text>, broker: seq<bool>)
    requires request.Page? && |links| <= |broker| && DistinctKeys(env, p.published)
    requires forall m :: m in p.published ==> m.Page? && env.keyOf(m.url) in p.visited
    ensures var q := Links(env, request, p, links, broker);
            && DistinctKeys(env, q.published)
            && forall m :: m in q.published ==> m.Page? && env.keyOf(m.url) in q.visited
  {
    if links != [] {
      var n := |links| - 1;
      LinksDistinct(env, request, p, links[..n], broker);
      var q := Links(env, request, p, links[..n], broker);
      assert forall i :: 0 <= i < |q.published| ==> q.published[i] in q.published;
    }
  }

  lemma {:induction false} LinksPublishExactly(env: Env, request: Message, p: Progress,
                                               links: seq<Text>, broker: seq<bool>, m: Message)
    requires request.Page? && |links| <= |broker|
    ensures m in Links(env, request, p, links, broker).published <==>
            m in p.published || exists k :: 0 <= k < |links| && Publishes(env, request, p.visited, links, broker, k, m)
  {
    if links != [] {
      var n := |links| - 1;
      var front := links[..n];
      LinksPublishExactly(env, request, p, front, broker, m);
      LastIsNew(env, request, p, links, broker);
      forall k | 0 <= k < n
        ensures Publishes(env, request, p.visited, links, broker, k, m)
            <==> Publishes(env, request, p.visited, front, broker, k, m)
      {
        assert forall j :: 0 <= j <= k ==> front[j] == links[j];
      }
      var before, after := Links(env, request, p, front, broker), Links(env, request, p, links, broker);
      assert m in after.published <==> m in before.published || Publishes(env, request, p.visited, links, broker, n, m);
    }
  }

  /** Which of the links end up on each of the three counters. */
  function Repeated(env: Env, visited: set<Text>, links: seq<Text>): set<int> {
    set k | 0 <= k < |links| && !IsNew(env, visited, links, k)
  }

  function Sent(env: Env, visited: set<Text>, links: seq<Text>, broker: seq<bool>, accepted: bool): set<int>
    requires |links| <= |broker|
  {
    set k | 0 <= k < |links| && IsNew(env, visited, links, k) && broker[k] == accepted
  }

  lemma NewInFront(env: Env, visited: set<Text>, links: seq<Text>, k: nat)
    requires k + 1 < |links|
    ensures IsNew(env, visited, links, k) <==> IsNew(env, visited, links[..|links| - 1], k)
  {
    var front := links[..|links| - 1];
    assert forall j :: 0 <= j <= k ==> front[j] == links[j];
  }

  lemma OneMoreRepeated(env: Env, visited: set<Text>, links: seq<Text>)
    requires 0 < |links|
    ensures var n := |links| - 1;
            |Repeated(env, visited, links)|
            == |Repeated(env, visited, links[..n])| + (if IsNew(env, visited, links, n) then 0 else 1)
  {
    var n := |links| - 1;
    var before, after := Repeated(env, visited, links[..n]), Repeated(env, visited, links);
    forall k
      ensures k in after <==> k in before || (k == n && !IsNew(env, visited, links, n))
    {
      if 0 <= k < n {
        NewInFront(env, visited, links, k);
      }
    }
    OneMoreMember(before, after, n, !IsNew(env, visited, links, n));
  }

  lemma OneMoreSent(env: Env, visited: set<Text>, links: seq<Text>, broker: seq<bool>, accepted: bool)
    requires 0 < |links| <= |broker|
    ensures var n := |links| - 1;
            |Sent(env, visited, links, broker, accepted)|
            == |Sent(env, visited, links[..n], broker, accepted)|
               + (if IsNew(env, visited, links, n) && broker[n] == accepted then 1 else 0)
  {
    var n := |links| - 1;
    var joins := IsNew(env, visited, links, n) && broker[n] == accepted;
    var before, after := Sent(env, visited, links[..n], broker, accepted), Sent(env, visited, links, broker, accepted);
    forall k
      ensures k in after <==> k in before || (k == n && joins)
    {
      if 0 <= k < n {
        NewInFront(env, visited, links, k);
      }
    }
    OneMoreMember(before, after, n, joins);
  }

  lemma {:induction false} LinksAddUp(env: Env, request: Message, p: Progress, links: seq<Text>, broker: seq<bool>)
    requires request.Page? && |links| <= |broker|
    ensures var q := Links(env, request, p, links, broker);
            && q.skipped == p.skipped + |Repeated(env, p.visited, links)|
            && q.queued == p.queued + |Sent(env, p.visited, links, broker, true)|
            && q.failed == p.failed + |Sent(env, p.visited, links, broker, false)|
  {
    if links != [] {
      var n := |links| - 1;
      LinksAddUp(env, request, p, links[..n], broker);
      LastIsNew(env, request, p, links, broker);
      OneMoreRepeated(env, p.visited, links);
      OneMoreSent(env, p.visited, links, broker, true);
      OneMoreSent(env, p.visited, links, broker, false);
    }
  }

  /** A link is skipped when its key is not new, queued when it is and the broker takes the
      message, and failed when it is and the broker does not. */
  lemma LinksCounted(env: Env, request: Message, row: Row, visited: set<Text>, links: seq<Text>, broker: seq<bool>)
    requires request.Page? && |links| <= |broker|
    ensures var q := Links(env, request, Progress(row, visited, [], 0, 0, 0), links, broker);
            && q.skipped == |set k | 0 <= k < |links| && !IsNew(env, visited, links, k)|
            && q.queued == |set k | 0 <= k < |links| && IsNew(env, visited, links, k) && broker[k]|
            && q.failed == |set k | 0 <= k < |links| && IsNew(env, visited, links, k) && !broker[k]|
  {
    LinksAddUp(env, request, Progress(row, visited, [], 0, 0, 0), links, broker);
    assert Sent(env, visited, links, broker, true)
        == set k | 0 <= k < |links| && IsNew(env, visited, links, k) && broker[k];
    assert Sent(env, visited, links, broker, false)
        == set k | 0 <= k < |links| && IsNew(env, visited, links, k) && !broker[k];
  }

  /** Of one uninterrupted fan-out: exactly the links whose key nobody marked before and
      whose send is accepted become children, no two with one key; every link's key ends up
      marked, so a link whose send failed is not tried again by a later page. */
  lemma FanOutPublishesExactly(env: Env, request: Message, row: Row, visited: set<Text>,
                               links: seq<Text>, broker: seq<bool>)
    requires request.Page? && |links| <= |broker|
    ensures var q := Links(env, request, Progress(row, visited, [], 0, 0, 0), links, broker);
            && DistinctKeys(env, q.published)
            && (forall x :: x in q.visited <==>
                  x in visited || exists k :: 0 <= k < |links| && env.keyOf(links[k]) == x)
            && (forall m :: m in q.published <==>
                  exists k :: 0 <= k < |links| && Publishes(env, request, visited, links, broker, k, m))
  {
    var p := Progress(row, visited, [], 0, 0, 0);
    LinksDistinct(env, request, p, links, broker);
    LinksVisit(env, request, p, links, broker);
    forall m {
      LinksPublishExactly(env, request, p, links, broker, m);
    }
  }

  // ---------------------------------------------------------------------
  // The fan-out is a run of the protocol
  // ---------------------------------------------------------------------

  function PublishedTasks(messages: seq<Message>, root: nat): seq<Task> {
    seq(|messages|, k requires 0 <= k < |messages| => Task(messages[k], {}, Published, root))
  }

  /** The protocol state that corresponds to a fan-out of task i with left slots unused. */
  function After(s: State, i: nat, left: nat, p: Progress): State
    requires i < |s.tasks|
  {
    s.(row := p.row,
       visited := p.visited,
       tasks := s.tasks[i := s.tasks[i].(phase := Reserving(FanOut, left, Idle))]
                + PublishedTasks(p.published, s.tasks[i].root))
  }

  predicate AllAccepted(env: Env, m: Message, links: seq<Text>)
    requires m.Page?
  {
    forall link :: link in links ==> env.accepts(FilterConfig(m), link)
  }

  lemma OneLinkIsRun(env: Env, s: State, i: nat, left: nat, p: Progress, link: Text, accepted: bool)
    returns (steps: seq<Step>)
    requires i < |s.tasks| && s.tasks[i].msg.Page? && left >= 1
    requires env.accepts(FilterConfig(s.tasks[i].msg), link)
    ensures CanRun(env, After(s, i, left, p), steps)
    ensures Run(env, After(s, i, left, p), steps)
         == After(s, i, left - 1, OneLink(env, s.tasks[i].msg, p, link, accepted))
  {
    var s0 := After(s, i, left, p);
    var q := OneLink(env, s.tasks[i].msg, p, link, accepted);
    var end := After(s, i, left - 1, q);
    var s1 := Apply(env, s0, CheckLink(i, link));
    if env.keyOf(link) in p.visited {
      assert s1.tasks == end.tasks;
      steps := [CheckLink(i, link)];
      RunOne(env, s0, steps, end);
    } else {
      var s2 := Apply(env, s1, MarkLink(i));
      var last := if accepted then PublishLink(i) else ReturnSlot(i);
      assert Apply(env, s2, last).tasks == end.tasks;
      steps := [CheckLink(i, link)] + [MarkLink(i), last];
      RunOne(env, s0, [CheckLink(i, link)], s1);
      RunTwo(env, s1, [MarkLink(i), last], s2, end);
      RunAppend(env, s0, [CheckLink(i, link)], [MarkLink(i), last]);
    }
  }

  lemma OneMoreLink(env: Env, s: State, i: nat, start: State, front: seq<Step>, left: nat, p: Progress,
                    link: Text, accepted: bool)
    returns (steps: seq<Step>)
    requires i < |s.tasks| && s.tasks[i].msg.Page? && left >= 1
    requires env.accepts(FilterConfig(s.tasks[i].msg), link)
    requires CanRun(env, start, front) && Run(env, start, front) == After(s, i, left, p)
    ensures CanRun(env, start, steps)
    ensures Run(env, start, steps) == After(s, i, left - 1, OneLink(env, s.tasks[i].msg, p, link, accepted))
  {
    var last := OneLinkIsRun(env, s, i, left, p, link, accepted);
    steps := Joined(env, start, front, After(s, i, left, p), last);
  }

  /** The steps for links, when there are steps for all but the last of them. */
  lemma LastLinkIsRun(env: Env, s: State, i: nat, left: nat, p: Progress, links: seq<Text>, broker: seq<bool>,
                      front: seq<Step>)
    returns (steps: seq<Step>)
    requires i < |s.tasks| && s.tasks[i].msg.Page? && 0 < |links| <= |broker| && |links| <= left
    requires env.accepts(FilterConfig(s.tasks[i].msg), links[|links| - 1])
    requires CanRun(env, After(s, i, left, p), front)
    requires var n := |links| - 1;
             Run(env, After(s, i, left, p), front)
             == After(s, i, left - n, Links(env, s.tasks[i].msg, p, links[..n], broker))
    ensures CanRun(env, After(s, i, left, p), steps)
    ensures Run(env, After(s, i, left, p), steps)
         == After(s, i, left - |links|, Links(env, s.tasks[i].msg, p, links, broker))
  {
    var n := |links| - 1;
    var mid := Links(env, s.tasks[i].msg, p, links[..n], broker);
    steps := OneMoreLink(env, s, i, After(s, i, left, p), front, left - n, mid, links[n], broker[n]);
  }

  lemma {:induction false} LinksAreRun(env: Env, s: State, i: nat, left: nat, p: Progress,
                                       links: seq<Text>, broker: seq<bool>)
    returns (steps: seq<Step>)
    requires i < |s.tasks| && s.tasks[i].msg.Page? && |links| <= |broker| && |links| <= left
    requires AllAccepted(env, s.tasks[i].msg, links)
    ensures CanRun(env, After(s, i, left, p), steps)
    ensures Run(env, After(s, i, left, p), steps)
         == After(s, i, left - |links|, Links(env, s.tasks[i].msg, p, links, broker))
  {
    if links == [] {
      steps := [];
    } else {
      var front := LinksAreRun(env, s, i, left, p, links[..|links| - 1], broker);
      steps := LastLinkIsRun(env, s, i, left, p, links, broker, front);
    }
  }

  /** What ExtractAndQueueChildren does to the row, the visited set and the topic is a run of
      the protocol that starts when the page's handler calls it and ends with no slot left
      over, so every invariant of the protocol holds throughout. */
  lemma FanOutIsRun(env: Env, s: State, i: nat, links: seq<Text>, broker: seq<bool>) returns (steps: seq<Step>)
    requires i < |s.tasks| && s.tasks[i].msg.Page? && s.tasks[i].phase.Started?
    requires CanReserve(env, s.tasks[i].msg, FanOut, |links|) && |links| <= |broker|
    requires AllAccepted(env, s.tasks[i].msg, links)
    ensures CanRun(env, s, steps)
    ensures Run(env, s, steps)
         == After(s, i, 0, Links(env, s.tasks[i].msg,
                                 Progress(RegisterTasks(s.row, |links|), s.visited, [], 0, 0, 0), links, broker))
  {
    var start := Progress(RegisterTasks(s.row, |links|), s.visited, [], 0, 0, 0);
    var reserve := [Reserve(i, FanOut, |links|)];
    var s1 := After(s, i, |links|, start);
    assert Apply(env, s, reserve[0]).tasks == s1.tasks;
    RunOne(env, s, reserve, s1);
    var rest := LinksAreRun(env, s, i, |links|, start, links, broker);
    RunAppend(env, s, reserve, rest);
    steps := reserve + rest;
  }

  /** The wrapper takes its failure path: fail_job, then a failed settlement. */
  predicate Fails(outcome: Outcome, timeoutFailsJob: bool) {
    outcome.Raised? || (outcome.TimedOut? && timeoutFailsJob)
  }

  /** However the handler of a page ends, what process_message_safely does to the row is a run
      of the protocol: a settlement, after an escaped exception if it fails the job. It leaks
      exactly the slots the handler still had reserved. */
  lemma WrapperIsRun(env: Env, s: State, i: nat, outcome: Outcome, timeoutFailsJob: bool) returns (steps: seq<Step>)
    requires i < |s.tasks| && s.tasks[i].msg.Page? && (s.tasks[i].phase.Started? || s.tasks[i].phase.Reserving?)
    requires Fails(outcome, timeoutFailsJob) ==> MayRaise(s.tasks[i].msg)
    ensures CanRun(env, s, steps)
    ensures var m, end := s.tasks[i].msg, Run(env, s, steps);
            && end.row == Wrapped(s.row, EnvelopeOf(JOB_ID, m), WorkerName(m.owner), outcome, timeoutFailsJob)
            && end.tasks == s.tasks[i := s.tasks[i].(phase := Settled)]
            && end.leaked == s.leaked + Kept(s.tasks[i]) && end.visited == s.visited
  {
    if Fails(outcome, timeoutFailsJob) {
      var mid := Apply(env, s, Raise(i));
      steps := [Raise(i), Settle(i)];
      RunTwo(env, s, steps, mid, Apply(env, mid, Settle(i)));
    } else {
      steps := [Settle(i)];
      RunOne(env, s, steps, Apply(env, s, Settle(i)));
    }
  }
}
