/** What the dedup key of a job comes to: crawling no resource twice. */
module CrawlResources {
  import opened Common
  import opened Messages
  import opened CrawlProtocol
  import opened CrawlDedup
  import opened UrlNormalization
  import opened UrlEquality

  /** The protocol with normalize_url as the dedup key, as recursive crawling has it. */
  ghost function KeyedEnv(base: Env, junk: set<Text>): Env {
    base.(keyOf := (u: Text) => NormalizeUrl(u, junk))
  }

  /** In every run of a job whose checks do not overlap, no two children name the same resource:
      same scheme, host, effective port, decoded path and junk-free parameters. */
  lemma NoResourceTwice(base: Env, junk: set<Text>, s0: State, steps: seq<Step>, i: nat, j: nat)
    requires var env := KeyedEnv(base, junk);
             Fresh(s0) && CanRun(env, s0, steps) && SerialRun(env, s0, steps)
    requires var tasks := Run(KeyedEnv(base, junk), s0, steps).tasks;
             i < j < |tasks| && IsChild(tasks[i].msg) && IsChild(tasks[j].msg)
    ensures var tasks := Run(KeyedEnv(base, junk), s0, steps).tasks;
            !SameTarget(tasks[i].msg.url, tasks[j].msg.url, junk)
  {
    var env := KeyedEnv(base, junk);
    var s := Run(env, s0, steps);
    NoLinkTwice(env, s0, steps);
    assert env.keyOf(s.tasks[i].msg.url) != env.keyOf(s.tasks[j].msg.url);
    SameKeyExactly(s.tasks[i].msg.url, s.tasks[j].msg.url, junk);
  }
}
