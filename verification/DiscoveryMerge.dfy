/** The nested merge loops of topic discovery (app/services/discovery_service.py). */
module DiscoveryMerge {
  import opened Common

  function Flatten(groups: seq<seq<Text>>): seq<Text> {
    if groups == [] then [] else Flatten(groups[..|groups| - 1]) + groups[|groups| - 1]
  }

  function Keys(urls: seq<Text>, keyOf: Text -> Text): set<Text> {
    if urls == [] then {} else Keys(urls[..|urls| - 1], keyOf) + {keyOf(urls[|urls| - 1])}
  }

  lemma {:induction false} KeysMember(urls: seq<Text>, keyOf: Text -> Text, k: Text)
    ensures k in Keys(urls, keyOf) <==> exists u :: u in urls && keyOf(u) == k
  {
    if urls != [] {
      var n := |urls| - 1;
      KeysMember(urls[..n], keyOf, k);
      assert urls == urls[..n] + [urls[n]];
    }
  }

  lemma {:induction false} KeysAppend(a: seq<Text>, b: seq<Text>, keyOf: Text -> Text)
    ensures Keys(a + b, keyOf) == Keys(a, keyOf) + Keys(b, keyOf)
  {
    if b == [] {
      assert a + b == a;
    } else {
      var n := |b| - 1;
      assert (a + b)[..|a + b| - 1] == a + b[..n];
      KeysAppend(a, b[..n], keyOf);
    }
  }

  /** The URLs that are the first with their key, in order. */
  function Firsts(urls: seq<Text>, keyOf: Text -> Text): seq<Text> {
    if urls == [] then []
    else
      var n := |urls| - 1;
      var front := Firsts(urls[..n], keyOf);
      if keyOf(urls[n]) in Keys(urls[..n], keyOf) then front else front + [urls[n]]
  }

  function Take(urls: seq<Text>, n: nat): seq<Text> {
    if |urls| <= n then urls else urls[..n]
  }

  lemma {:induction false} FirstsExtend(urls: seq<Text>, more: seq<Text>, keyOf: Text -> Text)
    ensures Firsts(urls, keyOf) <= Firsts(urls + more, keyOf)
  {
    if more == [] {
      assert urls + more == urls;
    } else {
      var n := |more| - 1;
      assert (urls + more)[..|urls + more| - 1] == urls + more[..n];
      FirstsExtend(urls, more[..n], keyOf);
    }
  }

  lemma {:induction false} FlattenExtend(groups: seq<seq<Text>>, g: nat)
    requires g <= |groups|
    ensures Flatten(groups[..g]) <= Flatten(groups)
    decreases |groups|
  {
    if g < |groups| {
      var n := |groups| - 1;
      assert groups[..n][..g] == groups[..g];
      FlattenExtend(groups[..n], g);
    } else {
      assert groups[..g] == groups;
    }
  }

  /** Once enough first occurrences have been seen, the rest of the input does not matter. */
  lemma EnoughSeen(urls: seq<Text>, all: seq<Text>, keyOf: Text -> Text, n: nat)
    requires urls <= all && |Firsts(urls, keyOf)| == n
    ensures Take(Firsts(all, keyOf), n) == Firsts(urls, keyOf)
  {
    FirstsExtend(urls, all[|urls|..], keyOf);
    assert urls + all[|urls|..] == all;
  }

  /** Stop after the first group when the limit is not positive: the outer break comes even
      after a group that added nothing. */
  function Merged(groups: seq<seq<Text>>, maxResults: int, keyOf: Text -> Text): seq<Text> {
    if maxResults >= 1 then Take(Firsts(Flatten(groups), keyOf), maxResults)
    else if groups == [] then []
    else Take(groups[0], 1)
  }

  lemma AddUrl(done: seq<Text>, url: Text, keyOf: Text -> Text)
    ensures Keys(done + [url], keyOf) == Keys(done, keyOf) + {keyOf(url)}
    ensures Firsts(done + [url], keyOf)
         == if keyOf(url) in Keys(done, keyOf) then Firsts(done, keyOf) else Firsts(done, keyOf) + [url]
  {
    assert (done + [url])[..|done|] == done;
  }

  lemma Further(before: seq<Text>, group: seq<Text>, k: nat, keyOf: Text -> Text)
    requires k < |group|
    ensures var f, s, key := Firsts(before + group[..k], keyOf), Keys(before + group[..k], keyOf), keyOf(group[k]);
            && Firsts(before + group[..k + 1], keyOf) == (if key in s then f else f + [group[k]])
            && Keys(before + group[..k + 1], keyOf) == (if key in s then s else s + {key})
  {
    assert before + group[..k + 1] == before + group[..k] + [group[k]];
    AddUrl(before + group[..k], group[k], keyOf);
    var s := Keys(before + group[..k], keyOf);
    assert keyOf(group[k]) in s ==> s + {keyOf(group[k])} == s;
  }

  /** One URL after the other: seeds and keys after each number of URLs of the group. */
  predicate Follows(group: seq<Text>, keyOf: Text -> Text, firsts: seq<seq<Text>>, keys: seq<set<Text>>) {
    && |firsts| == |keys| == |group| + 1
    && forall k :: 0 <= k < |group| ==>
         var key := keyOf(group[k]);
         && firsts[k + 1] == (if key in keys[k] then firsts[k] else firsts[k] + [group[k]])
         && keys[k + 1] == (if key in keys[k] then keys[k] else keys[k] + {key})
  }

  ghost function FirstsAfter(before: seq<Text>, group: seq<Text>, keyOf: Text -> Text): seq<seq<Text>> {
    seq(|group| + 1, k requires 0 <= k <= |group| => Firsts(before + group[..k], keyOf))
  }

  ghost function KeysAfter(before: seq<Text>, group: seq<Text>, keyOf: Text -> Text): seq<set<Text>> {
    seq(|group| + 1, k requires 0 <= k <= |group| => Keys(before + group[..k], keyOf))
  }

  lemma GroupFollows(before: seq<Text>, group: seq<Text>, keyOf: Text -> Text)
    ensures Follows(group, keyOf, FirstsAfter(before, group, keyOf), KeysAfter(before, group, keyOf))
  {
    var firsts, keys := FirstsAfter(before, group, keyOf), KeysAfter(before, group, keyOf);
    forall k | 0 <= k < |group|
      ensures var key := keyOf(group[k]);
              && firsts[k + 1] == (if key in keys[k] then firsts[k] else firsts[k] + [group[k]])
              && keys[k + 1] == (if key in keys[k] then keys[k] else keys[k] + {key})
    {
      Further(before, group, k, keyOf);
    }
  }

  lemma GroupStart(before: seq<Text>, group: seq<Text>, keyOf: Text -> Text)
    ensures FirstsAfter(before, group, keyOf)[0] == Firsts(before, keyOf)
    ensures KeysAfter(before, group, keyOf)[0] == Keys(before, keyOf)
  {
    assert before + group[..0] == before;
  }

  /** The inner loop: used counts the URLs looked at, full says that it broke off. */
  method MergeGroup(group: seq<Text>, maxResults: int, keyOf: Text -> Text,
                    ghost before: seq<Text>, found: seq<Text>, known: set<Text>)
    returns (seeds: seq<Text>, seen: set<Text>, full: bool, used: nat)
    requires found == Firsts(before, keyOf) && known == Keys(before, keyOf)
    ensures used <= |group| && (!full ==> used == |group|) && (full ==> used > 0 && |seeds| >= maxResults)
    ensures seeds == Firsts(before + group[..used], keyOf) && seen == Keys(before + group[..used], keyOf)
    ensures |found| < maxResults ==> |seeds| <= maxResults && (!full ==> |seeds| < maxResults)
    ensures before == [] && maxResults <= 0 ==> used == Min(1, |group|)
  {
    seeds, seen, full, used := found, known, false, 0;
    ghost var firsts, keys := FirstsAfter(before, group, keyOf), KeysAfter(before, group, keyOf);
    GroupFollows(before, group, keyOf);
    GroupStart(before, group, keyOf);
    while used < |group|
      invariant used <= |group| && seeds == firsts[used] && seen == keys[used]
      invariant |found| < maxResults ==> |seeds| < maxResults
      invariant before == [] && maxResults <= 0 ==> used == 0
    {
      var url := group[used];
      var key := keyOf(url);
      used := used + 1;
      if key !in seen {
        seen := seen + {key};
        seeds := seeds + [url];
        if |seeds| >= maxResults {
          full := true;
          return;
        }
      }
    }
  }

  method MergeSeeds(groups: seq<seq<Text>>, maxResults: int, keyOf: Text -> Text) returns (seeds: seq<Text>)
    ensures seeds == Merged(groups, maxResults, keyOf)
  {
    seeds := [];
    var seen: set<Text> := {};
    var g := 0;
    while g < |groups|
      invariant 0 <= g <= |groups|
      invariant seeds == Firsts(Flatten(groups[..g]), keyOf) && seen == Keys(Flatten(groups[..g]), keyOf)
      invariant maxResults >= 1 ==> |seeds| < maxResults
      invariant maxResults <= 0 ==> g == 0
    {
      ghost var before := Flatten(groups[..g]);
      assert groups[..g + 1][..g] == groups[..g];
      var full, used;
      seeds, seen, full, used := MergeGroup(groups[g], maxResults, keyOf, before, seeds, seen);
      if full || |seeds| >= maxResults {
        Stop(groups, maxResults, keyOf, g, used);
        return;
      }
      assert groups[g][..used] == groups[g];
      g := g + 1;
    }
    assert groups[..g] == groups;
  }

  lemma Stop(groups: seq<seq<Text>>, maxResults: int, keyOf: Text -> Text, g: nat, used: nat)
    requires g < |groups| && used <= |groups[g]|
    requires var f := Firsts(Flatten(groups[..g]) + groups[g][..used], keyOf);
             if maxResults >= 1 then |f| == maxResults else g == 0 && used == Min(1, |groups[g]|)
    ensures Merged(groups, maxResults, keyOf) == Firsts(Flatten(groups[..g]) + groups[g][..used], keyOf)
  {
    var next := Flatten(groups[..g]) + groups[g][..used];
    assert groups[..g + 1][..g] == groups[..g];
    FlattenExtend(groups, g + 1);
    if maxResults >= 1 {
      EnoughSeen(next, Flatten(groups), keyOf, maxResults);
    } else {
      assert next == Take(groups[0], 1);
      if used == 1 {
        assert next[..0] == [];
      }
    }
  }

  // ---------------------------------------------------------------------
  // How many seeds come back
  // ---------------------------------------------------------------------

  /** One URL per key, and the earliest one. */
  lemma {:induction false} FirstsExact(urls: seq<Text>, keyOf: Text -> Text)
    ensures Keys(Firsts(urls, keyOf), keyOf) == Keys(urls, keyOf)
    ensures |Firsts(urls, keyOf)| == |Keys(urls, keyOf)|
  {
    if urls != [] {
      var n := |urls| - 1;
      FirstsExact(urls[..n], keyOf);
      AddUrl(Firsts(urls[..n], keyOf), urls[n], keyOf);
    }
  }

  function Quota(n: int): int {
    Max(1, n / 3 + 1)
  }

  /** A merge returns exactly as many seeds as there are distinct keys, up to the limit. */
  lemma MergeCount(groups: seq<seq<Text>>, n: nat, keyOf: Text -> Text)
    requires n >= 1
    ensures |Merged(groups, n, keyOf)| == Min(n, |Keys(Flatten(groups), keyOf)|)
  {
    FirstsExact(Flatten(groups), keyOf);
  }

  // ---------------------------------------------------------------------
  // A search over all three networks
  // ---------------------------------------------------------------------

  /** What each network returns: its engines' results merged up to its quota. A network that
      failed has no engine results. */
  function Capped(nets: seq<seq<seq<Text>>>, quota: int, keyOf: Text -> Text): (capped: seq<seq<Text>>)
    ensures |capped| == |nets| && forall i :: 0 <= i < |nets| ==> capped[i] == Merged(nets[i], quota, keyOf)
  {
    if nets == [] then []
    else
      var n := |nets| - 1;
      Capped(nets[..n], quota, keyOf) + [Merged(nets[n], quota, keyOf)]
  }

  function AllSearch(nets: seq<seq<seq<Text>>>, maxResults: int, keyOf: Text -> Text): seq<Text> {
    Merged(Capped(nets, Quota(maxResults), keyOf), maxResults, keyOf)
  }

  /** _discover_all_networks over the engine results of each network. */
  method DiscoverAllNetworks(nets: seq<seq<seq<Text>>>, maxResults: int, keyOf: Text -> Text)
    returns (seeds: seq<Text>)
    ensures seeds == AllSearch(nets, maxResults, keyOf)
  {
    var quota := Max(1, maxResults / 3 + 1);
    var capped: seq<seq<Text>> := [];
    for i := 0 to |nets|
      invariant capped == Capped(nets[..i], quota, keyOf)
    {
      assert nets[..i + 1][..i] == nets[..i];
      var group := MergeSeeds(nets[i], quota, keyOf);
      capped := capped + [group];
    }
    assert nets[..|nets|] == nets;
    seeds := MergeSeeds(capped, maxResults, keyOf);
  }

  /** The keys one network contributes, and how many. */
  function CappedKeys(net: seq<seq<Text>>, quota: int, keyOf: Text -> Text): set<Text> {
    Keys(Merged(net, quota, keyOf), keyOf)
  }

  lemma TakeIsPart(urls: seq<Text>, q: nat, keyOf: Text -> Text)
    ensures Keys(Take(urls, q), keyOf) <= Keys(urls, keyOf)
  {
    if |urls| > q {
      assert urls == urls[..q] + urls[q..];
      KeysAppend(urls[..q], urls[q..], keyOf);
    }
  }

  lemma CappedKeyCount(net: seq<seq<Text>>, quota: nat, keyOf: Text -> Text)
    requires quota >= 1
    ensures |CappedKeys(net, quota, keyOf)| == Min(quota, |Keys(Flatten(net), keyOf)|)
    ensures CappedKeys(net, quota, keyOf) <= Keys(Flatten(net), keyOf)
  {
    var all := Flatten(net);
    MergeCount(net, quota, keyOf);
    TakeKeys(all, quota, keyOf);
    FirstsExact(all, keyOf);
    TakeIsPart(Firsts(all, keyOf), quota, keyOf);
  }

  /** How many seeds an "all" search returns, for any limit: as many as the three capped
      networks have distinct keys, up to n; for a limit below 1 one seed at most. */
  lemma AllSearchCount(nets: seq<seq<seq<Text>>>, n: int, keyOf: Text -> Text)
    requires |nets| == 3
    ensures var q := Quota(n);
            var keys := CappedKeys(nets[0], q, keyOf) + CappedKeys(nets[1], q, keyOf) + CappedKeys(nets[2], q, keyOf);
            |AllSearch(nets, n, keyOf)| == if n >= 1 then Min(n, |keys|) else Min(1, |Merged(nets[0], q, keyOf)|)
  {
    var c := Capped(nets, Quota(n), keyOf);
    if n >= 1 {
      FlattenThree(c);
      KeysAppend(c[0] + c[1], c[2], keyOf);
      KeysAppend(c[0], c[1], keyOf);
      MergeCount(c, n, keyOf);
    }
  }

  predicate DisjointNetworks(nets: seq<seq<seq<Text>>>, keyOf: Text -> Text) {
    forall i, j :: 0 <= i < j < |nets| ==> Keys(Flatten(nets[i]), keyOf) !! Keys(Flatten(nets[j]), keyOf)
  }

  /** What a network adds when no other one has its seeds. */
  function Share(net: seq<seq<Text>>, n: int, keyOf: Text -> Text): int {
    Min(Quota(n), |Keys(Flatten(net), keyOf)|)
  }

  /** When the networks found different things, each counts up to its quota, so the search
      returns what was asked for exactly when the shares add up to it. */
  lemma DisjointSearchCount(nets: seq<seq<seq<Text>>>, n: nat, keyOf: Text -> Text)
    requires |nets| == 3 && n >= 1 && DisjointNetworks(nets, keyOf)
    ensures var shares := Share(nets[0], n, keyOf) + Share(nets[1], n, keyOf) + Share(nets[2], n, keyOf);
            && |AllSearch(nets, n, keyOf)| == Min(n, shares)
            && (|AllSearch(nets, n, keyOf)| == n <==> shares >= n)
  {
    var q := Quota(n);
    AllSearchCount(nets, n, keyOf);
    CappedKeyCount(nets[0], q, keyOf);
    CappedKeyCount(nets[1], q, keyOf);
    CappedKeyCount(nets[2], q, keyOf);
    var a, b, c := CappedKeys(nets[0], q, keyOf), CappedKeys(nets[1], q, keyOf), CappedKeys(nets[2], q, keyOf);
    assert a !! b && a !! c && b !! c;
    assert |a + b + c| == |a| + |b| + |c|;
  }

  /** Three quotas cover the limit, so networks that each find their quota of different seeds
      give everything that was asked for. */
  lemma AllNetworksFill(nets: seq<seq<seq<Text>>>, n: nat, keyOf: Text -> Text)
    requires |nets| == 3 && n >= 1 && DisjointNetworks(nets, keyOf)
    requires forall i :: 0 <= i < 3 ==> |Keys(Flatten(nets[i]), keyOf)| >= Quota(n)
    ensures |AllSearch(nets, n, keyOf)| == n
  {
    DisjointSearchCount(nets, n, keyOf);
  }

  lemma LoneNetwork(nets: seq<seq<seq<Text>>>, keyOf: Text -> Text)
    requires |nets| == 3 && nets[1] == [] && nets[2] == []
    ensures DisjointNetworks(nets, keyOf)
    ensures Keys(Flatten(nets[1]), keyOf) == {} && Keys(Flatten(nets[2]), keyOf) == {}
  {
  }

  /** The cap is per network, though: when the first network alone finds anything, and finds
      enough, the search returns its quota only, less than asked for from n = 2 on. */
  lemma OneNetworkIsCapped(net: seq<seq<Text>>, n: nat, keyOf: Text -> Text)
    requires n >= 1 && |Keys(Flatten(net), keyOf)| >= n
    ensures |AllSearch([net, [], []], n, keyOf)| == Min(n, n / 3 + 1)
    ensures n >= 2 ==> |AllSearch([net, [], []], n, keyOf)| < n
  {
    var nets := [net, [], []];
    LoneNetwork(nets, keyOf);
    DisjointSearchCount(nets, n, keyOf);
  }

  lemma FlattenThree(groups: seq<seq<Text>>)
    requires |groups| == 3
    ensures Flatten(groups) == groups[0] + groups[1] + groups[2]
  {
    FlattenOne(groups[0]);
    var two := groups[..2];
    assert two[..1] == [groups[0]];
    assert Flatten(two) == groups[0] + groups[1];
  }

  lemma FlattenOne(group: seq<Text>)
    ensures Flatten([group]) == group
  {
    var groups := [group];
    assert groups[..0] == [];
    assert Flatten(groups[..0]) == [];
    assert [] + group == group;
  }

  lemma TakeKeys(urls: seq<Text>, q: nat, keyOf: Text -> Text)
    ensures |Keys(Take(Firsts(urls, keyOf), q), keyOf)| == |Take(Firsts(urls, keyOf), q)|
  {
    FirstsDistinct(urls, keyOf);
    var f, t := Firsts(urls, keyOf), Take(Firsts(urls, keyOf), q);
    forall i, j | 0 <= i < j < |t|
      ensures keyOf(t[i]) != keyOf(t[j])
    {
      assert t[i] == f[i] && t[j] == f[j];
    }
    DistinctCount(t, keyOf);
  }

  predicate HasDistinctKeys(f: seq<Text>, keyOf: Text -> Text) {
    forall i, j :: 0 <= i < j < |f| ==> keyOf(f[i]) != keyOf(f[j])
  }

  lemma NewKeyKeepsDistinct(f: seq<Text>, url: Text, keyOf: Text -> Text)
    requires HasDistinctKeys(f, keyOf) && keyOf(url) !in Keys(f, keyOf)
    ensures HasDistinctKeys(f + [url], keyOf)
  {
    forall i | 0 <= i < |f|
      ensures keyOf(f[i]) != keyOf(url)
    {
      assert f[i] in f;
      KeysMember(f, keyOf, keyOf(f[i]));
    }
  }

  lemma {:induction false} FirstsDistinct(urls: seq<Text>, keyOf: Text -> Text)
    ensures HasDistinctKeys(Firsts(urls, keyOf), keyOf)
  {
    if urls != [] {
      var n := |urls| - 1;
      FirstsDistinct(urls[..n], keyOf);
      FirstsExact(urls[..n], keyOf);
      if keyOf(urls[n]) !in Keys(urls[..n], keyOf) {
        NewKeyKeepsDistinct(Firsts(urls[..n], keyOf), urls[n], keyOf);
      }
    }
  }

  lemma {:induction false} DistinctCount(s: seq<Text>, keyOf: Text -> Text)
    requires forall i, j :: 0 <= i < j < |s| ==> keyOf(s[i]) != keyOf(s[j])
    ensures |Keys(s, keyOf)| == |s|
  {
    if s != [] {
      var n := |s| - 1;
      DistinctCount(s[..n], keyOf);
      KeysMember(s[..n], keyOf, keyOf(s[n]));
    }
  }
}
