/** The crawler-trap heuristics of LinkExtractionService._is_crawler_trap. */
module CrawlerTrap {
  import opened Common
  import opened TextOps
  import opened QueryCodec
  import opened UrlNormalization

  const MAX_URL_LENGTH := 2000
  const MAX_PATH_SEGMENTS := 12
  const MAX_QUERY_PARAMS := 12
  const MAX_SEGMENT_REPEAT := 4

  function Count(segments: seq<Text>, x: Text): nat {
    if segments == [] then 0
    else Count(segments[..|segments| - 1], x) + (if segments[|segments| - 1] == x then 1 else 0)
  }

  predicate TripleAt(segments: seq<Text>, i: nat) {
    i + 2 < |segments| && segments[i] == segments[i + 1] == segments[i + 2]
  }

  predicate IsFrequent(segments: seq<Text>, x: Text) {
    Count(segments, x) >= MAX_SEGMENT_REPEAT
  }

  ghost predicate Repeats(segments: seq<Text>) {
    || (exists i: nat :: TripleAt(segments, i))
    || (|segments| >= 6 && exists x :: IsFrequent(segments, x))
  }

  method HasTriple(segments: seq<Text>) returns (found: bool)
    ensures found <==> exists i: nat :: TripleAt(segments, i)
  {
    var run := 1;
    var i := 1;
    while i < |segments|
      invariant 1 <= i && (i <= |segments| || i == 1)
      invariant 1 <= run <= 2 && run <= i
      invariant forall j: nat :: j + 2 < i ==> !TripleAt(segments, j)
      invariant run == 2 ==> i >= 2 && segments[i - 2] == segments[i - 1]
      invariant run == 1 && i >= 2 && i <= |segments| ==> segments[i - 2] != segments[i - 1]
    {
      if segments[i] == segments[i - 1] {
        run := run + 1;
        if run >= 3 {
          assert TripleAt(segments, i - 2);
          return true;
        }
      } else {
        run := 1;
      }
      i := i + 1;
    }
    return false;
  }

  method HasFrequent(segments: seq<Text>) returns (found: bool)
    ensures found <==> exists x :: IsFrequent(segments, x)
  {
    var counts: map<Text, nat> := map[];
    for k := 0 to |segments|
      invariant forall x :: (if x in counts then counts[x] else 0) == Count(segments[..k], x)
      invariant forall x :: x in counts ==> counts[x] < MAX_SEGMENT_REPEAT
    {
      var s := segments[k];
      assert segments[..k + 1][..k] == segments[..k];
      counts := counts[s := (if s in counts then counts[s] else 0) + 1];
      if counts[s] >= MAX_SEGMENT_REPEAT {
        CountGrows(segments, k + 1, s);
        assert IsFrequent(segments, s);
        return true;
      }
    }
    assert segments[..|segments|] == segments;
    return false;
  }

  lemma {:induction false} CountGrows(segments: seq<Text>, k: nat, x: Text)
    requires k <= |segments|
    ensures Count(segments[..k], x) <= Count(segments, x)
    decreases |segments|
  {
    if k < |segments| {
      var n := |segments| - 1;
      assert segments[..n][..k] == segments[..k];
      CountGrows(segments[..n], k, x);
    } else {
      assert segments[..k] == segments;
    }
  }

  /** len(url): UTF-8 continuation bytes do not count. */
  function CharCount(url: Text): nat {
    if url == [] then 0
    else CharCount(url[..|url| - 1]) + (if 128 <= url[|url| - 1] < 192 then 0 else 1)
  }

  /** [s for s in path.split("/") if s] */
  function NonEmptySegments(path: Text): seq<Text> {
    Filter(Split(path, SLASH), (s: Text) => s != [])
  }

  /** A URL is a trap iff it is too long, or parses and is too deep, has too many query
      parameters, a segment three times in a row, or at least six segments of which one occurs
      at least four times. */
  ghost predicate IsTrap(url: Text) {
    || CharCount(url) > MAX_URL_LENGTH
    || (UrlParse(url).Some?
        && var p := UrlParse(url).value;
           || |NonEmptySegments(p.path)| > MAX_PATH_SEGMENTS
           || Repeats(NonEmptySegments(p.path))
           || |ParseQuery(p.query)| > MAX_QUERY_PARAMS)
  }

  lemma {:induction false} CountIsMembers(segments: seq<Text>, x: Text)
    ensures Count(segments, x) == |set k | 0 <= k < |segments| && segments[k] == x|
  {
    if segments != [] {
      var n := |segments| - 1;
      CountIsMembers(segments[..n], x);
      var before := set k | 0 <= k < |segments[..n]| && segments[..n][k] == x;
      var after := set k | 0 <= k < |segments| && segments[k] == x;
      assert forall k :: 0 <= k < n ==> segments[..n][k] == segments[k];
      OneMoreMember(before, after, n, segments[n] == x);
    }
  }

  lemma {:induction false} CharCountIsMembers(url: Text)
    ensures CharCount(url) == |set k | 0 <= k < |url| && !(128 <= url[k] < 192)|
  {
    if url != [] {
      var n := |url| - 1;
      CharCountIsMembers(url[..n]);
      var before := set k | 0 <= k < |url[..n]| && !(128 <= url[..n][k] < 192);
      var after := set k | 0 <= k < |url| && !(128 <= url[k] < 192);
      assert forall k :: 0 <= k < n ==> url[..n][k] == url[k];
      OneMoreMember(before, after, n, !(128 <= url[n] < 192));
    }
  }

  /** Three equal segments in a row. */
  lemma TripleExactly(segments: seq<Text>)
    ensures (exists i: nat :: TripleAt(segments, i)) <==>
            exists i :: 0 <= i < |segments| - 2 && segments[i] == segments[i + 1] && segments[i] == segments[i + 2]
  {
    if i: nat :| TripleAt(segments, i) {
      assert segments[i] == segments[i + 1] && segments[i] == segments[i + 2];
    }
    if i :| 0 <= i < |segments| - 2 && segments[i] == segments[i + 1] && segments[i] == segments[i + 2] {
      assert TripleAt(segments, i);
    }
  }

  /** A segment that occurs at four places at least. */
  lemma FrequentExactly(segments: seq<Text>, x: Text)
    ensures IsFrequent(segments, x) <==> |set k | 0 <= k < |segments| && segments[k] == x| >= 4
  {
    CountIsMembers(segments, x);
  }

  /** The whole test in literal terms. */
  lemma TrapExactly(url: Text)
    ensures IsTrap(url) <==>
      || CharCount(url) > 2000
      || (UrlParse(url).Some?
          && var p := UrlParse(url).value;
             var segments := Filter(Split(p.path, SLASH), (s: Text) => s != []);
             || |segments| > 12 || |ParseQuery(p.query)| > 12
             || (exists i: nat :: TripleAt(segments, i))
             || (|segments| >= 6 && exists x :: IsFrequent(segments, x)))
  {
  }

  method IsCrawlerTrap(url: Text) returns (trap: bool)
    ensures trap <==> IsTrap(url)
  {
    if CharCount(url) > MAX_URL_LENGTH { return true; }
    match UrlParse(url)
    case None => return false;
    case Some(p) =>
      var segments := NonEmptySegments(p.path);
      if |segments| > MAX_PATH_SEGMENTS { return true; }
      var triple := HasTriple(segments);
      if triple { return true; }
      if |segments| >= 6 {
        var frequent := HasFrequent(segments);
        if frequent { return true; }
      }
      return |ParseQuery(p.query)| > MAX_QUERY_PARAMS;
  }
}
