/**
 The Agent's paths for pushes and scrapes: which bucket or proxy a request path names, and that
 the paths under which buckets and proxies are announced lead back to them.

 Paths are as a handler sees them, decoded and without the redirects of the HTTP library.
 */
module AgentRoutes {
  import opened GroupPath

  datatype Route =
    | PushTo(bucket: string, rest: string)
    | BadPushPath
    | ScrapeBucket(name: string)
    | ScrapeProxy(name: string)
    | Elsewhere

  const PUSH := "/push/"
  const BUCKET := "/bucket/"
  const PROXY := "/proxy/"
  const METRICS := "/metrics"

  function TrimPrefix(s: string, prefix: string): string {
    if prefix <= s then s[|prefix|..] else s
  }

  function TrimSuffix(s: string, suffix: string): string {
    if HasSuffix(s, suffix) then s[..|s| - |suffix|] else s
  }

  /** The name in `<prefix><name>/metrics`. */
  function ScrapedName(path: string, prefix: string): string {
    TrimRight(TrimLeft(TrimSuffix(TrimPrefix(path, prefix), METRICS)))
  }

  /** The position of the first slash. */
  function FirstSlash(s: string): (k: nat)
    ensures k <= |s| && '/' !in s[..k] && (k < |s| ==> s[k] == '/')
  {
    if s == "" || s[0] == '/' then 0
    else
      var k := FirstSlash(s[1..]);
      assert s[..k + 1] == [s[0]] + s[1..][..k];
      k + 1
  }

  function PushRoute(path: string): Route {
    var tail := TrimPrefix(path, PUSH);
    var k := FirstSlash(tail);
    if k == |tail| then BadPushPath else PushTo(tail[..k], tail[k + 1..])
  }

  function RouteOf(path: string): Route {
    if PUSH <= path then PushRoute(path)
    else if BUCKET <= path then ScrapeBucket(ScrapedName(path, BUCKET))
    else if PROXY <= path then ScrapeProxy(ScrapedName(path, PROXY))
    else Elsewhere
  }

  /** No slash at either end. */
  predicate Unslashed(n: string) {
    n == "" || (n[0] != '/' && n[|n| - 1] != '/')
  }

  lemma {:induction false} TrimLeftIff(s: string)
    ensures TrimLeft(s) == s <==> s == "" || s[0] != '/'
    ensures TrimLeft(s) == s || |TrimLeft(s)| < |s|
    decreases |s|
  {
    if s != "" && s[0] == '/' {
      TrimLeftIff(s[1..]);
    }
  }

  lemma {:induction false} TrimRightIff(s: string)
    ensures TrimRight(s) == s <==> s == "" || s[|s| - 1] != '/'
    ensures TrimRight(s) == s || |TrimRight(s)| < |s|
    decreases |s|
  {
    if s != "" && s[|s| - 1] == '/' {
      TrimRightIff(s[..|s| - 1]);
    }
  }

  lemma TrimmedIff(n: string)
    ensures TrimRight(TrimLeft(n)) == n <==> Unslashed(n)
  {
    TrimLeftIff(n);
    TrimRightIff(TrimLeft(n));
  }

  lemma ScrapedNameOf(n: string, prefix: string)
    ensures ScrapedName(prefix + n + METRICS, prefix) == TrimRight(TrimLeft(n))
  {
    var path := prefix + n + METRICS;
    assert path == prefix + (n + METRICS);
    assert TrimPrefix(path, prefix) == n + METRICS;
    assert (n + METRICS)[|n|..] == METRICS && (n + METRICS)[..|n|] == n;
  }

  lemma DiffersAt(a: string, b: string, i: nat)
    requires i < |a| && i < |b| && a[i] != b[i]
    ensures !(a <= b)
  {
  }

  lemma BucketPathRoute(n: string)
    ensures RouteOf(BUCKET + n + METRICS) == ScrapeBucket(TrimRight(TrimLeft(n)))
  {
    var path := BUCKET + n + METRICS;
    DiffersAt(PUSH, path, 1);
    ScrapedNameOf(n, BUCKET);
  }

  lemma ProxyPathRoute(n: string)
    ensures RouteOf(PROXY + n + METRICS) == ScrapeProxy(TrimRight(TrimLeft(n)))
  {
    var path := PROXY + n + METRICS;
    DiffersAt(PUSH, path, 2);
    DiffersAt(BUCKET, path, 1);
    ScrapedNameOf(n, PROXY);
  }

  /** The path announced for a bucket leads to that bucket, and the path announced for a proxy to
      that proxy, exactly if the name has no slash at either end. */
  lemma AnnouncedPathsLeadBack(n: string)
    ensures RouteOf("/bucket/" + n + "/metrics") == ScrapeBucket(n) <==> Unslashed(n)
    ensures RouteOf("/proxy/" + n + "/metrics") == ScrapeProxy(n) <==> Unslashed(n)
  {
    TrimmedIff(n);
    BucketPathRoute(n);
    ProxyPathRoute(n);
  }

  lemma {:induction false} FirstSlashAtMost(s: string, i: nat)
    requires i < |s| && s[i] == '/'
    ensures FirstSlash(s) <= i
    decreases i
  {
    if s[0] != '/' {
      FirstSlashAtMost(s[1..], i - 1);
    }
  }

  /** Metrics can be pushed to a bucket exactly if its name has no slash at all. */
  lemma PushPathsLeadTo(n: string, rest: string)
    ensures RouteOf("/push/" + n + "/" + rest) == PushTo(n, rest) <==> '/' !in n
  {
    var path, tail := PUSH + n + "/" + rest, n + ("/" + rest);
    assert path == PUSH + tail && PUSH <= path;
    assert TrimPrefix(path, PUSH) == tail;
    var k := FirstSlash(tail);
    assert tail[|n|] == '/';
    FirstSlashAtMost(tail, |n|);
    if k < |n| {
      assert tail[..k] == n[..k] && n[k] == '/';
      assert |tail[..k]| != |n|;
    } else {
      assert tail[..k] == n && tail[k + 1..] == rest;
    }
  }
}
