/**
 Central's merge of discovered peers with the manually configured ones. The manual peers come
 from a map, so in any order; `order` is the one a run happens to take.

 `isIP` stands for the library test whether a text is an IP address.
 */
module PeerMerge {
  import opened Types
  import opened Bags
  import opened ServiceCache
  import GroupKey

  datatype PeerSource = AutoPeer | ManualPeerSource

  datatype PeerInfo = PeerInfo(
    hostname: string,
    dnsName: string,
    ip: string,
    tags: seq<string>,
    url: string,
    source: PeerSource,
    health: AgentHealth,
    services: seq<ServiceEntry>,
    updatedAt: Option<int>)

  datatype ManualPeer = ManualPeer(name: string, address: string, port: int, fromConfig: bool)

  // Addresses

  predicate IsSpace(c: char) {
    c == ' ' || '\t' <= c <= '\r'
  }

  function TrimLeft(s: string): string {
    if s != "" && IsSpace(s[0]) then TrimLeft(s[1..]) else s
  }

  function TrimRight(s: string): string {
    if s != "" && IsSpace(s[|s| - 1]) then TrimRight(s[..|s| - 1]) else s
  }

  function TrimDot(s: string): string {
    if s != "" && s[|s| - 1] == '.' then s[..|s| - 1] else s
  }

  function LowerChar(c: char): char {
    if 'A' <= c <= 'Z' then (c as int + 32) as char else c
  }

  function Lower(s: string): string {
    seq(|s|, i requires 0 <= i < |s| => LowerChar(s[i]))
  }

  function Normalize(address: string): string {
    Lower(TrimDot(TrimRight(TrimLeft(address))))
  }

  function UpToDot(s: string): string {
    if s == "" || s[0] == '.' then "" else [s[0]] + UpToDot(s[1..])
  }

  function FirstDNSLabel(name: string, isIP: string -> bool): string {
    var normalized := Normalize(name);
    if normalized == "" || isIP(normalized) then "" else UpToDot(normalized)
  }

  // What normalising and shortening come to

  predicate AllSpace(s: string) {
    forall i :: 0 <= i < |s| ==> IsSpace(s[i])
  }

  /** A name without space around it or a dot after it. */
  predicate Bare(s: string) {
    s != "" && !IsSpace(s[0]) && !IsSpace(s[|s| - 1]) && s[|s| - 1] != '.'
  }

  lemma {:induction false} TrimLeftOf(w: string, s: string)
    requires AllSpace(w) && s != "" && !IsSpace(s[0])
    ensures TrimLeft(w + s) == s
    decreases |w|
  {
    if w == "" {
      assert w + s == s;
    } else {
      assert (w + s)[1..] == w[1..] + s;
      TrimLeftOf(w[1..], s);
    }
  }

  lemma {:induction false} TrimRightOf(s: string, w: string)
    requires AllSpace(w) && s != "" && !IsSpace(s[|s| - 1])
    ensures TrimRight(s + w) == s
    decreases |w|
  {
    if w == "" {
      assert s + w == s;
    } else {
      assert (s + w)[..|s + w| - 1] == s + w[..|w| - 1];
      TrimRightOf(s, w[..|w| - 1]);
    }
  }

  /** Space around a name, a dot after it and the case of its letters do not matter; all else does. */
  lemma NormalizedIs(left: string, s: string, right: string)
    requires AllSpace(left) && AllSpace(right) && Bare(s)
    ensures Normalize(left + (s + right)) == Lower(s)
    ensures Normalize(left + (s + "." + right)) == Lower(s)
    ensures |Lower(s)| == |s|
    ensures forall i :: 0 <= i < |s| ==>
              if 'A' <= s[i] <= 'Z' then Lower(s)[i] - 'a' == s[i] - 'A' else Lower(s)[i] == s[i]
  {
    TrimLeftOf(left, s + right);
    TrimRightOf(s, right);
    TrimLeftOf(left, s + "." + right);
    TrimRightOf(s + ".", right);
    assert (s + ".")[..|s|] == s;
  }

  /** The label before the first dot. */
  lemma {:induction false} UpToDotIs(s: string)
    ensures UpToDot(s) <= s && '.' !in UpToDot(s)
    ensures |UpToDot(s)| < |s| ==> s[|UpToDot(s)|] == '.'
    decreases |s|
  {
    if s != "" && s[0] != '.' {
      UpToDotIs(s[1..]);
      assert s == [s[0]] + s[1..];
    }
  }

  // Matching

  function Candidates(p: PeerInfo, isIP: string -> bool): seq<string> {
    [p.ip, p.dnsName, p.hostname, FirstDNSLabel(p.dnsName, isIP), FirstDNSLabel(p.hostname, isIP)]
  }

  /** One of the first `i` candidates comes to the key. */
  predicate AmongFirst(candidates: seq<string>, i: nat, key: string)
    requires i <= |candidates|
  {
    exists j :: 0 <= j < i && Normalize(candidates[j]) == key
  }

  lemma AmongNext(candidates: seq<string>, i: nat, key: string)
    requires i < |candidates|
    ensures AmongFirst(candidates, i + 1, key) <==> AmongFirst(candidates, i, key) || Normalize(candidates[i]) == key
  {
  }

  /** The names under which a manual peer finds this one. */
  predicate HasKey(p: PeerInfo, key: string, isIP: string -> bool) {
    key != "" && AmongFirst(Candidates(p, isIP), 5, key)
  }

  method PeerMatchKeys(p: PeerInfo, isIP: string -> bool) returns (keys: seq<string>)
    ensures forall key :: key in keys <==> HasKey(p, key, isIP)
    ensures Distinct(keys)
  {
    var candidates := Candidates(p, isIP);
    keys := [];
    var seen: set<string> := {};
    for i := 0 to 5
      invariant forall key :: key in keys <==> key in seen
      invariant forall key :: key in keys <==> key != "" && AmongFirst(candidates, i, key)
      invariant Distinct(keys)
    {
      var key := Normalize(candidates[i]);
      forall k
        ensures AmongFirst(candidates, i + 1, k) <==> AmongFirst(candidates, i, k) || key == k
      {
        AmongNext(candidates, i, k);
      }
      if key == "" || key in seen {
        continue;
      }
      seen := seen + {key};
      keys := keys + [key];
    }
  }

  /** A peer is found under its address, its DNS name and its host name, and under the first label of
      either name unless that name is itself an address. */
  lemma HasKeyIff(p: PeerInfo, key: string, isIP: string -> bool)
    ensures HasKey(p, key, isIP) <==>
            key != "" &&
            (key == Normalize(p.ip) || key == Normalize(p.dnsName) || key == Normalize(p.hostname)
             || (!isIP(Normalize(p.dnsName)) && key == Normalize(UpToDot(Normalize(p.dnsName))))
             || (!isIP(Normalize(p.hostname)) && key == Normalize(UpToDot(Normalize(p.hostname)))))
  {
    var cs := Candidates(p, isIP);
    AmongNext(cs, 0, key);
    AmongNext(cs, 1, key);
    AmongNext(cs, 2, key);
    AmongNext(cs, 3, key);
    AmongNext(cs, 4, key);
    assert Normalize("") == "";
  }

  function Matches(key: string, isIP: string -> bool): PeerInfo -> bool {
    p => HasKey(p, key, isIP)
  }

  /** The last peer with that key. */
  function LastMatch(auto: seq<PeerInfo>, key: string, isIP: string -> bool): (r: Option<nat>)
    ensures r.Some? ==> r.value < |auto|
  {
    LastSuch(auto, Matches(key, isIP))
  }

  lemma LastMatchIsLast(auto: seq<PeerInfo>, key: string, isIP: string -> bool)
    ensures var r := LastMatch(auto, key, isIP);
            && (r.Some? ==> HasKey(auto[r.value], key, isIP))
            && forall i :: 0 <= i < |auto| && (r.Some? ==> r.value < i) ==> !HasKey(auto[i], key, isIP)
  {
    var f := Matches(key, isIP);
    LastSuchIsLast(auto, f);
    forall i | 0 <= i < |auto|
      ensures f(auto[i]) <==> HasKey(auto[i], key, isIP)
    {
    }
  }

  function TargetOf(auto: seq<PeerInfo>, mp: ManualPeer, isIP: string -> bool): (r: Option<nat>)
    ensures r.Some? ==> r.value < |auto|
  {
    LastMatch(auto, Normalize(mp.address), isIP)
  }

  // Merging

  function IntText(n: int): string {
    if n < 0 then "-" + GroupKey.Decimal(-n) else GroupKey.Decimal(n)
  }

  function AgentURL(mp: ManualPeer, defaultPort: int): string {
    "http://" + mp.address + ":" + IntText(if mp.port == 0 then defaultPort else mp.port)
  }

  /** The address and, in decimal, the port given, or the default port if that is 0. */
  lemma AgentURLIs(mp: ManualPeer, defaultPort: int)
    requires mp.port >= 0 && defaultPort >= 0
    ensures exists digits ::
              && AgentURL(mp, defaultPort) == "http://" + mp.address + ":" + digits
              && GroupKey.AllDigits(digits)
              && GroupKey.Value(digits) == if mp.port == 0 then defaultPort else mp.port
  {
    var port := if mp.port == 0 then defaultPort else mp.port;
    GroupKey.DecimalValue(port);
    assert AgentURL(mp, defaultPort) == "http://" + mp.address + ":" + GroupKey.Decimal(port);
  }

  function ManualOnly(mp: ManualPeer, defaultPort: int): PeerInfo {
    PeerInfo(if mp.name == "" then mp.address else mp.name, "", mp.address, [], AgentURL(mp, defaultPort),
             ManualPeerSource, AgentUnknown, [], None)
  }

  function MergeOne(peers: seq<PeerInfo>, target: Option<nat>, mp: ManualPeer, defaultPort: int): seq<PeerInfo>
    requires target.Some? ==> target.value < |peers|
  {
    if target.Some? then peers[target.value := peers[target.value].(url := AgentURL(mp, defaultPort))]
    else peers + [ManualOnly(mp, defaultPort)]
  }

  /** The circumstances of a merge that stay the same while it runs. */
  datatype Setting = Setting(
    auto: seq<PeerInfo>, manual: map<string, ManualPeer>, defaultPort: int, isIP: string -> bool)

  predicate Known(c: Setting, order: seq<string>) {
    forall k :: k in order ==> k in c.manual
  }

  function Target(c: Setting, k: string): (r: Option<nat>)
    requires k in c.manual
    ensures r.Some? ==> r.value < |c.auto|
  {
    TargetOf(c.auto, c.manual[k], c.isIP)
  }

  /** The URL that the manual peers taken so far gave auto peer `i`, if any did. */
  function Override(c: Setting, order: seq<string>, i: nat): Option<string>
    requires Known(c, order)
  {
    if order == [] then None
    else
      var k := order[|order| - 1];
      if Target(c, k) == Some(i) then Some(AgentURL(c.manual[k], c.defaultPort))
      else Override(c, order[..|order| - 1], i)
  }

  /** The peers for those that match no auto peer. */
  function Appended(c: Setting, order: seq<string>): seq<PeerInfo>
    requires Known(c, order)
  {
    if order == [] then []
    else
      var k := order[|order| - 1];
      Appended(c, order[..|order| - 1]) +
      (if Target(c, k).None? then [ManualOnly(c.manual[k], c.defaultPort)] else [])
  }

  function Overridden(c: Setting, order: seq<string>): (r: seq<PeerInfo>)
    requires Known(c, order)
    ensures |r| == |c.auto|
  {
    seq(|c.auto|, i requires 0 <= i < |c.auto| =>
      if Override(c, order, i).Some? then c.auto[i].(url := Override(c, order, i).value) else c.auto[i])
  }

  /** The outcome of a merge that takes the manual peers in this order. */
  function Merged(c: Setting, order: seq<string>): seq<PeerInfo>
    requires Known(c, order)
  {
    Overridden(c, order) + Appended(c, order)
  }

  lemma OverrideNext(c: Setting, order: seq<string>, i: nat, j: nat)
    requires Known(c, order) && i < |order|
    ensures Override(c, order[..i + 1], j) ==
            if Target(c, order[i]) == Some(j) then Some(AgentURL(c.manual[order[i]], c.defaultPort))
            else Override(c, order[..i], j)
  {
    assert order[..i + 1][..i] == order[..i];
  }

  lemma OverriddenNext(c: Setting, order: seq<string>, i: nat)
    requires Known(c, order) && i < |order|
    ensures
      var before, t := Overridden(c, order[..i]), Target(c, order[i]);
      Overridden(c, order[..i + 1]) ==
      if t.Some? then before[t.value := before[t.value].(url := AgentURL(c.manual[order[i]], c.defaultPort))]
      else before
  {
    forall j | 0 <= j < |c.auto|
      ensures Override(c, order[..i + 1], j) ==
              if Target(c, order[i]) == Some(j) then Some(AgentURL(c.manual[order[i]], c.defaultPort))
              else Override(c, order[..i], j)
    {
      OverrideNext(c, order, i, j);
    }
  }

  lemma AppendedNext(c: Setting, order: seq<string>, i: nat)
    requires Known(c, order) && i < |order|
    ensures Appended(c, order[..i + 1]) ==
            Appended(c, order[..i]) +
            (if Target(c, order[i]).None? then [ManualOnly(c.manual[order[i]], c.defaultPort)] else [])
  {
    assert order[..i + 1][..i] == order[..i];
  }

  lemma SplitMerge(a: seq<PeerInfo>, b: seq<PeerInfo>, target: Option<nat>, mp: ManualPeer, defaultPort: int)
    requires target.Some? ==> target.value < |a|
    ensures MergeOne(a + b, target, mp, defaultPort) ==
            if target.Some? then a[target.value := a[target.value].(url := AgentURL(mp, defaultPort))] + b
            else a + (b + [ManualOnly(mp, defaultPort)])
  {
  }

  lemma MergedNext(c: Setting, order: seq<string>, i: nat)
    requires Known(c, order) && i < |order|
    ensures Merged(c, order[..i + 1]) ==
            MergeOne(Merged(c, order[..i]), Target(c, order[i]), c.manual[order[i]], c.defaultPort)
  {
    OverriddenNext(c, order, i);
    AppendedNext(c, order, i);
    SplitMerge(Overridden(c, order[..i]), Appended(c, order[..i]), Target(c, order[i]), c.manual[order[i]],
               c.defaultPort);
    if Target(c, order[i]).Some? {
      assert Appended(c, order[..i]) + [] == Appended(c, order[..i]);
    }
  }

  /** The first peers are the discovered ones, changed in their URL at most. */
  lemma NothingLost(c: Setting, order: seq<string>, i: nat)
    requires Known(c, order) && i < |c.auto|
    ensures |Merged(c, order)| >= |c.auto|
    ensures Merged(c, order)[i].(url := c.auto[i].url) == c.auto[i]
    ensures (forall k :: k in order ==> Target(c, k) != Some(i)) ==> Merged(c, order)[i] == c.auto[i]
  {
    OverrideBySome(c, order, i);
  }

  /** Manual peers that match the same discovered peer give it the same URL. */
  ghost predicate UrlsAgree(c: Setting) {
    forall j, k :: j in c.manual && k in c.manual && Target(c, j).Some? && Target(c, j) == Target(c, k) ==>
      AgentURL(c.manual[j], c.defaultPort) == AgentURL(c.manual[k], c.defaultPort)
  }

  predicate SomeTargets(c: Setting, order: seq<string>, i: nat)
    requires Known(c, order)
  {
    exists k :: k in order && Target(c, k) == Some(i)
  }

  /** The URL comes from a manual peer that matches, and there is one if any matches. */
  lemma {:induction false} OverrideBySome(c: Setting, order: seq<string>, i: nat)
    requires Known(c, order)
    ensures Override(c, order, i).Some? <==> SomeTargets(c, order, i)
    ensures Override(c, order, i).Some? ==>
              exists k :: k in order && Target(c, k) == Some(i) &&
                          Override(c, order, i) == Some(AgentURL(c.manual[k], c.defaultPort))
    decreases |order|
  {
    if order != [] {
      var before, last := order[..|order| - 1], order[|order| - 1];
      OverrideBySome(c, before, i);
      assert order == before + [last];
    }
  }

  /** If those that match agree, it is the URL of any of them. */
  lemma OverrideByAny(c: Setting, order: seq<string>, i: nat, k: string)
    requires Known(c, order) && UrlsAgree(c) && k in order && Target(c, k) == Some(i)
    ensures Override(c, order, i) == Some(AgentURL(c.manual[k], c.defaultPort))
  {
    OverrideBySome(c, order, i);
    assert SomeTargets(c, order, i);
    var j :| j in order && Target(c, j) == Some(i) &&
             Override(c, order, i) == Some(AgentURL(c.manual[j], c.defaultPort));
    assert Target(c, j) == Target(c, k);
  }

  /** What a manual peer adds to the list. */
  function Addition(c: Setting): string -> multiset<PeerInfo> {
    k => if k in c.manual && Target(c, k).None? then multiset{ManualOnly(c.manual[k], c.defaultPort)} else multiset{}
  }

  lemma {:induction false} AppendedGathers(c: Setting, order: seq<string>)
    requires Known(c, order)
    ensures multiset(Appended(c, order)) == Gathered(order, Addition(c))
    decreases |order|
  {
    if order != [] {
      AppendedGathers(c, order[..|order| - 1]);
    }
  }

  /** Every manual peer that matches no discovered one is appended, once and for all orders. */
  lemma OrderDoesNotMatter(c: Setting, order: seq<string>, other: seq<string>)
    requires Enumerates(order, c.manual.Keys) && Enumerates(other, c.manual.Keys)
    ensures multiset(Appended(c, order)) == multiset(Appended(c, other))
    ensures UrlsAgree(c) ==> Overridden(c, order) == Overridden(c, other)
  {
    AppendedGathers(c, order);
    AppendedGathers(c, other);
    AnyOrderGathersTheSame(order, other, c.manual.Keys, Addition(c));
    if UrlsAgree(c) {
      forall i | 0 <= i < |c.auto|
        ensures Override(c, order, i) == Override(c, other, i)
      {
        OverrideBySome(c, order, i);
        OverrideBySome(c, other, i);
        assert forall k :: k in order <==> k in other;
        if k :| k in order && Target(c, k) == Some(i) {
          OverrideByAny(c, order, i, k);
          OverrideByAny(c, other, i, k);
        }
      }
    }
  }

  /** All orders give the discovered peers the same URLs. */
  ghost predicate OverridesOneWay(c: Setting) {
    forall order, other :: Enumerates(order, c.manual.Keys) && Enumerates(other, c.manual.Keys) ==>
      Overridden(c, order) == Overridden(c, other)
  }

  /** They do exactly if manual peers that match the same discovered peer agree on its URL. */
  lemma OrderDoesNotMatterIff(c: Setting)
    ensures OverridesOneWay(c) <==> UrlsAgree(c)
  {
    if UrlsAgree(c) {
      forall order, other | Enumerates(order, c.manual.Keys) && Enumerates(other, c.manual.Keys)
        ensures Overridden(c, order) == Overridden(c, other)
      {
        OrderDoesNotMatter(c, order, other);
      }
    }
    if OverridesOneWay(c) {
      forall j, k | j in c.manual && k in c.manual && Target(c, j).Some? && Target(c, j) == Target(c, k)
        ensures AgentURL(c.manual[j], c.defaultPort) == AgentURL(c.manual[k], c.defaultPort)
      {
        LastOneWins(c, j, k);
      }
    }
  }

  lemma LastOneWins(c: Setting, j: string, k: string)
    requires OverridesOneWay(c) && j in c.manual && k in c.manual
    requires Target(c, j).Some? && Target(c, j) == Target(c, k)
    ensures AgentURL(c.manual[j], c.defaultPort) == AgentURL(c.manual[k], c.defaultPort)
  {
    var i := Target(c, j).value;
    var order := EndingWith(c.manual.Keys, j);
    var other := EndingWith(c.manual.Keys, k);
    assert Override(c, order, i) == Some(AgentURL(c.manual[j], c.defaultPort));
    assert Override(c, other, i) == Some(AgentURL(c.manual[k], c.defaultPort));
    assert Overridden(c, order)[i].url == Overridden(c, other)[i].url;
  }

  ghost predicate DistinctIps(peers: seq<PeerInfo>) {
    forall i, j :: 0 <= i < j < |peers| ==> peers[i].ip != peers[j].ip
  }

  ghost predicate KeyedByAddress(manual: map<string, ManualPeer>) {
    forall k :: k in manual ==> manual[k].address == k
  }

  lemma {:induction false} AppendedIps(c: Setting, order: seq<string>, p: PeerInfo)
    requires Known(c, order) && KeyedByAddress(c.manual)
    ensures p in Appended(c, order) <==>
            p.ip in order && Target(c, p.ip).None? && p == ManualOnly(c.manual[p.ip], c.defaultPort)
    decreases |order|
  {
    if order != [] {
      var before, last := order[..|order| - 1], order[|order| - 1];
      AppendedIps(c, before, p);
      assert order == before + [last];
      assert c.manual[last].address == last;
    }
  }

  /** What an appended peer is. */
  lemma AppendedIs(c: Setting, order: seq<string>, p: PeerInfo)
    requires Known(c, order) && KeyedByAddress(c.manual) && p in Appended(c, order)
    ensures p.ip in order && Target(c, p.ip).None?
    ensures
      var mp := c.manual[p.ip];
      && p.hostname == (if mp.name != "" then mp.name else mp.address) && p.dnsName == "" && p.tags == []
      && p.url == AgentURL(mp, c.defaultPort) && p.source == ManualPeerSource && p.health == AgentUnknown
      && p.services == [] && p.updatedAt == None
  {
    AppendedIps(c, order, p);
  }

  lemma {:induction false} AppendedDistinct(c: Setting, order: seq<string>)
    requires Known(c, order) && KeyedByAddress(c.manual) && Distinct(order)
    ensures DistinctIps(Appended(c, order))
    decreases |order|
  {
    if order != [] {
      var before, last := order[..|order| - 1], order[|order| - 1];
      AppendedDistinct(c, before);
      assert order == before + [last] && last !in before;
      forall i | 0 <= i < |Appended(c, before)|
        ensures Appended(c, before)[i].ip != last
      {
        AppendedIps(c, before, Appended(c, before)[i]);
      }
      assert ManualOnly(c.manual[last], c.defaultPort).ip == last;
    }
  }

  /** A discovered peer is found under its own address. */
  lemma OwnKey(c: Setting, i: nat)
    requires i < |c.auto| && Normalize(c.auto[i].ip) != ""
    ensures HasKey(c.auto[i], Normalize(c.auto[i].ip), c.isIP)
  {
    var candidates := Candidates(c.auto[i], c.isIP);
    assert Normalize(candidates[0]) == Normalize(c.auto[i].ip);
  }

  lemma AppendedIsNew(c: Setting, order: seq<string>, i: nat, j: nat)
    requires Known(c, order) && KeyedByAddress(c.manual) && Distinct(order)
    requires i < |c.auto| && j < |Appended(c, order)| && Normalize(c.auto[i].ip) != ""
    ensures c.auto[i].ip != Appended(c, order)[j].ip
  {
    var p := Appended(c, order)[j];
    AppendedIps(c, order, p);
    OwnKey(c, i);
    LastMatchIsLast(c.auto, Normalize(p.ip), c.isIP);
  }

  lemma OverriddenIps(c: Setting, order: seq<string>)
    requires Known(c, order)
    ensures forall i :: 0 <= i < |c.auto| ==> Overridden(c, order)[i].ip == c.auto[i].ip
  {
  }

  lemma JoinedIps(a: seq<PeerInfo>, b: seq<PeerInfo>)
    requires DistinctIps(a) && DistinctIps(b)
    requires forall i, j :: 0 <= i < |a| && 0 <= j < |b| ==> a[i].ip != b[j].ip
    ensures DistinctIps(a + b)
  {
  }

  /** Each discovered peer has an address of its own. */
  ghost predicate Addressed(auto: seq<PeerInfo>) {
    DistinctIps(auto) && forall i :: 0 <= i < |auto| ==> Normalize(auto[i].ip) != ""
  }

  /** Merging keeps addresses distinct: no manual peer is added beside its discovered self. */
  lemma MergedIpsDistinct(c: Setting, order: seq<string>)
    requires Enumerates(order, c.manual.Keys) && KeyedByAddress(c.manual) && Addressed(c.auto)
    ensures DistinctIps(Merged(c, order))
  {
    AppendedDistinct(c, order);
    OverriddenIps(c, order);
    var a, b := Overridden(c, order), Appended(c, order);
    forall i, j | 0 <= i < |a| && 0 <= j < |b|
      ensures a[i].ip != b[j].ip
    {
      AppendedIsNew(c, order, i, j);
    }
    JoinedIps(a, b);
  }
}
