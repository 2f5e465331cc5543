# Agent and Central: a Dafny model

Central discovers Agents, asks each of them for its services and their health with conditional
requests, and publishes scrape targets. This project models the stateful parts of both programs
and proves what they keep over whole runs.

* **Conditional refresh** (`RefreshProtocol`, `RefreshInvariants`, `RefreshTheorems`,
  `RefreshCommits`, `RefreshLimits`, `RefreshRefinement`, `AgentAnswers`, over `AgentRegistry`,
  `Resolve`, `ServicesApi` and `ServiceCache`): one Agent and Central as a transition system. The
  Agent reads stamp, list and addresses in separate critical sections; Central stores a validator
  before it decodes and commits only when both queries were OK. An inductive invariant gives the
  coherence theorems; four families of reachable states show that their conditions are needed. Dates follow RFC 9110, sections 5.6.7, 8.8.2, 13.1.3 and 15.4.5.
* **Refresh of all peers** (`PeerMerge`, `PeerRefresh`, `PeerCollector`, `Bags`): discovered and
  manual peers are merged, queried and applied in any order; the outcome is given peer by peer.
* **Push bucket** (`GroupKey`, `GroupPath`, `Metrics`, `PushBucket`): the length-prefixed group
  key is injective, and the bucket, with its maps, families and appended slices on the heap, is a
  plain map from label maps to families; a scrape shows the union of all groups and modifies none.
* **Stores and reload** (`AgentConfigs`, `AgentRoutes`, `Slots`, `AgentServer`): registry, bucket
  store, proxy store and health checks, seen name by name, the paths they are announced under, and
  the reload that reconciles them with the configuration.
* **Management** (`Management`, `CentralPeers`): save, apply, roll back and publish, over runs of
  requests with arbitrary save failures.
* **Rebinding** (`Rebind`): any number of calls that move the listener, split at their locked
  sections and interleaved freely with each other and with the requests and reloads that publish
  the listen address.

Structures that the programs update in place are classes; their methods are proved against
value-level functions, and the laws are lemmas about those functions. Clock readings, network
answers, completion orders and save failures are arbitrary. Strings are sequences of bytes, one
`char` each.

## Where the code does not keep what it seems to promise

* A refresh that does not commit has already stored a validator; until the next committed 200 a
  services 304 can vouch for a list that was never cached (`RefreshLimits.TornRefreshLosesAService`;
  `RefreshTheorems.Services304IsSound` says exactly when it is right).
* A change of the Agent's addresses is visible before the touch that moves the services stamp, and a
  change of interface addresses is never followed by one. Until the next change of the list a
  services 304 can vouch for the old addresses (`RefreshLimits.AddressChangeBeforeTouch`): it is
  right exactly when both serve the same list (`RefreshTheorems.Services304IsSound`).
* A removal or update drops a health result without moving the health stamp, so Central can keep a
  result that the Agent no longer has (`RefreshLimits.DroppedResultSurvives`), and a service added
  between the two reads of a refresh can stay without its result
  (`RefreshLimits.SkewedRefreshLosesAResult`). `RefreshTheorems.QuietCommitStale` and
  `RefreshTheorems.QuietCommitHealth` say exactly when a refresh leaves neither.
* Removing a static service by the name of a bucket or proxy succeeds and leaves an orphan in its
  store. The comment on `reloadConfigServices` calls the configuration the single source of truth,
  but a reload brings a name in step exactly if it has no such stray (`Slots.ReloadReconcilesIff`,
  `Slots.OrphanStaysOrphan`, and `Slots.MistypedRemovalOrphans` for a run that gets there).
* Names are not checked: a bucket or proxy whose name begins or ends with a slash is announced under a
  path that does not lead to it, and nothing can be pushed to a bucket with a slash in its name
  (`AgentRoutes.AnnouncedPathsLeadBack`, `AgentRoutes.PushPathsLeadTo`, both exact).
* A refused removal of a bucket or proxy has already stopped the health check of whatever service
  has that name (`Slots.FailureChangesOnlyChecks`, `Slots.RefusedRemovalStopsCheck`).
* A name used both for a static service and for a bucket is resolved by history: the one that was
  there first stays (`Slots.ReloadWithSharedNames`).
* Central's reload keeps peers added by hand that the file no longer names
  (`CentralPeers.ReplaceMirrorsIff` gives the exact condition, `CentralPeers.EditedFileLeavesOver` a
  run). Through the management requests alone this cannot happen.
* Management requests and reloads publish a configuration, listen address included, that they took
  earlier, while the node attributes move the listener without the management lock. A move in
  between is undone in the configuration, so that the Agent announces a port nobody listens on
  (`Rebind.PublicationUndoesRebind`); `Rebind.AgreementKeptIff`, `Rebind.AgreesThroughoutIff` and
  `Rebind.RequestAgreesIff` say exactly when this does not happen.

## Model

| member | source | states |
|---|---|---|
| AgentRegistry.Registry.constructor | internal/agent/registry.go:21-28 | A new registry is empty; both stamps are the clock reading cut to whole seconds. |
| AgentRegistry.Registry.Add | internal/agent/registry.go:30-39 | Accepted exactly if the name is free; then, and only then, the entry is filed and the service stamp moves. |
| AgentRegistry.Registry.Remove | internal/agent/registry.go:41-50 | Accepted exactly if the name is registered; moves the service stamp, never the health stamp. |
| AgentRegistry.Registry.Update | internal/agent/registry.go:52-61 | Replaces the whole entry, so any health result is dropped without moving the health stamp. |
| AgentRegistry.Registry.TouchServices | internal/agent/registry.go:110-114 | Moves the service stamp and nothing else. |
| AgentRegistry.Registry.UpdateHealth | internal/agent/registry.go:147-162 | Stores the result if the name is registered; the health stamp moves exactly when status, status code or message differ, the service stamp never. |
| AgentRegistry.Registry.CollectEntries | internal/agent/registry.go:88-96 | The loop over the map, in any order, collects each entry once, with or without its health. |
| AgentRegistry.Registry.SortedEntries | internal/agent/registry.go:73-107 | Whatever order the map is read in, the result is the one listing of the entries sorted by name. |
| AgentRegistry.Registry.ListHealth | internal/agent/registry.go:118-128 | Exactly the names with a health result, each with its result. |
| AgentRegistry.StampIsMaximum | internal/agent/registry.go:164-170 | For any clock readings, backward ones included, the stamp after n bumps is the maximum of m0+n and of now_i+(n-i) over all i, in whole seconds. |
| AgentRegistry.NotModifiedFrom | internal/agent/server.go:685-696 | An If-Modified-Since is answered 304 for the date of the stamp and all later ones, and for no other; without one there is no 304. |
| AgentRegistry.RunStamps | internal/agent/registry.go:30-61 | Over any run of operations both stamps are the fold of the clock readings at which they moved, and stay whole seconds. |
| AgentRegistry.ValidatorIsExact | internal/agent/server.go:685-696 | A Last-Modified issued now is answered 304 at any later instant of the run exactly when no bump has happened since. |
| AgentRegistry.ServicesStampSound | internal/agent/registry.go:79-107 | Equal service stamps at two instants of a run: the same published list. |
| AgentRegistry.HealthStampSound | internal/agent/registry.go:116-162 | Equal health stamps: every result present later was there before with the same status, code and message; with both stamps equal no name is lost. |
| AgentRegistry.HealthStampMissesRemovals | internal/agent/registry.go:52-61 | The hypothesis on the service stamp is needed: an update drops a result and leaves the health stamp alone. |
| AgentRegistry.ApplyAdvances | internal/agent/registry.go:30-61 | Every operation keeps stamps from falling and moves the service stamp whenever the published list changes. |
| Ordering.SortedUnique | internal/agent/registry.go:98-106 | Two strictly sorted listings with the same members are the same listing. |
| Ordering.SortedEnumeration | internal/agent/registry.go:88-107 | Sorting any enumeration of a map keyed by name gives its one sorted listing. |
| Resolve.ResolveTarget | internal/agent/resolve.go:27-58 | The index loop terminates and returns the expansion of the target read as literals and variables, or nothing when a variable has no value; the fast path agrees. |
| Resolve.ReadingIsUnique | internal/agent/resolve.go:35-57 | All well-formed readings of a text, as literals, variables closed by their first brace and an unclosed tail, have one meaning: the one the loop computes. |
| Resolve.TokensSpellTarget | internal/agent/resolve.go:35-57 | The tokens the semantics uses are such a reading of the target: nothing is lost, an unclosed tail stays literal. |
| Resolve.SucceedsIff | internal/agent/resolve.go:27-58 | Resolution succeeds exactly when every closed variable has a value. |
| Resolve.ResolutionIsIdempotent | internal/agent/resolve.go:27-58 | If the values contain no opening brace, resolving a resolved target changes nothing: substituted text is never read again. |
| Resolve.OwnVariables | internal/agent/resolve.go:62-72 | The variables of the own addresses give the IPv4 or the IPv6 address, each if there is one. |
| Resolve.InterfaceVariables | internal/agent/resolve.go:79-94 | An interface variable gives the address of its family, exactly if the interface has one. |
| Resolve.UnknownVariable | internal/agent/resolve.go:95-98 | No other variable resolves. |
| Resolve.SelfAddrPrefers | internal/agent/resolve.go:135-154 | A requester is told the address of its own family if the Agent has one, else the other. |
| ServicesApi.ResolveEntry | internal/agent/server.go:700-714 | Keeps the targets that resolve, in order; an entry with none is dropped. |
| ServicesApi.ResolveEntries | internal/agent/server.go:648-654 | The served list is the resolved entries, in order. |
| ServicesApi.AppendExtras | internal/agent/server.go:635-642 | The self-metrics targets are appended as entries of one fixed name. |
| ServicesApi.HandleServices | internal/agent/server.go:610-659 | 304 exactly by the conditional test on the stamp; else that stamp as a date with the served list of a later critical section, whatever happened in between. |
| ServicesApi.HandleServicesHealth | internal/agent/server.go:663-682 | The same for the health stamp and the table of all health results. |
| AgentRegistry.LateListIsCurrent | internal/agent/server.go:616-656 | A list read after its stamp is still right at any later time at which the date of that stamp is the present one. |
| ServicesApi.ResolvedEntriesContent | internal/agent/server.go:700-714 | A name is served exactly when some entry of that name has a target that resolves. |
| ServicesApi.ServedIff | internal/agent/server.go:635-656 | What is served is exactly: each listed entry and each self-metrics target with a target that resolves, with those targets resolved and nothing else changed. |
| ServicesApi.ResolvedTargetsMembers | internal/agent/server.go:700-714 | Every target that resolves is among the served ones, and no others. |
| ServicesApi.ResolvedTargetsJoin | internal/agent/server.go:700-714 | Targets keep their order. |
| ServicesApi.ResolvedEntriesJoin | internal/agent/server.go:648-654 | So do entries. |
| Resolve.SelfTargetResolves | internal/agent/resolve.go:61-79 | The target of buckets and proxies resolves to the announced address, and fails without one. |
| ServicesApi.SelfServedIff | internal/agent/resolve.go:135-154 | Buckets and proxies are served exactly while the Agent has an address of either family. |
| ServiceCache.WorseHealth | internal/central/collector.go:676-688 | OK exactly if both are OK; otherwise the one of higher rank. |
| ServiceCache.OverlayHealth | internal/central/collector.go:443-448 | The loop sets the health of every service the table names, to null included, and of no other. |
| ServiceCache.InheritCachedHealth | internal/central/collector.go:493-515 | The two loops give a service without health the last cached health of its name, and leave the others alone. |
| ServiceCache.MergedKeepsServices | internal/central/collector.go:430-452 | None of the four 200/304 merges changes anything but health. |
| ServiceCache.MergedIs | internal/central/collector.go:430-452 | What a commit stores, entry by entry: a health table decides for the names it has, null included; after a health 304 new services get the last cached health of their name; an Agent without the endpoint changes none. |
| ServiceCache.OverlayHealthIs | internal/central/collector.go:443-448 | After a health 200 every service the table has a result for carries that result. |
| ServiceCache.InheritHealthIs | internal/central/collector.go:449-451 | After services 200 and health 304 a service keeps the result its name had in the cache. |
| RefreshInvariants.BumpMovesDate | internal/agent/registry.go:164-170 | One-second dates lose nothing: the date of a stamp rises exactly when the stamp is bumped. |
| RefreshInvariants.NextKeepsServicesInv | internal/agent/server.go:610-659 | Every step, stamp, list and addresses being read in separate critical sections, keeps: a stored validator equal to the present stamp means that its body is the present list, resolved with the addresses of that time; these are the present ones unless a change awaits its touch. |
| RefreshInvariants.FinishKeepsServicesInv | internal/central/collector.go:423-456 | Committing or not committing a finished refresh, and evicting, keep that. |
| RefreshInvariants.MergeCoversHealth | internal/central/collector.go:430-456 | All four 200/304 combinations give every served service with a result at the Agent its present status, code and message. |
| RefreshInvariants.NextKeepsInv | internal/central/collector.go:423-474 | Every step of Agent or Central keeps both halves of the invariant. |
| RefreshInvariants.RunKeepsInv | internal/central/collector.go:334-491 | The invariant holds at the end of every run. |
| RefreshTheorems.Services304IsSound | internal/central/collector.go:562-598 | In every run, an Agent about to answer 304 finds the entry cached, and the body of the validator is the present list resolved with the addresses of that time. A cache that holds this body, as it does if the last 200 was committed, is what the Agent would serve exactly when the present addresses resolve the list as those did; they are the same unless a change awaits its touch. |
| RefreshTheorems.HealthAgreement | internal/central/collector.go:430-456 | In every run, while the validator is current and its table was merged without skew, every served service with a result at the Agent has the same status, code and message in the cache. |
| RefreshTheorems.QuietCommitServices | internal/central/collector.go:430-438 | After a committed refresh during which the Agent did not change, services agree exactly if they came with it or the cache agreed already; a cache with the body of the validator does exactly if the addresses of that time still serve the same. |
| RefreshTheorems.QuietCommitHealth | internal/central/collector.go:440-451 | Address change pending or not, every served result at the Agent is in the cache exactly if, for its combination of 200 and 304, the cache before held what it needs: nothing, the result under the name, the name, or the entry with the result. |
| RefreshTheorems.QuietCommitStale | internal/central/collector.go:440-451 | No result that the Agent dropped is left exactly if both answers were full or nothing taken over from the cache is stale. |
| RefreshTheorems.QuietRefreshSynchronises | internal/central/collector.go:423-456 | The three exact conditions at the end of any run, address change pending or not; what the history flags are enough for; and two 200s make the cache the served list with the health table laid over. |
| RefreshTheorems.CalmRunsStayCoherent | internal/central/collector.go:423-474 | In runs without torn refreshes, address changes or a list change between the two reads: between refreshes services agree while the services validator is the present stamp, health while the health validator is; so do they after every quiet commit, and at every services 304. |
| RefreshCommits.CalmCommitsWhatWasServed | internal/central/collector.go:334-474 | In such runs every commit, whatever the Agent did during the refresh, stores what the Agent would have served at an instant between its start and its end, with all results that the Agent had at such an instant of the services stored. |
| RefreshLimits.TornRefreshLosesAService | internal/central/collector.go:592-598 | Reachable: the validator is stored, the refresh does not commit, and the next 304 vouches for a cache that lacks a served service. |
| RefreshLimits.SkewedRefreshLosesAResult | internal/central/collector.go:443-451 | Reachable: a service added between the two reads of one refresh fails that condition, and has no result in the cache after the next, quiet one. |
| RefreshLimits.AddressChangeBeforeTouch | internal/agent/daemon.go:209-220 | Reachable: between a visible address change and its touch a 304 vouches for the old list, though it was committed. |
| RefreshLimits.DroppedResultSurvives | internal/agent/registry.go:52-61 | Reachable: a result the Agent dropped by an update fails that condition and survives a quiet refresh. |
| RefreshRefinement.RefreshIsOneStep | internal/central/collector.go:334-474 | However the steps of one refresh interleave with each other and with the Agent, its end leaves cache and both validators as one step from what was known and the two answers. |
| RefreshRefinement.PeerFollowsProtocol | internal/central/collector.go:548-672 | A peer of a whole refresh that starts from the same knowledge and gets the same answers asks with the same validators and ends with the same knowledge. |
| AgentAnswers.AgentAnswersServices | internal/agent/server.go:610-659 | In any interleaving the Agent's three steps answer a services query as HandleServices does with the registry operations in between. |
| AgentAnswers.AgentAnswersHealth | internal/agent/server.go:663-682 | Its two steps answer a health query as HandleServicesHealth does. |
| PeerCollector.Collector.QueryAgentServices | internal/central/collector.go:548-610 | Sends the validator only while services are cached; a 200 with Last-Modified replaces the validator of that peer, whatever comes of the body. |
| PeerCollector.Collector.QueryAgentHealth | internal/central/collector.go:613-672 | The same for the health query and its own validator. |
| PeerCollector.Collector.QueryAll | internal/central/collector.go:370-417 | In any order of the peers, if their addresses differ, every result and every validator left behind is that of the peer asked alone. |
| PeerCollector.Collector.RestoreOffline | internal/central/collector.go:354-363 | Offline peers get their cached services if these are recent; all others are left as discovered. |
| PeerCollector.Collector.ApplyResult | internal/central/collector.go:423-473 | One result: cache entry, published peer and added targets, for OK and for failure, and no other cache entry. |
| PeerCollector.Collector.ApplyAll | internal/central/collector.go:421-474 | In whatever order the results come in, if addresses differ, peers, cache and the multiset of targets are given peer by peer. |
| PeerCollector.Collector.EvictExpiredServiceCache | internal/central/collector.go:524-544 | Drops exactly the entries older than 72 hours, and exactly their validators. |
| PeerCollector.Collector.RefreshPeers | internal/central/collector.go:352-491 | After queries, application and eviction: published peers, cache and validators in closed form, for peers of different addresses; the published targets are those of all services of the published peers that are OK, and every peer shows what the cache has for it. |
| PeerCollector.Collector.Refresh | internal/central/collector.go:334-491 | A failed discovery changes nothing but the flag; otherwise the merged list, whose addresses differ if those of the discovered peers do, is published in that closed form, with the targets of the services of all peers that are OK and no others. |
| PeerRefresh.RefreshedIsRecent | internal/central/collector.go:353-363 | A published peer is OK exactly when both its queries were; what it is left with is at most 72 hours old. |
| PeerRefresh.PublishedHealth | internal/central/collector.go:552-688 | An offline peer stays so; of the others a denied query makes it unauthorized, else a failed one timed out, else it is OK. |
| PeerRefresh.RefreshedShowsCache | internal/central/collector.go:353-480 | Whatever the answers, a published peer shows what the cache keeps for it, or nothing. |
| PeerRefresh.GatheredIsShown | internal/central/collector.go:458-463 | What the results add to the targets, in any order, are the targets of the services of the published peers that are OK. |
| PeerRefresh.OkTargetsMembers | internal/central/collector.go:458-463 | That is, each target of such a service, and no others. |
| PeerRefresh.RefreshIsConfluent | internal/central/collector.go:421-474 | Every two completion orders publish the same multiset of targets (peers and cache do not mention the order at all). |
| PeerRefresh.RenewNext | internal/central/collector.go:421-474 | Writing the entry of one peer leaves the entries of peers at other addresses as they were. |
| Bags.AnyOrderGathersTheSame | internal/central/collector.go:421-474 | A total over the elements of a set is the same for every enumeration of it. |
| PeerMerge.PeerMatchKeys | internal/central/collector.go:734-750 | The non-empty normalised candidates, each once. |
| PeerMerge.HasKeyIff | internal/central/collector.go:734-750 | The keys are the address, both names, and the first label of either name that is not an address. |
| PeerMerge.NormalizedIs | internal/central/collector.go:752-754 | Space around a name, one dot after it and the case of its letters do not matter; all else does. |
| PeerMerge.UpToDotIs | internal/central/collector.go:756-763 | The first label is the part before the first dot. |
| PeerMerge.LastMatchIsLast | internal/central/collector.go:698-703 | The index finds the last discovered peer that has the key, and finds one whenever there is one. |
| PeerCollector.Collector.IndexPeers | internal/central/collector.go:698-703 | The index loop computes that. |
| PeerCollector.Collector.MergePeers | internal/central/collector.go:692-732 | The loops compute the merge for the order in which the map happens to be read, each manual peer taken once. |
| PeerMerge.NothingLost | internal/central/collector.go:696-715 | The first peers are the discovered ones, changed in their URL at most, and not at all if no manual peer matches. |
| PeerMerge.OverrideBySome | internal/central/collector.go:712-714 | A URL is overridden exactly when some manual peer matches that peer last, and then by one that does. |
| PeerMerge.OverrideByAny | internal/central/collector.go:712-714 | If those that match agree, by any of them. |
| PeerMerge.AgentURLIs | internal/central/collector.go:705-711 | That URL has the address and, in decimal, the port given or else the default port. |
| PeerMerge.AppendedIps | internal/central/collector.go:715-728 | Exactly the manual peers without a match are appended, as manual peers of unknown health. |
| PeerMerge.AppendedIs | internal/central/collector.go:715-728 | Name, address, URL, source and health of an appended peer. |
| PeerMerge.AppendedDistinct | internal/central/collector.go:715-728 | None is appended twice. |
| PeerMerge.OrderDoesNotMatter | internal/central/collector.go:705-730 | For any two orders of the map the appended peers are the same multiset. |
| PeerMerge.OrderDoesNotMatterIff | internal/central/collector.go:705-714 | The overridden part is the same for all orders exactly if manual peers that match the same discovered peer give it the same URL. |
| PeerMerge.MergedIpsDistinct | internal/central/collector.go:692-732 | Distinct addresses stay distinct: no manual peer is appended beside its discovered self. |
| PeerCollector.Collector.ReplaceConfigPeers | internal/central/collector.go:274-290 | The entries from the file are replaced by the list, the last entry of an address counting; those added by hand stay unless the list names their address. |
| PeerCollector.LastPeerIsLast | internal/central/collector.go:274-290 | The entry that counts for an address is the last of that address. |
| PeerCollector.Collector.AddManualPeer | internal/central/collector.go:293-297 | Adds or replaces the peer at its address. |
| PeerCollector.Collector.RemoveManualPeer | internal/central/collector.go:300-308 | Succeeds exactly if the address is there, and removes it. |
| CentralPeers.FilterManualPeers | internal/central/server.go:273-281 | Keeps the entries of other addresses, in order. |
| CentralPeers.CloneCentralConfig | internal/central/mgmt.go:194-211 | The copy equals the original. |
| CentralPeers.LastWithout | internal/central/server.go:273-281 | After filtering an address nothing answers for it, all other addresses answer as before, and an address with no entry filters nothing. |
| CentralPeers.WithoutPeerKeepsOthers | internal/central/server.go:273-281 | Every entry of another address is kept as often as it was. |
| CentralPeers.WithoutPeerJoin | internal/central/server.go:273-281 | In the order it was. |
| CentralPeers.ReplaceMirrorsIff | internal/central/collector.go:274-290 | After a reload the map says what the list says exactly when no peer added by hand is missing from the list. |
| CentralPeers.EditedFileLeavesOver | internal/central/collector.go:274-290 | Reachable: a peer added by hand outlives an edit of the file that drops it. |
| CentralPeers.Central.constructor | internal/central/server.go:38-52 | A new Central starts with the map saying what the configuration says. |
| CentralPeers.Central.Add | internal/central/mgmt.go:102-136 | Rejects an empty address or a bad port, changes nothing if the save fails, else file, memory and map together. |
| CentralPeers.Central.Remove | internal/central/mgmt.go:151-174 | Changes file, memory and map together or, if the peer is unknown, none; agreement survives even a failed rollback. |
| CentralPeers.Central.Reload | internal/central/server.go:102-118 | Memory and map follow the file; those added by hand that it does not name stay, and the map mirrors the file exactly when there are none. |
| CentralPeers.Central.ServeAll | internal/central/mgmt.go:88-175 | After any run of adds, removes and reloads, with any save, rollback or read failures, file and memory hold the list that the requests done add up to, and the map is its last-wins reading. |
| GroupKey.CanonicalGroupKey | internal/agent/bucket.go:254-267 | The loops over the map in any order, the sort and the builder give the canonical string. |
| GroupKey.DecodeCanonical | internal/agent/bucket.go:262-266 | A decoder for the decimal length prefixes recovers the label map from its string, whatever bytes names and values hold. |
| GroupKey.CanonicalInjective | internal/agent/bucket.go:254-267 | Two label maps have the same string exactly when they are equal. |
| GroupKey.DigitPrefixUnique | internal/agent/bucket.go:264-264 | A decimal length followed by a non-digit is read in one way only. |
| GroupPath.ParseGroupKey | internal/agent/bucket.go:194-224 | Accepts exactly the paths with job first and non-empty, decodable values and no empty or repeated name; the labels are those of the pairs and the key is their canonical string. |
| GroupPath.ParseLabels | internal/agent/bucket.go:203-222 | The loop over the pairs, with each of its error exits. |
| GroupPath.SameGroupIff | internal/agent/bucket.go:194-267 | Two accepted paths address the same group exactly when they give the same labels the same values. |
| GroupPath.OrderDoesNotMatter | internal/agent/bucket.go:203-222 | Reordering the pairs after the first gives an accepted path to the same group. |
| GroupPath.SplitJoins | internal/agent/bucket.go:195 | Splitting a path cuts at every slash and loses nothing. |
| GroupPath.PartsOfPath | internal/agent/bucket.go:194-203 | A path joined from parts without slashes, the outer ones not empty, is read as those parts, with a slash before or after it or without. |
| GroupPath.WrittenPathIsRead | internal/agent/bucket.go:203-241 | Labels written out in a path, job first and each value as it is or in base64, are read back, and the path is accepted if job is not empty. |
| GroupPath.AcceptedLabels | internal/agent/bucket.go:203-222 | The labels of an accepted path have a job, not empty, no empty name, and as many names as the path has pairs. |
| PushBucket.Append | internal/agent/bucket.go:306-306 | The append of slices, in place when there is capacity: the contents are the concatenation either way. |
| PushBucket.ParsePushBody | internal/agent/bucket.go:294-313 | Families as they are accumulated on the heap have the value of the decoded body; a body that breaks off gives none. |
| Metrics.BodyFamiliesContent | internal/agent/bucket.go:303-311 | A family holds the metrics pushed under its name, in order; no other family appears. |
| Metrics.FirstFamilyDescribes | internal/agent/bucket.go:303-311 | Its help and type are those of the first family pushed under the name. |
| PushBucket.SetLabel | internal/agent/bucket.go:332-340 | Replaces the first pair of that name, else appends one. |
| Metrics.WithLabelLookup | internal/agent/bucket.go:332-340 | Afterwards that name has that value and all others are as before. |
| Metrics.WithLabelNames | internal/agent/bucket.go:332-340 | Names stay distinct if they were, and only that name is new. |
| PushBucket.InjectMetric | internal/agent/bucket.go:61-63 | In any order of the map, the grouping labels override and every other label is kept. |
| PushBucket.InjectAll | internal/agent/bucket.go:58-65 | The nested loops, in place on the metric slices, do so for every metric of every family. |
| Metrics.InjectedCarry | internal/agent/bucket.go:56-65 | After injection every metric carries its whole grouping key. |
| Metrics.DisagreeingGroupsDiffer | internal/agent/bucket.go:56-65 | Metrics of groups that disagree on a shared label never have the same labels. |
| PushBucket.Bucket.Push | internal/agent/bucket.go:45-90 | Succeeds exactly for an accepted path and a whole body; then PUT makes the pushed families the group of that label map, POST puts each in the place of one of its name and keeps all others; no other group is touched; on failure nothing changes; every stored metric carries its key. |
| PushBucket.Bucket.Delete | internal/agent/bucket.go:93-103 | Removes the group of the path, if accepted, and nothing else. |
| PushBucket.Bucket.Clear | internal/agent/bucket.go:142-146 | Empties the bucket. |
| PushBucket.Bucket.Keep | internal/agent/bucket.go:67-87 | The locked section: PUT makes the pushed families the group, POST puts each in the place of one of its name and keeps the others; no other label map is concerned. |
| PushBucket.TakeFamilies | internal/agent/bucket.go:71-73 | The loop of POST is a right-biased union by family name. |
| PushBucket.Bucket.Serve | internal/agent/bucket.go:45-146 | One request: what it comes to, by path and body, and the groups after it. |
| PushBucket.Bucket.ServeAll | internal/agent/bucket.go:45-146 | After any run of requests the bucket holds, under each label map and family name, what a plain map holds there in which PUT replaces all families, POST those that are pushed, and delete and clear remove. |
| PushBucket.Bucket.ServeMetrics | internal/agent/bucket.go:106-131 | The view holds, per family name, the union of the metrics of all groups, with help and type of one of them, and consists of fresh objects only: nothing stored is modified. |
| PushBucket.MergeFamily | internal/agent/bucket.go:113-123 | Appending to a merged family, or copying a stored one, touches only what the view owns. |
| Metrics.ScrapedWithout | internal/agent/bucket.go:112-124 | The union over the groups does not depend on the order of the map. |
| Metrics.MergeNextGroup | internal/agent/bucket.go:112-124 | One round of the outer loop extends the view by one group. |
| Metrics.FileRefinesUpdate | internal/agent/bucket.go:67-87 | Filing a group changes what is found under its label map and under no other. |
| Metrics.DropRefinesRemoval | internal/agent/bucket.go:99-101 | Dropping a group changes what is found under its label map and under no other. |
| Metrics.BucketIsAMap | internal/agent/bucket.go:45-146 | The groups filed by any run of pushes, deletes and clears are that plain map. |
| Metrics.LastSayStands | internal/agent/bucket.go:45-146 | In it a family stands exactly if some push stored it, or it was there, and no later push of its name, PUT, delete or clear made it go. |
| Metrics.PushShows | internal/agent/bucket.go:67-87 | What a push does to the filed groups, by label map and family name. |
| Metrics.StoredCarries | internal/agent/bucket.go:67-87 | What POST leaves in place carries the labels too. |
| AgentServer.HealthChecker.Register | internal/agent/health.go:50-82 | With a URL and after Start, sets the check with defaults and the first, unknown, status; otherwise nothing. |
| AgentServer.HealthChecker.Unregister | internal/agent/health.go:86-93 | Removes the check of that name and nothing else. |
| AgentServer.BucketStore.Add | internal/agent/bucket.go:159-167 | Succeeds exactly if the name is free. |
| AgentServer.BucketStore.Remove | internal/agent/bucket.go:169-177 | Succeeds exactly if the name is there. |
| AgentServer.ProxyStore.Add | internal/agent/proxy.go:91-99 | Succeeds exactly if the name is free. |
| AgentServer.ProxyStore.Remove | internal/agent/proxy.go:101-109 | Succeeds exactly if the name is there. |
| AgentServer.Server.constructor | internal/agent/server.go:73-85 | All stores are empty. |
| AgentServer.Server.AddBucket | internal/agent/server.go:840-852 | Succeeds exactly if neither store nor registry has the name; on failure nothing changes; only this name changes; the bucket is new and empty; it is announced under its own path with its labels, and checked exactly if that is asked for. |
| AgentServer.Server.UpdateBucket | internal/agent/server.go:854-864 | Replaces entry and check of a known bucket, keeping the bucket; announces and checks it as it is now asked for. |
| AgentServer.Server.RemoveBucket | internal/agent/server.go:883-889 | Removes check, bucket and entry; if it fails the check is gone all the same. |
| AgentServer.Server.AddProxy | internal/agent/server.go:892-916 | Succeeds exactly if neither store nor registry has the name, and stores the proxy target; announced and checked likewise. |
| AgentServer.Server.RemoveProxy | internal/agent/server.go:919-925 | As for buckets. |
| AgentServer.Server.AddStatic | internal/agent/server.go:928-945 | Succeeds exactly if the name is not registered; announced with its targets and labels, and checked exactly if that is asked for. |
| AgentServer.Server.RemoveStatic | internal/agent/server.go:972-975 | Removes check and entry of the name, whatever its type. |
| AgentConfigs.EntriesAnnounce | internal/agent/server.go:865-945 | Targets and labels of the three kinds of entry: name, type and metrics path are the own ones, all other labels as asked for. |
| Slots.RunsKeepPath | internal/agent/server.go:840-945 | Over any run, whatever labels are asked for, buckets and proxies stay announced under their own paths. |
| AgentRoutes.AnnouncedPathsLeadBack | internal/agent/server.go:801-838 | Those paths lead back to bucket and proxy exactly if the name has no slash at either end. |
| AgentRoutes.PushPathsLeadTo | internal/agent/server.go:774-797 | Metrics can be pushed to a bucket exactly if its name has no slash at all. |
| AgentServer.Server.ScrapeFinds | internal/agent/server.go:801-838 | A scrape of the announced path finds that very bucket or proxy. |
| Slots.OpKeepsConsistent | internal/agent/server.go:840-975 | An operation keeps the stores consistent, except for a static removal, which does exactly when the name is not a bucket or proxy. |
| Slots.RunsStayConsistent | internal/agent/server.go:840-975 | Over any run: bucket store, proxy store and checks agree with the registry if static removals hit static names, and never fall below the weak form. |
| Slots.FailureChangesOnlyChecks | internal/agent/server.go:883-925 | A failed operation leaves registry and stores alone; it changes anything exactly if it is a bucket or proxy removal whose name has a check. |
| Slots.RefusedRemovalStopsCheck | internal/agent/server.go:883-925 | Reachable: a checked static service asked to go as a bucket or proxy stays registered and is no longer checked. |
| AgentConfigs.FilterSlice | internal/agent/server.go:961-969 | Keeps exactly the entries of other names, in order. |
| AgentConfigs.FirstIsFirst | internal/agent/server.go:342-349 | The entry that counts for a name is the first of that name. |
| AgentConfigs.FirstWithout | internal/agent/server.go:961-969 | After dropping a name nothing is configured under it, and all other names as before. |
| AgentConfigs.WithoutKeepsOthers | internal/agent/server.go:961-969 | Every entry of another name is kept as often as it was. |
| AgentConfigs.WithoutJoin | internal/agent/server.go:961-969 | In the order it was. |
| AgentServer.DesiredBuckets | internal/agent/server.go:340-349 | The first entry of each bucket name, and the names in order without repetition. |
| AgentServer.Server.ClearServices | internal/agent/server.go:351-362 | Along the sorted list, statics, proxies and unwanted buckets go; every other name is untouched. |
| AgentServer.Server.AddStatics | internal/agent/server.go:363-367 | Of several entries of a name the first is added. |
| AgentServer.Server.LoadBuckets | internal/agent/server.go:368-379 | Known buckets are updated, others created empty. |
| AgentServer.Server.AddProxies | internal/agent/server.go:380-390 | Of several entries of a name the first is added. |
| AgentServer.Server.ReloadByName | internal/agent/server.go:339-391 | A reload acts on each name by itself: removals, then statics, buckets and proxies of that name. |
| AgentServer.Server.ReloadConfigServices | internal/agent/server.go:339-391 | For names used in one section only, registry and stores end as configured exactly if no stray was left there, checks too; what is announced under a name is given, for shared names as well; consistent stores have no strays and stay consistent; wanted buckets keep their object and all groups, made ones are new and empty. |
| Slots.ReloadReconciles | internal/agent/server.go:339-391 | Per name: entry, bucket, proxy and check as configured, whatever was there before. |
| Slots.ReloadReconcilesIff | internal/agent/server.go:339-391 | From any reachable state entry and stores are as configured exactly when there is no stray of a mistyped removal, the entry alone exactly when none that is configured. |
| Slots.OrphanStaysOrphan | internal/agent/server.go:368-390 | An orphan outlives every reload of that configuration. |
| Slots.MistypedRemovalOrphans | internal/agent/server.go:972-975 | Reachable: adding a bucket or proxy and removing it as a static service leaves an orphan, and a reload that asks for it does not bring it back. |
| Slots.ReloadWithSharedNames | internal/agent/server.go:363-390 | Names used in several sections: a proxy never wins; a bucket wins over a static service exactly if it was there before. |
| Slots.ReloadForgetsThePast | internal/agent/server.go:339-391 | The outcome depends on the past exactly for names of both a static service and a bucket. |
| Slots.ReloadIsIdempotent | internal/agent/server.go:339-391 | A second reload changes nothing. |
| Slots.ReloadOutcome | internal/agent/server.go:339-391 | All of these together, per name. |
| Management.CloneAgentConfig | internal/agent/mgmt.go:360-395 | The copy equals the original. |
| Management.Agent.SaveConfig | internal/agent/server.go:949-958 | A save that fails leaves the file as it was; without a file it succeeds and does nothing. |
| Management.Agent.Finish | internal/agent/mgmt.go:83-95 | Publish, or put the old file back; a failed rollback leaves the new file and the old memory. |
| Management.Agent.AddStatic | internal/agent/mgmt.go:48-96 | All sections or none; the store changes exactly if the request is done, at one name; then the configuration has the entry asked for, with a check exactly if a URL was given, and it is announced and checked so. |
| Management.Agent.RemoveStatic | internal/agent/mgmt.go:99-134 | All sections or none; done exactly if saved and registered. |
| Management.Agent.AddBucket | internal/agent/mgmt.go:137-182 | All sections or none; a done request has made a new, empty bucket, configured, announced and checked as asked for. |
| Management.Agent.RemoveBucket | internal/agent/mgmt.go:185-220 | All sections or none; done exactly if saved and known as a bucket. |
| Management.Agent.AddProxy | internal/agent/mgmt.go:245-317 | Both kinds of credentials at once are refused; otherwise all sections or none; the auth type is the one given or that of the credentials; configured, announced and checked as asked for. |
| Management.Agent.RemoveProxy | internal/agent/mgmt.go:320-355 | All sections or none; done exactly if saved and known as a proxy. |
| Management.RemovedStaysSynced | internal/agent/mgmt.go:111-134 | A successful removal keeps configuration and stores in step exactly when the type is right. |
| Management.Agent.AfterAddStatic | internal/agent/mgmt.go:68-96 | Whatever its outcome, adding a static service keeps the stores consistent and in agreement with memory. |
| Management.Agent.AfterRemoveBucket | internal/agent/mgmt.go:197-220 | So does removing a bucket, of whatever type the name is. |
| Management.Agent.AfterRemoveStatic | internal/agent/mgmt.go:111-134 | A static removal that is done breaks either exactly when the name is not that of a static service. |
| Management.Agent.Reload | internal/agent/server.go:306-335 | Memory follows the file and each name is reloaded; all agree afterwards exactly if the stores were consistent and the file uses no name in two sections; a failed read or listen changes no services. |
| Management.Agent.Serve | internal/agent/mgmt.go:34-355 | One request of any kind: what memory and file hold after it; of what kind each service is; stores consistent exactly if a static removal that is done hits a static service, and in agreement with memory exactly if it names a configured one and a reload brings in no name in two sections. |
| Management.Agent.ServeAll | internal/agent/mgmt.go:34-355 | Any run of requests and reloads with arbitrary save and rollback failures: what memory and file hold; stores consistent, and of the kinds that the run adds up to, if static removals hit static services; in agreement with memory if requests are well aimed; the first request that is not breaks it. Without failed rollbacks file, memory and stores agree on the sections that the requests done add up to. |
| Management.DoneRequestsAddUp | internal/agent/mgmt.go:34-355 | Where file and memory agree at first they are what the requests done add up to, unless a rollback fails; memory is so even then, unless something is reloaded. |
| Rebind.AgreementKeptIff | internal/agent/server.go:493-536 | A locked section keeps the address of the server equal to the configured one exactly if it does not publish a configuration with another address. |
| Rebind.AgreementRestored | internal/agent/server.go:500-536 | A call that swaps, or finds its address listened on, makes them equal whatever was before. |
| Rebind.AgreesThroughoutIff | internal/agent/server.go:306-335 | They are equal at every point of a run exactly if every publication brings the address it finds. |
| Rebind.RequestAgreesIff | internal/agent/mgmt.go:70-95 | One management request beside any calls: after it has published they are equal exactly if the server is where it was when the request copied. |
| Rebind.ReloadAgreesIff | internal/agent/server.go:306-335 | One reload, whose own call has returned: exactly if no other call has moved the server elsewhere since. |
| Rebind.PublicationUndoesRebind | internal/agent/server.go:244-267 | Reachable: a call from start to swap between copy and publication of a request leaves the server at the new address and the old one configured. |
| Rebind.AccountingKept | internal/agent/server.go:493-547 | Every section keeps: each open listener is current or held by exactly one call that will close it. |
| Rebind.SwapAccounted | internal/agent/server.go:516-536 | The swap hands the new listener over and makes the call answer for the old one. |
| Rebind.CountKept | internal/agent/server.go:530-538 | Swaps are touches plus the calls that have swapped and not touched yet. |
| Rebind.SwapsAreMoves | internal/agent/server.go:516-534 | The server changes only by a swap, and every swap changes its address. |
| Rebind.RunKeepsInv | internal/agent/server.go:493-547 | In every interleaving of any number of calls with requests and reloads every listener is accounted for, and every swap but those of calls still at it has been followed by a touch. |
| Rebind.NothingLeaks | internal/agent/server.go:493-547 | When all calls have returned only the current listener is open and every swap was followed by a touch. |
| Rebind.FailsIff | internal/agent/server.go:511-514 | In any run a call ends in failure exactly if its listen failed. |
| Rebind.FailedCallIsHarmless | internal/agent/server.go:493-514 | Such a call has changed neither the server nor the listen address nor the open listeners, whatever ran beside it. |
| Rebind.SucceedsOnlyThere | internal/agent/server.go:493-547 | A call succeeds only if, at an instant between its start and its end, the server listens where it wants it, or there is none. |
| Rebind.FailedReloadNeverPublishes | internal/agent/server.go:319-331 | A reload whose own call failed can only give up, whatever runs beside it. |
| Rebind.FailedReloadKeepsAll | internal/agent/server.go:319-331 | Alone, it leaves server, listeners and listen address as they were. |
| Rebind.AloneItTakesEffect | internal/agent/server.go:493-547 | A call that is alone ends with the server at the address it was given and nothing else open; if it was there already, without a new listener. |

## Left out

- HTTP servers and clients, JSON and TOML encoding, sockets, TLS, gzip and the exposition-format codecs: requests, answers and decoded bodies are datatypes, a save is a step that may fail and then leaves the old file.
- Base64 in group paths (section 5 of RFC 4648): an arbitrary partial function.
- Tailscale status, node attributes and network interfaces: discovery results, addresses and interface values are inputs; interface values stay fixed during one resolution.
- Authentication, ACL tags, command line, printing, service installation, self-metrics set-up: short branches or no state.
- Health-check goroutines: results arrive as arbitrary `UpdateHealth` operations, and nothing is said about a check that still writes after it was cancelled.
- Parallel refreshes of one Central: the two queries of a refresh interleave freely with each other and with the Agent, but a refresh started by a reload request while another runs is not modelled.
- Restart of an Agent: one registry lifetime per run.
- The peer cache file: only as an initial cache without validators.
- Agents without the health endpoint, and a JSON null for the health table: Central's merge handles both here, but the modelled Agent never sends them.
- Management.Agent.ServeAll: claims the service sections only; what becomes of the listen address is proved in `Rebind`, where changes of it before the server runs are not modelled.
- Serving, failing and shutting down of an HTTP server after it has been swapped: a call's last section closes the old listener.
- ServiceCache.OverlayHealth: works on values; Central lays fresh health over the cached list in place, and peers published before share that list.
- Management.CloneAgentConfig: states equality; that nested slices and maps are not shared, and the self-metrics section, are not modelled.
- PushBucket.Bucket.ServeMetrics: does not state the order of families or metrics, nor from which group help and type come, because these follow the order of a map.
- Groups are records and metrics are values in the bucket: what is on the heap are family objects, their metric slices and spare capacity.
- PeerCollector.Collector.Refresh: says nothing of what is published for peers that share an address, because there the cache keeps whichever result came last.
- PeerMerge.PeerMatchKeys: letter case and white space are ASCII only, because strings are bytes; the test whether a text is an IP address is an arbitrary predicate.
- Agent token, discovery tags and the default port as changed by Central's reload.
- The first load of services at start-up, which stops at the first error, and the request that clears a bucket by name.
- Redirects and percent-encoding of request paths: `AgentRoutes` speaks of paths as the handlers see them.
- Bucket and proxy traffic, client access tracking, status pages: no state worth proving.
