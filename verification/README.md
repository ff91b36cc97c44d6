# A verified model of the sing-box routing core

This project models, in Dafny, the parts of sing-box where state, order and concurrency carry the
behaviour, and proves what those parts promise. It stands alone: `dafny verify dfyconfig.toml`
covers all files.

- **DNS rules** (`DnsRule`, `DnsMode`, `DnsBuild`, `DnsAccept`, `DnsExchange`, `DnsTrace`, `DnsLegacy`,
  `DnsUpdate`, `DnsRouter`, `DnsService`). A rule list is analysed once and then interpreted by one
  of two interpreters, each of which skips option fields and actions the analysis has excluded. The
  analysis is characterised exactly by the nodes of the rule tree; on every list the builder accepts,
  both interpreters agree with a reference that applies all fields; the mode stays right over any run
  of rule-set updates; `respond` answers with the latest evaluate; a lookup never reaches a fakeip
  server, which takes the analysis, the interpreter and the transport manager together.
- **DNS client** (`DnsMessage`, `DnsCache`, `SingleFlight`). Lifetimes as in section 5 of RFC 2308,
  the memory cache with expiry and serve-stale, and the per-key lock as a state machine over all
  interleavings.
- **Dialling** (`DialRace`). The race of two address families as a state machine of caller, racers
  and timer: no connection leaks, no racer is left behind, errors come only after everything failed.
- **Daemon** (`ConnectionStream`, `Replica`, `ServiceLifecycle`). The connection stream with the
  client that replays it, over any losses in the queue; and the service, whose reload drops and
  retakes its mutex, under any number of concurrent calls.
- **Registries** (`StartOrder`, `Dependents`, `OutboundManager`, `TransportManager`). The start loop
  against graph soundness, the reverse-dependency table, and list and tag table kept in step.
- **Routing** (`RouteMatch`). Pre-match and full match of the same rules, related to each other, and
  what a walk over the rules makes of the settings of a connection.
- **Codec** (`SavedBinary`). The stored record with its varint lengths, written and read back.

`Basics` holds what the parts share. Code that changes things in place is modelled by classes and methods with loops, each proved against
a specification function; concurrent code by a state machine over its steps, with theorems about
every run. Rule matching, starters, transports, sniffing, clocks and upstream replies are parameters
(functions or values a theorem quantifies over), so every result holds for all of them.

Where the code does not give a property that suggests itself, a member reaches an input on which it
fails and a contract says exactly when it holds:

- rule-set updates checked together: `DnsUpdate.CheckedTogetherCanBreakTheMode`, `DnsUpdate.TogetherExactly`
- overlapping reloads: `ServiceLifecycle.OverlappingReloadsMisreport` and
  `ServiceLifecycle.OverlappingReloadsLoseAnInstance`, `ServiceLifecycle.OverlapsExactly`
- counters loaded apart: `Replica.LoadsApartDriftForGood`, `Replica.TickIsExactWithoutDrift`, `Replica.DriftLasts`
- repeated dependencies: `OutboundManager.DependentGetsLost`, `OutboundManager.ListedAfterRemove`
- a stale default outbound: `OutboundManager.DefaultGoesStale`, `OutboundManager.Manager.Create`
- the default after removing a DNS server: `TransportManager.DefaultBecomesFakeIp`,
  `TransportManager.Manager.Remove`; the message there (dns/transport_manager.go:213-224) speaks of
  the replacement the code makes in the opposite case, and the model follows the code
- a fallback DNS server under a taken tag: `TransportManager.FallbackTagTaken`, `TransportManager.Manager.Start`
- the TTL served from the cache: `DnsCache.ServedPastExpiry`, `DnsCache.Client.LoadResponse`

## Model

| member | source | states |
|---|---|---|
| `DnsMode.RuleSetFlagsExact` | dns/router.go:962-999 | the fold over the rule sets of a rule fails exactly on an unknown set, and raises each flag exactly when some set asks for it |
| `DnsMode.RuleFlagsExact` | dns/router.go:937-986 | over any rule tree, the three flags computed are exactly what some node of the tree asks for, and the analysis fails exactly on a node with an unknown rule set |
| `DnsMode.FlagsExact` | dns/router.go:925-935 | the same for a whole rule list |
| `DnsMode.StrategyImpliesNeeded` | dns/router.go:962-986 | a strategy anywhere in the tree also asks for legacy mode |
| `DnsMode.ResolveModeExact` | dns/router.go:911-923 | the list is accepted if and only if every rule set is known and no strategy meets a disabling node; legacy mode is chosen if and only if some node needs it and none disables it |
| `DnsMode.ValidateTreeExact` | dns/router.go:1066-1099 | the tree validator accepts exactly trees of well-formed nodes and reports exactly whether the rule uses a response |
| `DnsMode.ValidateTreesExact` | dns/router.go:1073-1082 | the same for the branches of a logical rule |
| `DnsMode.ValidateOrderExact` | dns/router.go:1028-1043 | from any position on, the order check accepts exactly when every response-using rule has an evaluate rule before it |
| `DnsMode.ValidateNewModeExact` | dns/router.go:1028-1099 | the new-mode validator accepts exactly the well-formed lists in which an evaluate rule precedes every use of a response |
| `DnsBuild.ValidateEvaluateExact` | dns/router.go:1045-1064 | the evaluate check accepts exactly the lists with no evaluate rule on a fakeip server |
| `DnsBuild.BuildRule` | route/rule/rule_dns.go:18-68 | a rule that builds keeps its configuration and gets the runtime form of its own action; which rules build is `DnsAccept.BuildRuleExact` |
| `DnsBuild.BuildListMirrors` | dns/router.go:198-207 | the running list mirrors the configured one rule by rule, with no routing action without a server and no reject-by-reply |
| `DnsBuild.DecisionBindsTopRules` | dns/router.go:911-986 | in legacy mode no rule of the list disables it, in new mode none has a strategy |
| `DnsBuild.LegacyListIsClean` | dns/router.go:1101-1110 | a list none of whose rules disables legacy mode holds no evaluate, no respond and no optimistic-cache switch |
| `DnsBuild.NewModeListIsClean` | dns/router.go:1112-1121 | a list without strategies and with evaluate first runs in new mode |
| `DnsBuild.AcceptedRulesFitTheirMode` | dns/router.go:176-218 | for every rule list the builder accepts, the interpreter it picks meets only options and actions it handles, no evaluate names a fakeip server and every reject can be answered |
| `DnsAccept.BuildRuleExact` | route/rule/rule_dns.go:18-66 | a rule builds if and only if every node of its tree passes its own checks, no branch carries an action, and a rule of the list names its server |
| `DnsAccept.BuildBranchesExact` | route/rule/rule_dns.go:460-488 | the branches of a logical rule build if and only if every node under them does and none carries an action |
| `DnsAccept.NoNestedExact` | route/rule/rule_nested_action.go:35-49 | the nesting check finds exactly the trees with an action on some node |
| `DnsAccept.AcceptedExactly` | dns/router.go:176-218 | which rule lists are accepted and in which mode, in both directions and said of the nodes of the trees alone |
| `DnsExchange.ApplyDnsRouteOptions` | dns/router.go:345-361 | the four fields are applied; with no strategy in the action that is the same as applying all five |
| `DnsExchange.ExchangeWithRules` | dns/router.go:404-513 | the loop, with its updates of options, evaluated response and query history, computes exactly the recursive interpreter: same events, same ending, same queries in the same order |
| `DnsExchange.NewModeAppliesAllFields` | dns/router.go:345-361 | on a list without strategies the interpreter gives the same trace as the reference that applies all five option fields |
| `DnsTrace.StepFits` | dns/router.go:412-500 | what one matching rule does to options, evaluated response and history, case by case |
| `DnsTrace.RunFits` | dns/router.go:404-513 | from any point of a walk on, the rest of the interpreter run fits the declarative reading |
| `DnsTrace.WholeRunFits` | dns/router.go:404-513 | every run reads rule by rule: an option rule acts on all later queries, evaluate and skipped-route options on none, and the queries sent are the evaluates and the final route with exactly those options |
| `DnsTrace.LatestEvaluationIsTheLast` | dns/router.go:423-445 | the kept response is that of the last evaluate that matched, and is there exactly when that one was answered |
| `DnsTrace.RespondAnswersWithLatestEvaluate` | dns/router.go:446-455 | respond returns exactly the answer of the latest matching evaluate; a later failed one erases it |
| `DnsTrace.ResponseIsThereWhenNeeded` | dns/router.go:1028-1099 | for every accepted new-mode list, in any run whose evaluates succeed, the missing-response error is unreachable and every response-using rule is matched against a response |
| `DnsTrace.SwitchesAccumulate` | dns/router.go:345-361 | after any prefix of rules a cache switch is on exactly when the caller or a matched option rule turned it on; strategies never change |
| `DnsTrace.LastTtlWins` | dns/router.go:345-361 | the rewritten TTL is the one set last by a matched option rule, else the caller's |
| `DnsTrace.LastSubnetWins` | dns/router.go:345-361 | the same for the client subnet |
| `DnsLegacy.MatchDns` | dns/router.go:275-343 | the loop computes exactly the recursive matcher: same selected rule, transport and options |
| `DnsLegacy.RunAttempts` | dns/router.go:660-716 | the retry loop sends exactly the attempts of the recursive specification; also used for the lookup loop at lines 783-825 |
| `DnsLegacy.LegacyMatchIsFaithful` | dns/router.go:275-343 | on a list accepted for legacy mode the matcher, which skips two fields, agrees with the strict five-field one and never meets an action it does not know |
| `DnsLegacy.LegacyAppliesAllFields` | dns/router.go:275-343 | the same for all attempts of a query: every query sent has the options of the five-field reference |
| `DnsLegacy.MatchAvoidsFakeIp` | dns/router.go:304-307 | a match that may not use fakeip never yields a fakeip server |
| `DnsLegacy.AttemptsAvoidFakeIp` | dns/router.go:783-825 | no attempt of a lookup goes to a fakeip server |
| `DnsLegacy.RetriesMoveForward` | dns/router.go:665-715 | each retry resumes strictly after the rule whose address limit turned the reply down, and only the last attempt may be unvetted, so the loop ends |
| `DnsUpdate.OverrideIsUpdate` | dns/router.go:226-236 | the same for the one update a router is asked about |
| `DnsUpdate.OverridesAreUpdates` | dns/router.go:988-999 | analysing with any overrides is analysing after they are applied |
| `DnsUpdate.AcceptsExactlyWhatKeepsTheMode` | dns/router.go:226-273 | a running router accepts an update if and only if the mode it runs in is still right afterwards |
| `DnsUpdate.ModeHoldsOverAnyRun` | dns/router.go:226-273 | over any sequence of updates applied one at a time, the mode stays right |
| `DnsUpdate.RunningRulesStayInTheirMode` | dns/router.go:226-273 | from the build on and over any run of updates: in legacy mode no node ever disables it, in new mode the analysis never calls the rules legacy, and no rule set goes missing |
| `DnsUpdate.WaitingUpdatesKeepBuildable` | dns/router.go:245-254 | updates accepted before the start never make the later mode analysis fail |
| `DnsUpdate.TogetherExactly` | dns/router.go:226-273 | any number of updates, each accepted against the same state and then all applied: legacy mode always survives; new mode is lost if and only if only rule sets disabled legacy mode and some did, the last updates take the query types from all of them and bring none, and a rule needs legacy mode afterwards |
| `DnsUpdate.SafeWhereNothingDisabled` | dns/router.go:226-273 | where nothing disabled legacy mode, updates that each keep the new mode never lose it together |
| `DnsUpdate.LossTakesTwo` | dns/router.go:226-273 | losing the new mode takes updates of two rule sets, one of which takes away query types |
| `DnsUpdate.NewModeByTags` | dns/router.go:911-999 | the new mode is right if and only if no rule has a strategy and, if a rule or a rule set with addresses needs legacy mode, a rule or a rule set with query types disables it |
| `DnsUpdate.CheckedTogetherCanBreakTheMode` | dns/router.go:226-273 | the one-at-a-time condition is needed: for every transport table, a list that builds in new mode and two updates, each accepted, that break the mode together |
| `DnsRouter.FilterByType` | dns/router.go:538-551 | exactly the addresses of the family asked for are kept, each as often as it occurs |
| `DnsRouter.MergedFamiliesInOrder` | dns/router.go:553-585 | a one-family strategy gives that family's addresses; otherwise the preferred family comes first and no address is lost or added |
| `DnsRouter.EvaluatesAvoidFakeIp` | dns/router.go:1045-1064 | no evaluate query of a checked list goes to a fakeip server |
| `DnsRouter.RunAvoidsFakeIp` | dns/router.go:371-385 | a run that may not use fakeip sends no query to a fakeip server: route skipping, evaluate validation and a real default are all needed |
| `DnsRouter.FamilyRunSends` | dns/router.go:587-609 | one family's run is the five-field reference run and avoids fakeip |
| `DnsRouter.Router.constructor` | dns/router.go:54-116 | a new router has no rules and runs nothing |
| `DnsRouter.Router.Initialize` | dns/router.go:118-126 | the configuration is kept, and accepted exactly when it builds |
| `DnsRouter.Router.Start` | dns/router.go:128-160 | succeeds if and only if the rules build and every one starts; then the running rules fit the mode and the transports they were built with; otherwise the router is as it was |
| `DnsRouter.Router.Close` | dns/router.go:162-174 | a closed router runs nothing |
| `DnsRouter.Router.ValidateRuleSetMetadataUpdate` | dns/router.go:226-273 | the answer in every phase of the router: waiting, running in either mode, closing |
| `DnsRouter.Router.Exchange` | dns/router.go:611-734 | in each mode the trace is that of the five-field reference |
| `DnsRouter.Router.LookupType` | dns/router.go:587-609 | one family: its addresses are of that family, from the reference run, without a fakeip query |
| `DnsRouter.Router.LookupWithRules` | dns/router.go:553-585 | the families asked for and their merged answer, without a fakeip query |
| `DnsRouter.Router.Lookup` | dns/router.go:736-832 | in either mode, and before the start as well, the answer is the reference's; unless the caller chose the server no query goes to a fakeip server |
| `DnsService.Resolve` | dns/transport_manager.go:278-298 | with the transports of a manager filled only by Create and Start, a rule-driven lookup sends no fakeip query in either mode |
| `StartOrder.StartAll` | adapter/outbound/manager.go:99-171 | the start loop ends on every list; it succeeds if and only if no tag comes twice, every dependency is present, the graph is acyclic and every start succeeds; each item starts once, after its dependencies; it crashes if and only if a tag comes twice and every tag was started |
| `StartOrder.Diagnose` | adapter/outbound/manager.go:149-168 | the search for an item left over, and the walk from it; without one the loop crashes |
| `StartOrder.TagCount` | adapter/outbound/manager.go:143-145 | as many started tags as items means every tag, and none twice |
| `StartOrder.StartPass` | adapter/outbound/manager.go:102-142 | one pass extends a good order, and a pass that starts nothing has reached a state where everything left is blocked |
| `StartOrder.DependenciesStarted` | adapter/outbound/manager.go:110-115 | an item is ready exactly when all its dependencies are started |
| `StartOrder.Lint` | adapter/outbound/manager.go:149-168 | the diagnosis walk ends; a circular report closes a walk along real edges, a not-found report names a real edge |
| `StartOrder.CircularNamesACycle` | adapter/outbound/manager.go:152-168 | the path in a circular report contains a cycle of real edges |
| `StartOrder.FullOrderMeansSound` | adapter/outbound/manager.go:99-171 | an order that starts everything proves the graph closed and acyclic |
| `StartOrder.StuckMeansUnsound` | adapter/outbound/manager.go:143-168 | a stuck loop with something left means a missing dependency or a cycle |
| `StartOrder.NotFoundMeansAbsent` | dns/transport_manager.go:124-143 | when the table covers the list, as for DNS servers, a not-found report means the tag is absent |
| `Dependents.RegisterLists` | adapter/outbound/manager.go:306-309 | registering lists the tag under exactly its dependencies and drops nobody |
| `Dependents.UnregisterExact` | adapter/outbound/manager.go:251-260 | exactly what unregistering leaves of a list: everyone else, except that a repeated dependency loses a single other dependent |
| `Dependents.UnregisterKeepsOthers` | adapter/outbound/manager.go:251-260 | with duplicate-free dependencies it takes out the tag and nobody else |
| `Dependents.RepeatedDependencyLosesAnother` | adapter/outbound/manager.go:251-260 | the loss with a repeated dependency, from the table two registrations leave |
| `Dependents.RegisterAll` | adapter/outbound/manager.go:306-309 | the registering loop computes the registered table |
| `Dependents.UnregisterAll` | adapter/outbound/manager.go:251-260 | the unregistering loop computes the table without the tag |
| `OutboundManager.Manager.constructor` | adapter/outbound/manager.go:38-47 | an empty registry is in step |
| `OutboundManager.Manager.DropExisting` | adapter/outbound/manager.go:289-303 | the replaced outbound is found in the list (the index panic is unreachable) and goes from list and table |
| `OutboundManager.Manager.Replace` | adapter/outbound/manager.go:289-315 | the new outbound takes over its tag and is listed last |
| `OutboundManager.Manager.Create` | adapter/outbound/manager.go:267-317 | list and table stay in step without duplicates, every outbound stays listed under its dependencies, a failed creation changes nothing; a default that is not the configured one goes stale exactly when its own tag is replaced |
| `OutboundManager.Manager.TakeOut` | adapter/outbound/manager.go:226-246 | the outbound is in the list (the index panic is unreachable), leaves list and table, and the default passes on |
| `OutboundManager.Manager.Remove` | adapter/outbound/manager.go:223-265 | list and table stay in step; everyone else stays listed under their dependencies if and only if the removed outbound repeats no dependency with a single other dependent; then removing without error means no registered outbound depended on the tag |
| `OutboundManager.Manager.Start` | adapter/outbound/manager.go:53-97 | the default is settled, list and table stay in step, and the start stage succeeds if and only if no endpoint repeats a tag, the dependency graph is sound and every start succeeds |
| `OutboundManager.ListedAfterCreate` | adapter/outbound/manager.go:304-309 | listing under dependencies survives a creation |
| `OutboundManager.ListedAfterRemove` | adapter/outbound/manager.go:251-260 | exactly when unregistering keeps everyone else listed |
| `OutboundManager.DefaultGoesStale` | adapter/outbound/manager.go:289-315 | the stale default, reached by two creations |
| `OutboundManager.DependentGetsLost` | adapter/outbound/manager.go:251-260 | the lost dependent, reached by two creations and a removal |
| `TransportManager.Manager.constructor` | dns/transport_manager.go:37-46 | an empty manager has a real default, if any |
| `TransportManager.Manager.Elect` | dns/transport_manager.go:278-298 | who becomes default and who the fakeip server; a fakeip server never becomes default |
| `TransportManager.Manager.Create` | dns/transport_manager.go:245-300 | the default stays a real server whatever is created; list and table stay in step; refusals change nothing |
| `TransportManager.Manager.Start` | dns/transport_manager.go:52-88 | at the start stage: which default is settled, when it fails, and that the start succeeds if and only if the fallback's tag is free, the dependency graph is sound and every server starts; with a taken tag and all else well it crashes; at other stages every server is started in turn |
| `TransportManager.Manager.StartServers` | dns/transport_manager.go:90-146 | the loop over the servers: success, crash, absent dependency and cycle |
| `TransportManager.FallbackTagTaken` | dns/transport_manager.go:64-73 | the crash, reached by one creation and a start |
| `TransportManager.Manager.SettleDefault` | dns/transport_manager.go:59-73 | after it there is a real default or a stated error; the fallback keeps list and table in step exactly when its tag is free |
| `TransportManager.Manager.Remove` | dns/transport_manager.go:197-243 | the whole new state; removing the default breaks the invariant that it is real if and only if the server next in the list before the call is a fakeip server |
| `TransportManager.DefaultBecomesFakeIp` | dns/transport_manager.go:213-224 | the broken invariant, reached by two creations and a removal |
| `DialRace.DialSerial` | common/dialer/default_parallel_network.go:16-45 | the first address that connects is returned after all before it failed; otherwise every address was dialled and every error is kept in order |
| `DialRace.PlanCoversAddresses` | common/dialer/default_parallel_network.go:59-78 | there is a race if and only if both families are there; the preferred one is the primary, and each valid address is dialled by exactly one racer, as often as it is given |
| `DialRace.NextKeepsInv` | common/dialer/default_parallel_network.go:79-129 | every step of caller, racers and timer keeps the race invariant, under either meaning of a stopped timer |
| `DialRace.ConnectionsAreAccountedFor` | common/dialer/default_parallel_network.go:59-129 | in every interleaving at most one fallback racer starts, and every connection opened is returned, closed exactly once, or held by a racer that can still close it |
| `DialRace.ErrorMeansEverythingFailed` | common/dialer/default_parallel_network.go:86-129 | an error is returned only after both racers dialled all their addresses and failed, and it is the primary racer's; a connection returned is the first of its racer |
| `DialRace.EveryAddressWasDialled` | common/dialer/default_parallel_network.go:59-129 | said of the destination: on an error every valid address of it was dialled and failed, and a connection returned is to one of its addresses |
| `DialRace.FallbackWaitsItsTurn` | common/dialer/default_parallel_network.go:103-129 | the fallback family starts only after the delay or after the primary family failed |
| `DialRace.StepsRunOut` | common/dialer/default_parallel_network.go:79-129 | every step brings the race closer to its end |
| `DialRace.RunsAreBounded` | common/dialer/default_parallel_network.go:79-129 | no interleaving is longer than the number of addresses allows |
| `DialRace.FinishedRaceIsClean` | common/dialer/default_parallel_network.go:59-129 | a race that can go no further has returned, leaves no racer blocked, and has closed every connection but the one returned exactly once |
| `RouteMatch.MatchRule` | route/route.go:402-608 | the loop over rules, changing the metadata in place, computes the recursive specification in both modes |
| `RouteMatch.LastOptionsWin` | route/route.go:509-564 | over any walk in either mode, each of the ten dial settings ends up as the last matching rule that asks for it has it, and as it was when none does |
| `RouteMatch.OriginalDestinationIsTheFirst` | route/route.go:516-520 | over any walk a valid original destination stays; otherwise it becomes the destination in force before the first override that met a valid one, and stays invalid when there is none |
| `RouteMatch.LastOverrideWins` | route/route.go:521-535 | in a pre-match the address and the port of the destination are, independently, those of the last matching rule that overrides them |
| `RouteMatch.FullMatchSelectsFinalRules` | route/route.go:565-606 | the full match never stops at a sniff rule or an empty bypass |
| `RouteMatch.PreMatchIsAPrefix` | route/route.go:485-607 | for TCP and UDP the full match gives the same result as the pre-match or continues exactly where it stopped |
| `RouteMatch.PreMatchAgreesExactlyWhenFinal` | route/route.go:291-349 | the two agree on rule and metadata if and only if the pre-match did not stop at a sniff rule or an empty bypass |
| `SavedBinary.UvarintRoundTrip` | adapter/experimental.go:78-81 | every 64-bit length prefix decodes to itself, whatever follows it |
| `SavedBinary.UvarintPrefixIsTruncated` | adapter/experimental.go:108-111 | a length prefix that is cut short is noticed |
| `SavedBinary.Int64RoundTrip` | adapter/experimental.go:86-89 | the big-endian two's complement of every 64-bit time decodes to it |
| `SavedBinary.BlockRoundTrip` | adapter/experimental.go:78-85 | a length-prefixed block reads back as itself and leaves what follows it |
| `SavedBinary.RoundTrip` | adapter/experimental.go:72-134 | for every content and etag, reading what was written restores content, etag and the update time to the second, even with bytes behind it |
| `SavedBinary.TruncationIsNoticed` | adapter/experimental.go:101-134 | a record cut anywhere is refused |
| `SavedBinary.MarshalIsInjective` | adapter/experimental.go:72-99 | records with the same bytes agree to the second |
| `SavedBinary.ReadIsStorable` | adapter/experimental.go:101-134 | whatever is read can be written again and reads back the same |
| `SavedBinary.Reader.ReadUvarint` | adapter/experimental.go:108-111 | the loop over bytes, with its shift, accumulator and tenth-byte test, computes the recursive decoder and leaves what follows |
| `SavedBinary.Reader.ReadBlock` | adapter/experimental.go:108-116 | a length and that many bytes, or failure |
| `SavedBinary.WriteUvarint` | adapter/experimental.go:78-81 | the loop over groups of seven bits writes the recursive encoding |
| `SavedBinary.Saved.MarshalBinary` | adapter/experimental.go:72-99 | the buffer written is the encoding of the record |
| `SavedBinary.Saved.UnmarshalBinary` | adapter/experimental.go:101-134 | succeeds exactly when the bytes decode, with the decoded record; a failure keeps the fields already read |
| `ConnectionStream.Connections.ApplyEvents` | experimental/libbox/command_types.go:112-173 | the client's map after a message is the replay of its events, less closed entries that are too old |
| `ConnectionStream.Subscription.BuildInitialConnectionState` | daemon/started_service.go:826-852 | the first message and the first snapshots, of every connection |
| `ConnectionStream.Subscription.ApplyConnectionEvent` | daemon/started_service.go:854-892 | one announcement gives at most one event, and the snapshots follow |
| `ConnectionStream.Subscription.UpdateActive` | daemon/started_service.go:899-958 | the pass over the active connections emits and remembers what the specification says |
| `ConnectionStream.Subscription.CloseStale` | daemon/started_service.go:960-987 | exactly the snapshots without an active connection are reported closed, once each, and forgotten |
| `ConnectionStream.Subscription.BuildTrafficUpdates` | daemon/started_service.go:894-990 | a tick as a whole is the specified pass |
| `Replica.VisitEffect` | daemon/started_service.go:900-957 | one connection: the client's entry becomes the expected one, all others are untouched |
| `Replica.VisitAllEffect` | daemon/started_service.go:899-958 | the whole pass: every active connection as expected, all others untouched |
| `Replica.ClosingsEffect` | daemon/started_service.go:960-987 | closing events make exactly their connections inactive |
| `Replica.TickShowsTheManager` | daemon/started_service.go:894-990 | after every tick the client shows exactly the manager's active connections, with the rate since the last tick and the current totals plus an exactly stated drift |
| `Replica.RunKeepsInStep` | daemon/started_service.go:775-817 | over any run of ticks and queue batches, dropped, duplicated or reordered in any way, client and sender agree on what is active |
| `Replica.RunKeepsNoDrift` | daemon/started_service.go:775-817 | with counters that never go back and both loads at one time, no run introduces a drift and no snapshot gets ahead of its counter |
| `Replica.TickResynchronises` | daemon/started_service.go:775-990 | so from any state in step, after every tick of such a run the client mirrors the manager |
| `Replica.EveryTickResynchronises` | daemon/started_service.go:758-817 | the whole life of a subscription, from its first message over any losses in the queue: after every tick the client holds exactly the active connections with their current counters |
| `Replica.TickIsExactWithoutDrift` | daemon/started_service.go:894-990 | without those assumptions: a tick leaves the client exact if and only if no connection drifts, by a condition on the state before it |
| `Replica.DriftLasts` | daemon/started_service.go:775-990 | over any run, the drift of a connection stays what it is for as long as the connection lives and its counters do not go back |
| `Replica.SubscriptionStartsInStep` | daemon/started_service.go:826-852 | the first message puts the client in step but for connections listed as active and closed, entirely if and only if there is none, and without drift when its loads were atomic |
| `Replica.LoadsApart` | daemon/started_service.go:860-868 | an announcement whose two loads lie apart leaves the client five bytes ahead |
| `Replica.LoadsApartDriftForGood` | daemon/started_service.go:860-868 | the atomicity assumption is needed: traffic between the two loads of a new connection stays in excess over every later run in which it lives |
| `ServiceLifecycle.ActKeepsLocked` | daemon/started_service.go:128-262 | every step of every call keeps the lock discipline |
| `ServiceLifecycle.LocksAreBalanced` | daemon/started_service.go:182-262 | with any number of concurrent reloads, closes, errors and readers: each call holds the lock only where its code says so, has released it once per acquisition, and while no writer is inside STARTING or STARTED means there is an instance |
| `ServiceLifecycle.FinishedCallsHoldNothing` | daemon/started_service.go:376-384 | a finished call holds no lock, and no reader that checked the status ever found a nil instance |
| `ServiceLifecycle.NoDeadlock` | daemon/started_service.go:128-262 | while some call is unfinished, some call can take a step |
| `ServiceLifecycle.ActKeepsTidy` | daemon/started_service.go:182-262 | with one reload at a time, every step keeps the account of instances |
| `ServiceLifecycle.SerialReloadsStayTidy` | daemon/started_service.go:182-262 | with reloads one at a time and any closes and errors between: every instance created is current, closed, or about to be closed by the lock holder, and STARTED means the current instance's Start succeeded |
| `ServiceLifecycle.OnlyTheCurrentInstanceIsOpen` | daemon/started_service.go:182-262 | with the lock free, every instance but the current one has had Close called |
| `ServiceLifecycle.StepStaysHonestExactly` | daemon/started_service.go:211-221 | with reloads overlapping in any way, a step makes STARTED inaccurate if and only if a reload takes a STARTING for its own while the current instance, which is another one, has not started |
| `ServiceLifecycle.StepAccountsExactly` | daemon/started_service.go:198-203 | a step loses sight of an instance if and only if a new one takes the place of one that nobody closed |
| `ServiceLifecycle.OverlapsExactly` | daemon/started_service.go:182-262 | for every run with any overlaps: STARTED is accurate throughout, and no instance is lost, if and only if no step of it does the one or the other |
| `ServiceLifecycle.SerialRunsDoNeither` | daemon/started_service.go:182-262 | with one reload at a time neither happens |
| `ServiceLifecycle.OverlappingReloadsMisreport` | daemon/started_service.go:211-221 | the one-at-a-time condition is needed: two overlapping reloads reach STARTED with an instance that has not started |
| `ServiceLifecycle.OverlappingReloadsLoseAnInstance` | daemon/started_service.go:190-203 | two overlapping reloads with an error between them lose an instance |
| `DnsMessage.ExtractNegativeTtl` | dns/client.go:113-125 | the first SOA record decides: the lesser of its TTL and its minimum |
| `DnsMessage.ScanIsLeast` | dns/client.go:133-145 | the scan yields the least positive TTL of the records that are not OPT, or 0 if there is none |
| `DnsMessage.TimeToLiveExact` | dns/client.go:127-145 | both directions: the lifetime is the negative one of section 5 of RFC 2308 for an answerless response with an SOA record, and else exactly the least positive TTL |
| `DnsMessage.RecomputeExact` | dns/client.go:147-156 | computing the lifetime again after setting every TTL to t gives t if and only if some record can carry it and the negative lifetime does not cap it |
| `DnsMessage.LifetimeIsStable` | dns/client.go:466-489 | without a rewrite, computing the lifetime again after normalising gives the same value |
| `DnsMessage.HintsDoNotMatter` | dns/client.go:467-481 | filtering address hints does not change the lifetime |
| `DnsMessage.ServedIsSameAnswer` | dns/client.go:466-489 | what is stored, and what is served from it, is the upstream answer up to TTLs and address hints |
| `DnsMessage.FittedSuitsTheRequest` | dns/client.go:250-260 | the response handed out speaks EDNS exactly when both sides do, and no version beyond the request's |
| `DnsMessage.FittedKeepsTheAnswer` | dns/client.go:250-260 | that leaves all other records and the lifetime untouched |
| `DnsMessage.NormaliseSection` | dns/client.go:147-156 | the loop sets exactly the TTLs of the records that are not OPT |
| `DnsMessage.FilterSection` | dns/client.go:467-481 | the loop removes exactly the forbidden hints of HTTPS records |
| `DnsMessage.Message.ComputeTimeToLive` | dns/client.go:127-145 | the loops over the three sections compute the specified lifetime |
| `DnsMessage.Message.NormaliseTtl` | dns/client.go:147-156 | the message in place, with every lifetime set |
| `DnsMessage.Message.ApplyResponseOptions` | dns/client.go:466-489 | the lifetime returned and the message in place are the specified ones |
| `DnsMessage.Message.FitEdns` | dns/client.go:250-260 | the OPT records in place: found from the end, filtered, replaced |
| `DnsCache.ServedTracesBack` | dns/client.go:399-435 | any answer served from an entry is, up to TTLs and hints, an earlier NOERROR or NXDOMAIN response to the same question over the same transport |
| `DnsCache.ServedTtlShrinks` | dns/client.go:426-434 | served later than stored, an answer claims no more than the lifetime it came with |
| `DnsCache.Client.constructor` | dns/client.go:63-87 | an empty cache with the configuration asked for is valid |
| `DnsCache.Client.StoreCache` | dns/client.go:328-349 | a copy is stored under question and transport, to expire after its lifetime; one without lifetime is not |
| `DnsCache.Client.LoadResponse` | dns/client.go:399-435 | exactly when an entry is served fresh, stale or removed; a fresh answer has now + TTL <= expiry if and only if the seconds left do not round up, which takes 194 days, a stale one is inside the window with TTL 1, both trace back to an upstream answer, and the entry itself is not touched |
| `DnsCache.ShortDurationsDoNotRoundUp` | dns/client.go:428-431 | the seconds left of an entry, summed as a float64 and cut off, are exact below 2^24 seconds |
| `DnsCache.RoundingIsSmall` | dns/client.go:428-431 | and off by less than a microsecond for any lifetime |
| `DnsCache.LongDurationsCanRoundUp` | dns/client.go:428-431 | and they are off: a duration that counts as one second more |
| `DnsCache.ServedPastExpiry` | dns/client.go:399-435 | a client on which an answer is served with a TTL that outlasts its entry |
| `DnsCache.Client.Accept` | dns/client.go:229-248 | an upstream response is rejected, or rewritten and stored, exactly under the stated conditions; every entry stays traceable |
| `DnsCache.Client.Refresh` | dns/client.go:500-524 | a background response enters the cache exactly under the stated conditions; every entry stays traceable |
| `DnsCache.Client.ClearCache` | dns/client.go:308-318 | nothing is left |
| `DnsCache.Client.Exchange` | dns/client.go:158-262 | one query: which of strategy, cache and upstream answers it, exactly when, and what the cache holds afterwards; a fresh entry is never asked for again, a stale one only in the background; the answer has the query's id and suits its EDNS version, while the stored copy keeps its own |
| `DnsCache.Client.ExchangeTwice` | dns/client.go:158-262 | the same query within the lifetime of an answer that was kept comes from the cache, and upstream is asked once |
| `DnsCache.Client.ExchangeMessage` | dns/client.go:158-164 | a message without a question gets a format error and changes nothing; any other is a query |
| `SingleFlight.ActKeepsOk` | dns/client.go:183-211 | every step of every query and refresh keeps the lock-map invariant |
| `SingleFlight.RunsAreOk` | dns/client.go:183-211 | the invariant holds in every interleaving |
| `SingleFlight.OneHolderOneRefresh` | dns/client.go:185-197 | in every interleaving at most one query holds the lock entry and at most one background refresh is in flight |
| `SingleFlight.ChannelsCloseOnce` | dns/client.go:192-196 | no channel is closed twice, and it is closed exactly once its query is done |
| `SingleFlight.WaitersAreServed` | dns/client.go:186-191 | every waiter's channel is closed already or belongs to a live query that will close it |
| `SingleFlight.WaitersNeverStick` | dns/client.go:186-196 | a waiting query can go on, or the one it waits for can |
| `SingleFlight.WakingToFreshAsksNobody` | dns/client.go:198-211 | a query that wakes to a fresh entry makes no upstream query, whatever happens after |

## Left out

- Rule items and their matching, sniffers, outbound protocols and DNS transports: taken as functions that the theorems quantify over.
- Configuration parsing and JSON; an action or rule type outside the known ones is one constructor of the rule datatype.
- `Match` as a function of rule and response: a rule whose outcome changes between two matchings of one query is not modelled.
- The persistent DNS cache and the rejected-domain cache: external stores; the rejection they cause is the `refused` argument of the model.
- DnsCache.Client.Exchange: the query is one step; its concurrency is the subject of `SingleFlight`.
- DnsCache.Client.LoadResponse: the order in which the LRU evicts is an arbitrary removal, and its expiry is kept to the nanosecond.
- DnsMessage.Message.Copy: records are values held in sequences, so sharing of record pointers between two messages is not modelled.
- DnsRouter.Router.LookupWithRules: the two families have query histories of their own instead of interleaving in a task group, and the two errors of a failed lookup are one outcome.
- DnsRouter.Router.Lookup: the guarantee about fakeip is given for the transport table the rules were built with and a default that is real, which `DnsService.Resolve` takes from the manager.
- DialRace.DialSerial: dialers with a parallel dialling method of their own are not modelled; they go to code outside the repository's model.
- SavedBinary.Saved.MarshalBinary: contents shorter than 2^64 bytes; running out of memory on a huge length prefix is not modelled.
- ConnectionStream.Subscription.BuildTrafficUpdates: counters are unbounded integers, so wrap-around of int64 totals is not modelled; the chain, rule and process fields of a connection are not either.
- OutboundManager.Manager.Start: endpoints enter as items of the start graph; the endpoint manager itself is not part of this model.
- DnsMessage.Message.FitEdns: the OPT record a request gets in exchange has version 0, as the DNS library makes it; that library is not part of this model.
- Replica.EveryTickResynchronises: the steps of one batch or tick read the counters at one time; readings apart are the subject of `Replica.TickIsExactWithoutDrift`.
- StartOrder.Diagnose: that a search without a hit yields a nil item is the convention of the common library, which is not part of this model.
- StartOrder.StartAll: one model for the start loops of outbounds and of DNS servers, which differ in the items and in the lookup table they are given.
- The packet and stream buffers collected while sniffing, and the order they are handed on.
- Aliasing of the slices the managers return, and `Close` of either manager.
- ServiceLifecycle.LocksAreBalanced: of the readers, the two forms of status check under the lock; calls that read the instance without such a check are not modelled.
- Logging, metrics, garbage collection hints and notification of status subscribers.
