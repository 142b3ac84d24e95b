# A verified model of go-hamqtt

go-hamqtt publishes Home Assistant discovery documents, states and availability over MQTT, and
takes commands back. This project models the parts of it that keep state about a broker they
cannot see, and proves what they promise over every run: the command router, the discovery
runtime, document containment and removal, the dedup gates and the status memory. Around them it
models the topic grammar those parts read and write, and the rule-overlay engine.

Operations that update state are classes and methods with loops, each proved equal to a function
on values; the runs are folds of those functions, or transition systems where goroutines, the
broker and lost connections interleave. A broker is the fold of the sends of each connection, of
which a reconnect may lose any tail. Where a method is proved equal to such a function its contract
also says, without the function, what the caller is promised.

| file | what it models |
|---|---|
| Text, Filters, FilterSyntax, Specificity | topic levels, filter matching, structural overlap, validation, the specificity order |
| Routing, CommandRouter, RouterSystem | registration, resolution, subscription order, the router object, every run of it against a broker |
| Identifiers | the one counter all routers of a process draw their subscription identifiers from |
| CommandPool, EndToEnd | the hash-sharded worker queues under every interleaving, and the router with its pools, from a published message to a handler that has returned |
| Wire, Thinning, Runtime, RuntimeRuns | a transport with failures and reconnects, logs that differ in idle sends, the discovery runtime, its runs and memos |
| RuntimeMirror, RetractFirst, FormsLeft | what the broker holds, one discovery form at a time, and exactly when a replay or a reconnect leaves both |
| Observed, Ungated | the runtime that supersedes by snapshot against the one that retracts blindly, and the runtime with its gates against one without |
| Sweep, KeptTopics, SweepSystem | the orphan pass, its keep counts, and the pass beside concurrent publishes |
| Documents, Inspection, Bundles | documents and their findings, removal for good |
| KeySpelling, Containment, Acceptance | how a stripped key is spelled and read back, withholding and stripping, and what they achieve under any lawful judge |
| CatalogueRules, StrippingExamples, WithheldCycles | the catalogue as a lawful judge, what stripping can cost, and whole sequences of publish cycles |
| Conformity | what makes a document wrong, said over the document and the tables alone, and what is published of it |
| DedupGate, StatusMemory, StatusGate, StatePlane | the state and availability planes against ungated publishers, the value memory, and both together |
| Overlays | rule tables on entity descriptions |
| ConfigTopics, SmartHome | discovery config topics and the smart-home topic grammar |

Some promises turn out to hold only under a condition. Where the code and its comments differ the
model follows the code, and a lemma gives the condition or a concrete run:

- `filtersOverlap` ignores the `$` rule that `captureFilter` enforces (`Filters.OverlapIgnoresDollarRule`);
  overlap is exact apart from that (`Filters.OverlapIsExact`).
- "More specific" is "claims strictly fewer topics" with one exception, `+/#` against `#`
  (`Specificity.SameTopicsPairClaimsTheSame`).
- A shared filter that wraps another shared filter is accepted and not read as that filter
  (`FilterSyntax.SharedActsAsWrapped`, `FilterSyntax.SharedTwiceIsReadLiterally`).
- A message is run exactly when its winner is subscribed as it arrives
  (`RouterSystem.HandledIffWinnerIsLive`). One published while a rollback has taken the winner down
  is run by nobody (`RouterSystem.OutrankedAloneIsLost`), and there are such moments
  (`RouterSystem.RollbackLosesAMessage`).
- The discovery gate changes nothing over any run in which the same bytes on a topic always
  supersede the same topics (`Ungated.GateIsTransparent`). A document it spares skips its
  retractions too, with the exact condition for that to show (`Ungated.SparedDocumentAgreesIff`)
  and a run in which it does (`Ungated.GateSkipsARound`); and it trusts the last acknowledged bytes,
  so after a write whose acknowledgement is lost exactly those bytes cannot be put back
  (`Ungated.GateTrustsALostAck`).
- The status gate renews no time. Otherwise it changes nothing, if observation times never go back and no raw
  write passes for a status object (`StatusGate.StatusGateIsTransparent`), each with the exact input
  where it does (`StatusGate.SparedAgreesIff`, `StatusGate.RawWriteAgreesIff`).
- A publish does not take its topic out of the superseded set, a document can straddle a
  reconnect, and a replay retracts nothing: three runs that leave both discovery forms retained
  (`RetractFirst.ThereAndBackKeepsBoth`, `StraddlingKeepsBoth`, `ReplayKeepsBoth`). Each has its exact
  condition: a document on one connection (`RuntimeMirror.AloneUnlessRepublished`), one that a
  reconnect cuts into at any point (`FormsLeft.StraddledDocumentIsAloneIff`), and a replay
  (`FormsLeft.ReplayLeavesAloneIff`, `ReplayKeepsOneFormIff`). What orderly runs ask of a replay and of
  a plain publish is no more than that needs (`FormsLeft.ReplayClauseIsExact`, `PlainClauseIsExact`).
- Superseding by snapshot misses a retained legacy topic that does not parse as a config topic
  (`Observed.FirstDocumentAgreesIff`), and it never asks the broker to clear what it sees empty, so a
  refusal of that goes unnoticed (`Observed.RefusedRetractionAgreesIff`).
- Stripping can give an accepted component an error, in ways that can be listed exactly
  (`CatalogueRules.StrippingSpoilsExactly`): a sensor loses the `total` its last-reset template needs
  (`StrippingExamples.StrippingCanSpoil`), the `enum` its options need
  (`StrippingExamples.EnumCanBeLost`), a unit, a required state class, or a number its bound. Containing
  such a document again withholds the component; otherwise it changes nothing
  (`Acceptance.SecondPassStripped`, `StrippingExamples.SecondPassWithholdsTheMeter`).
- Stripping goes by a key's spelling, so an unknown key spelled `availability[0].topic` costs an
  entry its topic and stays where it is (`KeySpelling.PlainReadsBack`,
  `StrippingExamples.TopicCanBeLost`).
- A tag whose other keys are all unknown is stripped to a removal marker
  (`Acceptance.TombstonesExactly`, `StrippingExamples.TagCanBeEmptied`).
- A first publish the broker took without acknowledging it is cleared by a later sweep only if the
  sweep goes by an ownership rule (`SweepSystem.RefusedFirstPublish`).
- `Rules.Enrich` decides every match before any overlay, unlike its comment on units
  (`Overlays.ConditionsAreReadFirst`); asking each rule at its turn runs the same rules exactly when no
  verdict has changed by then (`Overlays.SameRulesRunIff`, `Overlays.InterleavedAgrees`).

## Model

| member | source | states |
|---|---|---|
| Filters.CaptureRebuildsTopic | publisher/command.go:1540-1576 | the captured wildcards and the remainder put back into a matching filter rebuild the topic |
| Filters.CaptureFilter | publisher/command.go:1540-1576 | matches exactly when the filter matches under the `$` rule, returning what each `+` and the trailing `#` took |
| Filters.FiltersOverlap | publisher/command.go:1586-1602 | the level-by-level loop decides structural overlap, either filter running out first included |
| Filters.OverlapIsExact | publisher/command.go:1586-1602 | some topic matches both valid filters if and only if they overlap and no leading wildcard meets a `$` literal |
| Filters.OverlapIgnoresDollarRule | publisher/command.go:1540-1602 | a pair reported as overlapping although the `$` rule leaves it no common topic |
| Specificity.BoundedDominance | publisher/command.go:1334-1387 | comparing up to the longer filter decides dominance over all levels |
| Specificity.CompareSpecificity | publisher/command.go:1365-1387 | returns +1, -1, 0 or incomparable exactly as one filter dominates the other, both or neither do |
| Specificity.OutranksIsStrictOrder | publisher/command.go:1365-1387 | outranking is asymmetric and transitive |
| Specificity.SpecificityScore | publisher/command.go:1302-1311 | the loop adds up the ranks of exactly the first `width` levels |
| Specificity.ScoreExtendsOrder | publisher/command.go:1305-1311 | the specificity score strictly increases along outranking, for every sufficient width |
| Specificity.OutranksIsStrictlyNarrower | publisher/command.go:1313-1387 | overlapping filters outrank exactly when their topics are a proper subset, save the one listed pair |
| Specificity.SameTopicsPairClaimsTheSame | publisher/command.go:1334-1387 | `+/#` and `#` match the same topics and one still outranks the other |
| FilterSyntax.ValidateFilter | publisher/command.go:1462-1490 | accepts exactly the well-formed filters: length in bytes, UTF-8, NUL, shared prefix and wildcard placement |
| FilterSyntax.ValidateFilterLevels | publisher/command.go:1495-1508 | no error exactly when every wildcard fills its level and `#` is last |
| FilterSyntax.SharedActsAsWrapped | publisher/command.go:1401-1426 | a shared filter has its wrapped filter's levels if and only if that filter is not itself shared |
| FilterSyntax.SharedTwiceIsReadLiterally | publisher/command.go:1401-1490 | a group within a group is accepted, and misses the topic the wrapped filter matches |
| FilterSyntax.SharedMatchesAsWrapped | publisher/command.go:1421-1426 | a group's filter matches exactly the topics its wrapped filter matches |
| Routing.WinnerIsUnique | publisher/command.go:1203-1228 | at most one route wins a topic |
| Routing.WinnerExists | publisher/command.go:1203-1228 | on an accepted route set every claimed topic has a winner |
| Routing.WinnerIgnoresOrder | publisher/command.go:1203-1228 | the winner does not depend on the order of registration |
| Routing.Resolve | publisher/command.go:1203-1228 | the tournament over matching routes returns the unique maximum, with its captures, or none when no route matches |
| Routing.SubscribeOrderIsMostSpecificFirst | publisher/command.go:1274-1294 | no route is subscribed before one that outranks it |
| Routing.SortIsStable | publisher/command.go:1274-1294 | routes of equal score keep their registration order |
| CommandRouting.Counter.Allocate | publisher/command.go:286-296 | identifiers are non-zero, strictly increasing and refused once exhausted |
| CommandRouting.CheckAgainst | publisher/command.go:664-702 | no offence exactly when every route admits the filter; otherwise the offence is a duplicate, an overlap that cannot be attributed, or one that neither side wins |
| CommandRouting.RegistrationKeepsAccepted | publisher/command.go:664-702 | an admitted filter keeps every overlap attributable and strictly ordered |
| CommandRouting.CommandRouter.RouteSubs | publisher/command.go:1274-1294 | scores every route once over a width beyond the longest and returns the stable most-specific-first order |
| CommandRouting.OrderHoldsRoutes | publisher/command.go:1274-1294 | the subscription order holds each route, each filter once |
| CommandRouting.CommandRouter.Handle | publisher/command.go:653-702 | registers exactly the well-formed filters that come with a handler before Start, repeat no route, and overlap only where the client attributes and one side outranks the other; turns attribution on at the first overlap; names the reason and changes nothing otherwise |
| CommandRouting.CommandRouter.AssignIds | publisher/command.go:1067-1083 | keeps identifiers already given, adds fresh distinct ones, and fails only when they run out |
| CommandRouting.TakeIdsKeeps | publisher/command.go:1067-1083 | drawing identifiers route by route changes nothing but missing ones, each given a number beyond the counter and no other route's |
| Identifiers.NeverReused | publisher/command.go:280-296 | over any interleaving of routers drawing from the one counter, an identifier once given stays its route's and is never any other's |
| Identifiers.StartDraws | publisher/command.go:1067-1083 | a router's start draws exactly such a run of allocations |
| CommandRouting.CommandRouter.Start | publisher/command.go:795-849 | the requests go out most specific first and, counted from nothing live, no route is ever granted before all that outrank it; then every route is live under its identifier, or what was granted is taken down again and the router closed for good when the broker kept some of it |
| CommandRouting.CommandRouter.Launch | publisher/command.go:816-849 | with the gate open before the first subscribe, every route is asked for in the computed order: everything live, or the pool gone and only refused leftovers live |
| CommandRouting.WentUpOrDown | publisher/command.go:795-849 | requests made in the computed order, up to a first refusal and back, are most specific first with no route live before all that outrank it |
| CommandRouting.InTurnIsMostSpecificFirst | publisher/command.go:1274-1294 | asking in the computed order, no request goes out before one whose filter outranks its own |
| CommandRouting.FirstRoutesAreClosed | publisher/command.go:1274-1294 | any first routes of the computed order hold all that outrank them |
| RouterSystem.StartHoldsWinners | publisher/command.go:795-849 | after any first requests of a start from nothing live, a topic with a live route has its winner live |
| CommandRouting.CommandRouter.Rollback | publisher/command.go:853-862 | asks for each granted route to be taken down, in turn, and reports exactly what stayed |
| CommandRouting.CommandRouter.Resubscribe | publisher/command.go:883-902 | asks again for every route, most specific first and under its identifier, reporting exactly the refusals |
| CommandRouting.CommandRouter.Stop | publisher/command.go:924-954 | closes the gate, asks for every route to be taken down, closes every queue without losing its jobs, once |
| CommandRouting.CommandRouter.UnsubscribeAll | publisher/command.go:938-948 | only refused filters stay live and no other subscription changes |
| CommandRouting.CommandRouter.Judge | publisher/command.go:1133-1165 | with the message's winner: superseded exactly when the router attributes and the copy is another route's, a retained drop exactly for a retained copy not asked for, and otherwise a command with the winner's filter whose captures refill that filter to the topic |
| CommandRouting.CommandRouter.Deliver | publisher/command.go:1126-1182 | the same under the gate, and an enqueued command goes to its topic's queue and no other; any other outcome changes no queue |
| Filters.FilledMatches | publisher/command.go:1540-1576 | levels filled into a filter in place of its wildcards are levels it matches |
| Routing.OnlyWinner | publisher/command.go:1203-1228 | whatever wins a topic is the one route the resolution returned |
| CommandRouting.CommandRouter.CheckDisjoint | publisher/command.go:1030-1046 | reports exactly the pairs of a published topic and a route that claims it |
| RouterSystem.ConfigOfIsConfigured | publisher/command.go:1274-1294 | the order the router computes meets what the run proofs assume of it |
| RouterSystem.AtMostOneHandler | publisher/command.go:1126-1182 | in every reachable state, rollback included, a message has caused at most one handler run, the winner's |
| RouterSystem.ExactlyOneHandlerIff | publisher/command.go:1126-1182 | a message whose copies are settled has run its winner's handler exactly when the winner was forwarded a copy |
| RouterSystem.WinnerIsLiveDuringSubscribe | publisher/command.go:795-849 | at every moment of a clean subscribe loop the winner is live whenever any matching route is |
| RouterSystem.ExactlyOneHandler | publisher/command.go:1126-1182 | over every continuation of such a run the message runs exactly one handler |
| RouterSystem.HandledIffWinnerIsLive | publisher/command.go:1126-1182 | over every continuation, a fully forwarded message that is settled and not lost has run one handler if and only if its winner was subscribed as it arrived, and then the winner's |
| RouterSystem.OutrankedAloneIsLost | publisher/command.go:853-862 | over every continuation, a message published while its winner is not subscribed is run by no handler |
| RouterSystem.RollbackLeavesTheMiddle | publisher/command.go:795-862 | for any three nested routes a reachable rollback leaves only the middle one subscribed |
| RouterSystem.RollbackLosesAMessage | publisher/command.go:795-862 | a message for the narrowest is then forwarded and never run |
| RouterSystem.NestedRoutesExist | publisher/command.go:1334-1387 | `a/b`, `a/#` and `#` are three such routes |
| RouterSystem.LifeCycle | publisher/command.go:795-954 | in every run the pool exists exactly between Start and Stop, and a startable router has nothing live |
| RouterSystem.StoppedIsForGood | publisher/command.go:924-954 | a stopped router runs no further handler |
| CommandPool.CommandQueue.Push | publisher/command_pool.go:57-66 | appends to an open queue and refuses on a closed one |
| CommandPool.CommandQueue.Pop | publisher/command_pool.go:70-83 | takes the oldest job, and reports the end only when closed and empty |
| CommandPool.WorkerPool.Enqueue | publisher/command_pool.go:128-139 | appends to the key's queue and to no other |
| CommandPool.NothingLostNothingReordered | publisher/command_pool.go:57-182 | over every interleaving, done, running and queued commands of a topic are its accepted ones in order, and none meets a closed queue |
| CommandPool.CloseDrains | publisher/command_pool.go:144-152 | once every worker has returned each accepted command has run exactly once |
| EndToEnd.ExecutedAtMostOnce | publisher/command_pool.go:111-172 | at every moment of a run of the router with its pools, restarts and rollbacks included, no message has been executed twice, and only by its winner's handler |
| EndToEnd.ExecutedExactlyOnce | publisher/command_pool.go:111-172 | once nothing is in flight, queued or running, a message whose winner was forwarded a copy that was not lost has been executed exactly once |
| EndToEnd.DeliverCopy | publisher/command.go:1126-1182 | the router object given one copy enqueues exactly when the model of the runs runs a handler, and a command for that very run |
| EndToEnd.DeliveredIsTheStep | publisher/command.go:1126-1182 | an answer with the stated effects is the step the model takes on that copy |
| CommandPool.NothingAcceptedAfterStop | publisher/command.go:1126-1182 | nothing is accepted after the gate is set |
| EndToEnd.ReturnedIsDrained | publisher/command_pool.go:144-172 | once all workers of a pool have returned, nothing it accepted is left to run |
| ConfigTopics.PrintParse | publisher/topic.go:48-132 | parsing a rendered config topic returns what was rendered, for all three forms and any prefix |
| ConfigTopics.ParsePrint | publisher/topic.go:97-132 | rendering what was parsed returns the topic |
| ConfigTopics.RenderInjective | publisher/topic.go:48-57 | no topic has two names |
| ConfigTopics.PrefixSpellings | publisher/topic.go:127-132 | a trailing slash and the default prefix address the same tree |
| ConfigTopics.ParsersAgree | internal/dump/dump.go:138-154 | the parser accepts exactly what the dump parser does minus empty segments, with equal fields |
| ConfigTopics.FormsRead | publisher/topic.go:97-132 | the three forms as they are spelled, and what each is read as |
| Runtime.DiscoveryRuntime.PublishConfig | publisher/publisher.go:508-566 | sends nothing exactly for an empty topic, for bytes this connection last took, or for a retraction of what is not declared; a taken write is declared, claimed and gated, a refused one gives its claim up |
| Runtime.DiscoveryRuntime.CheckConnection | publisher/publisher.go:1014-1048 | a changed connection drops what was superseded and observed and opens every gate, the first sighting changes nothing; payloads, claims and kept topics stay |
| Runtime.DiscoveryRuntime.ResetMemos | publisher/publisher.go:976-985 | opens the gates, keeps payloads and claims, drops what was superseded and observed |
| Runtime.DiscoveryRuntime.LookAtRetained | publisher/publisher.go:832-902 | asks the broker only if superseding by snapshot is on, some topic is pending and this connection has not been looked at; a failed look is not remembered |
| Runtime.DiscoveryRuntime.SupersedeForm | publisher/publisher.go:790-822 | on success every topic is settled for this connection, settled ones cost no message, and nothing but pending topics of the list is undeclared |
| Runtime.DiscoveryRuntime.KeepTopics | publisher/publisher.go:676-693 | a document keeps exactly the topics of its last publish, none if that list is empty |
| Runtime.DiscoveryRuntime.PublishDocument | publisher/publisher.go:614-649 | keeps the withheld topics whatever happens next, sends nothing exactly for bytes this connection last took, and a written document is declared and claimed |
| Runtime.DiscoveryRuntime.PublishEntity | publisher/publisher.go:749-778 | the rollback direction: sends nothing exactly for bytes this connection last took, and a written config is declared and claimed |
| Runtime.DiscoveryRuntime.RetractConfigs | publisher/publisher.go:915-933 | goes through the list whatever fails; exactly what the broker took is no longer declared or announced, and no other topic changes |
| Runtime.DiscoveryRuntime.RepublishConfigs | publisher/publisher.go:1062-1091 | re-sends cached payloads past the gate and, unless the connection is lost, returns how many were not refused |
| Runtime.SupersedeStops | publisher/publisher.go:796-820 | after the first failed retraction no later topic changes anything |
| Runtime.SupersedeEffects | publisher/publisher.go:790-822 | superseding settles its topics and undeclares none but pending ones of its list; all settled, it does nothing |
| Runtime.DocumentEffects | publisher/publisher.go:614-649 | a document's publish is spared exactly for the bytes this connection last took and keeps exactly its withheld topics |
| Runtime.EntityEffects | publisher/publisher.go:749-778 | the same of an entity's config, which keeps nothing |
| RuntimeRuns.MemosAreOfThisConnection | publisher/publisher.go:1014-1048 | in every run, reconnects anywhere, each superseded topic, gated payload and snapshot is backed by this connection |
| RuntimeRuns.SuppressedWasSentHere | publisher/publisher.go:508-649 | a publish reported unchanged was sent, byte for byte, on the connection that is up |
| RuntimeRuns.RetractionsAreOfThisConnection | publisher/publisher.go:614-649 | a document written on one connection follows a retraction of each topic it supersedes, or a snapshot without it |
| RuntimeMirror.SuppressedIsHeld | publisher/publisher.go:508-566 | with refused sends not applied, a suppressed config is one the broker holds with those bytes |
| Ungated.GateIsTransparent | publisher/publisher.go:508-778 | over any run of the runtime's calls, with refusals per call and reconnects that lose any tail, the runtime without gates ends with the same broker and the same memory |
| Ungated.PublishGateIsTransparent | publisher/publisher.go:508-566 | over any run without documents the same holds with no condition on what is published |
| Ungated.SparedDocumentAgreesIff | publisher/publisher.go:629-648 | a spared document leaves the broker as a sent one would if and only if each topic it supersedes is settled on this connection or not retained |
| Ungated.GateSkipsARound | publisher/publisher.go:629-648 | bytes published plainly first, then as a document: the other form stays retained |
| Ungated.GateTrustsALostAck | publisher/publisher.go:526-551 | after a write that was applied but not acknowledged the next write lands if and only if it is not the bytes acknowledged before it; without the gate it always lands |
| RuntimeMirror.ReplayRestores | publisher/publisher.go:1062-1091 | a successful replay to an empty broker restores exactly the declared payloads |
| RuntimeMirror.AloneUnlessRepublished | publisher/publisher.go:614-649 | a written document is alone on the broker if and only if none of its topics is superseded and declared again |
| RetractFirst.NeverBothForms | publisher/publisher.go:614-822 | over orderly runs, every broker state that any lost tail can leave holds no document beside a topic it supersedes |
| RetractFirst.ThereAndBackKeepsBoth | publisher/publisher.go:552-564 | document, entity, document on one connection leaves both forms |
| RetractFirst.StraddlingKeepsBoth | publisher/publisher.go:645-648 | a reconnect between retraction and document leaves both forms |
| RetractFirst.ReplayKeepsBoth | publisher/publisher.go:1062-1091 | a replay after a lost retraction leaves both forms |
| FormsLeft.ReplayLeavesAloneIff | publisher/publisher.go:1062-1091 | after a replay a document is alone if and only if nothing it supersedes was retained before or went out again |
| FormsLeft.ReplayKeepsOneFormIff | publisher/publisher.go:1062-1091 | a replay keeps one form at a time if and only if what it sends and what is retained supersede nothing of each other |
| FormsLeft.ReplayClauseIsExact | publisher/publisher.go:1062-1091 | by the memo alone: no broker content and no refusals can end with both forms if and only if this connection has superseded all that the replayed topics could stand beside |
| FormsLeft.PlainClauseIsExact | publisher/publisher.go:508-566 | the same for a per-entity config published plainly |
| FormsLeft.RoundSends | publisher/publisher.go:790-822 | wherever the connection drops, a round sends one retraction for each topic neither settled nor known to be empty |
| FormsLeft.StraddledDocumentIsAloneIff | publisher/publisher.go:614-822 | a document with a reconnect among its sends ends alone if and only if each topic the lost tail leaves retained is retracted again on the new connection |
| FormsLeft.CutOffDocumentIsAloneIff | publisher/publisher.go:645-648 | cut off after its last retraction, if and only if the lost tail leaves none |
| Thinning.ThinnedHoldsTheSame | publisher/publisher.go:508-822 | leaving out sends that were idle when made changes no retained state |
| Thinning.ThinnedPrefix | publisher/publisher.go:508-822 | nor any state that a lost tail can leave |
| Observed.ObservedRefinesBlind | publisher/publisher.go:790-902 | over any run, refusals and lost tails included, superseding by snapshot reaches the blind run's broker state and memos with a subset of its messages |
| Observed.FirstDocumentAgreesIff | publisher/publisher.go:798-807 | the two ways agree exactly when every retained superseded topic is one the snapshot can see |
| Observed.RefusedRetractionAgreesIff | publisher/publisher.go:790-822 | with the one retraction refused, the two ways agree exactly when the snapshot shows the topic retained or the document changes nothing |
| Sweep.SweepPass.Deliver | publisher/sweep.go:267-291 | while the window is open, a topic that parses as a config topic the caller's rules accept is collected, and is a candidate if it is not declared, announced or kept |
| Sweep.SweepPass.ClearOrphans | publisher/sweep.go:319-354 | clears candidates alone, and without lost connections exactly those still undeclared, unannounced, unkept and not refused; a reporting pass sends nothing |
| Sweep.SweepPass.ClearOne | publisher/sweep.go:331-354 | a turn retracts its topic if nobody claims it by then, and else does nothing |
| Sweep.Sweep | publisher/sweep.go:237-354 | a pass without a rule is refused; otherwise owned are the heard topics the caller's rules accept, unclaimed those among them not declared, announced or kept, and retracted those of them the broker did not refuse, or none when reporting |
| Sweep.SweepClearsOnlyUnclaimed | publisher/sweep.go:331-354 | what is cleared is a selection of the candidates, none of them claimed |
| KeptTopics.CountsAreKeepers | publisher/publisher.go:676-693 | in every run each keep count is the number of documents keeping that topic, and none is zero |
| KeptTopics.KeptIsLastWithheld | publisher/publisher.go:614-693 | in every run a document keeps a topic if and only if the last publish of that document withheld it |
| KeptTopics.CountedIffLastWithheld | publisher/publisher.go:676-693 | so a topic is counted exactly when the last publish of some document withheld it |
| KeptTopics.WithheldIsSpared | publisher/sweep.go:331-399 | right after a document's publish, written or not, a pass clears none of the topics it withheld |
| SweepSystem.OwnIsAlwaysClaimed | publisher/sweep.go:394-399 | beside concurrent publishes, a retained value of this process that it did not give up is always claimed |
| SweepSystem.SweptWasOrphaned | publisher/sweep.go:331-354 | the loop sends a retraction exactly for an orphan that parses as a config topic the caller's rules accept, and clears no live config |
| SweepSystem.QuietPassClearsExactly | publisher/sweep.go:225-354 | a pass nothing cuts into clears exactly the retained, unclaimed topics it heard that parse as config topics the caller's rules accept, and forgets nothing |
| SweepSystem.RefusedFirstPublish | publisher/sweep.go:331-399 | a first publish applied but refused leaves an unclaimed value, which a later pass clears if and only if it goes by a rule that owns it |
| SweepSystem.ResultListsNest | publisher/sweep.go:267-306 | retracted within unclaimed within owned, each a config topic accepted by every stated rule, none retracted when reporting |
| SweepSystem.BothRulesNarrow | publisher/sweep.go:366-374 | a pass with both rules clears a topic exactly when a pass with each of them alone would clear it |
| SweepSystem.ClaimedIsPublished | publisher/sweep.go:377-388 | a topic counts as published by this process exactly when one of its publishes was acknowledged |
| Documents.SortedKeys | discovery/bundle.go:376-383 | the keys in strictly ascending order, each once |
| Inspection.InspectDocument | discovery/inspect.go:351-391 | the walk's findings are exactly the frame's and each component's, duplicates judged against earlier keys |
| Inspection.InspectGiven | discovery/inspect.go:351-363 | no bundle, or an unreadable catalogue, is one document error and the only finding |
| Inspection.Inspector.JudgeComponent | discovery/inspect.go:513-591 | appends one component's findings and remembers its identity if new |
| Inspection.TakenIsSeen | discovery/inspect.go:563-573 | an identity is seen exactly when an earlier key of the document has it |
| Conformity.InspectReports | discovery/inspect.go:513-807 | kind by kind, a finding is reported under a key if and only if the body breaks that rule, each rule read off the document and the tables |
| Conformity.FrameIsInspected | discovery/inspect.go:351-391 | the same of what is wrong with the document itself |
| Conformity.ConformsExactly | discovery/inspect.go:538-807 | a body has an error if and only if it lacks a required key or an entry topic, has an unlisted class or a refused category, or breaks its platform's rules |
| Conformity.AcceptableExactly | discovery/inspect.go:513-591 | a component has an error if and only if it cannot be encoded, has no supported platform or, unless it is a removal marker, has no identity of its own where one is needed or a body that does not conform |
| Conformity.OneMoreClass | discovery/inspect.go:577-580 | listing one more device class adds no finding |
| Conformity.OneMoreStateClassUnit | discovery/inspect.go:723-747 | nor does one more unit of a state class |
| Conformity.OneMoreDeviceClassUnit | discovery/inspect.go:723-757 | nor one more unit of a device class |
| Conformity.OneMoreStateClass | discovery/inspect.go:757-769 | nor one more state class of a device class |
| Conformity.OneMoreKey | discovery/inspect.go:593-636 | nor one more optional key of a platform |
| Bundles.RemovalExactly | discovery/bundle.go:445-496 | exactly the named, known, unwithheld keys become platform-only entries, with their identity recorded |
| Bundles.Bundle.RemoveKeys | discovery/bundle.go:400-424 | exactly the named keys of known platform that are not withheld become platform-only entries |
| Bundles.Bundle.RemoveDeclared | discovery/bundle.go:445-461 | exactly the named keys of known published components that are not withheld become platform-only entries |
| Bundles.Bundle.RememberTombstone | discovery/bundle.go:488-496 | a captured identity is never replaced by a blank one |
| Bundles.Bundle.Declared | discovery/bundle.go:473-482 | every published and every withheld component, published ones first |
| Bundles.RemoveRemembers | discovery/bundle.go:400-496 | the identity recorded is the one the entry still had, else the one recorded before |
| Bundles.ByNodeNames | publisher/topic.go:229-236 | by default the topic named is that of the platform, the document's node and the key, for each component that has all three |
| Bundles.ByUniqueIDNames | publisher/topic.go:254-259 | by identity it is that of the platform and the unique id, a removed component's being the one recorded |
| Bundles.ByObjectIDNames | publisher/topic.go:269-274 | by object id that of the platform and the key |
| Bundles.SupersededTopics | publisher/publisher.go:1133-1180 | in order and without duplicates, exactly the topics that some form gives some component |
| Bundles.WithheldTopics | publisher/publisher.go:719-724 | the same of the withheld components |
| KeySpelling.EntryReadsBack | discovery/contain.go:239-248 | a nested key is read back from its spelling as it was meant |
| KeySpelling.PlainReadsBack | discovery/contain.go:239-272 | a top-level key is read back as itself if and only if it does not begin like a nested one |
| Containment.StripKey | discovery/contain.go:239-272 | deletes exactly the key the spelling is read as, inside an availability entry or not, and says whether it was there |
| Containment.StripAll | discovery/contain.go:215-228 | deletes what the named keys are read as, whatever their order, and reports none removed exactly when nothing changed |
| Containment.ContainBundle | discovery/contain.go:151-203 | returns a fresh bundle, withheld and stripped as specified, and leaves its input as it was |
| Conformity.PublishesTheAcceptable | discovery/contain.go:151-203 | exactly the components Home Assistant would take are published, as they are unless stripping is on; the others are withheld as rendered |
| Conformity.StripsTheUnknown | discovery/contain.go:178-193 | of the keys that are not spelled like nested ones, stripping takes exactly the unknown ones and an impossible state class |
| Conformity.StripsExtraEntryKeys | discovery/contain.go:178-193 | and of an availability entry exactly the keys that are not an entry's own |
| Acceptance.KeysConserved | discovery/contain.go:158-176 | every input key is published or newly withheld as rendered, never both |
| Acceptance.AcceptableUnstripped | discovery/contain.go:151-203 | without stripping, the result is free of errors exactly when no error is the document's own |
| Acceptance.PublishableUnstripped | discovery/contain.go:63-77 | without stripping, Publishable holds exactly when Home Assistant finds no error in the result and it is not emptied |
| Acceptance.AcceptableStripped | discovery/contain.go:151-236 | with stripping, under a lawful judge, exactly when also no published component was spoilt |
| Acceptance.PublishableStripped | discovery/contain.go:63-77 | with stripping, a publishable result has errors in exactly its spoilt components, and none if and only if there is no such |
| CatalogueRules.StrippingSpoilsExactly | discovery/inspect.go:593-807 | stripping a body adds an error if and only if it loses a needed total, required state class, enum, unit, number exemption, bound or availability topic, each read off the body and the tables |
| CatalogueRules.OnlyLastReset | discovery/inspect.go:593-807 | where the keys those rules read are legal and no key is spelled like a nested one, only the total can be lost |
| CatalogueRules.CatalogueIsLawful | discovery/inspect.go:538-807 | the catalogue's checks are a lawful judge: named by key, one key per strippable finding, identity and variant kept, stripping settled in one pass, new errors exactly where stated |
| Acceptance.Distinct | discovery/inspect.go:563-573 | no two published components share platform and unique id |
| Acceptance.TombstonesExactly | discovery/contain.go:215-236 | a published entry is a removal marker exactly when it was rendered as one or stripped of every other key, which needs an entry without identity on a platform that needs none |
| CatalogueRules.EmptiedExactly | discovery/contain.go:215-236 | under the catalogue that is exactly when every key but the platform is one to strip |
| Acceptance.SecondPassUnstripped | discovery/contain.go:151-203 | containing again changes nothing |
| Acceptance.SecondPassStripped | discovery/contain.go:151-236 | with stripping, if and only if the first pass spoilt no component |
| Acceptance.SpoiltIsWithheld | discovery/contain.go:151-236 | a second pass withholds each spoilt component as the first published it |
| Acceptance.StripKeysExactly | discovery/contain.go:178-186 | what is stripped from a component depends on that component alone |
| StrippingExamples.MeterIsAccepted | discovery/inspect.go:706-709 | a concrete sensor Home Assistant accepts with a warning |
| StrippingExamples.StrippingCanSpoil | discovery/contain.go:178-193 | that sensor has an error once contained with stripping |
| StrippingExamples.SecondPassWithholdsTheMeter | discovery/contain.go:151-193 | contained again, the sensor is withheld |
| StrippingExamples.EnumCanBeLost | discovery/contain.go:178-193 | on a platform with options but no device class, a sensor's options lose their `enum` |
| StrippingExamples.TopicCanBeLost | discovery/contain.go:239-272 | an unknown key spelled like an entry's topic costs the entry its topic and is itself kept |
| StrippingExamples.TagCanBeEmptied | discovery/contain.go:215-236 | a tag with only unknown keys is stripped to a removal marker |
| StrippingExamples.UnknownIdentityIsLost | discovery/inspect.go:593-640 | where `unique_id` is not a legal key, stripping takes the identity |
| WithheldCycles.RenderedSurvives | discovery/contain.go:151-203 | in either order a rendered key is published as itself or withheld as rendered |
| WithheldCycles.LeavesAsTombstone | discovery/bundle.go:445-461 | a key that leaves is a platform-only entry in that cycle, its component recorded |
| WithheldCycles.OrdersAgree | discovery/contain.go:139-150 | removing then containing and containing then removing give the same document |
| WithheldCycles.KeepSetRemembers | discovery/bundle.go:473-482 | the keep set remembers a rendered key's platform and identity, published or withheld |
| WithheldCycles.WithheldIsNeverRemoved | discovery/contain.go:117-150 | over any cycles a rendered key with an identity is never a platform-only entry |
| WithheldCycles.LeavingIsRemoved | publisher/publisher.go:1093-1180 | over any cycles a leaving key is removed at once and all three legacy forms still name its topic |
| DedupGate.SuppressedChangesNothing | publisher/state.go:417-460 | a suppressed write would have changed neither broker nor memory |
| DedupGate.GateIsTransparent | publisher/state.go:417-847 | any run with the gate leaves the retained map and memory of the run without it |
| DedupGate.ReplayRestores | publisher/state.go:772-847 | after a wiped broker a replay restores exactly the index, before or after a reset |
| DedupGate.WipedBrokerNeedsReset | publisher/state.go:823-847 | without a reset a wiped broker keeps an unchanged value from being sent, with one it is sent |
| DedupGate.UnderIsLevelwise | publisher/state.go:695-744 | a topic is below a prefix exactly when its levels, case folded, begin with the prefix's, and go on if the prefix ends in a slash |
| StatusMemory.PublishStatus | publisher/status.go:116-160 | every object sent has its change time no later than its own time |
| StatusMemory.MemoryIsOfTheLatest | publisher/status.go:116-160 | in every run the memory is of the latest accepted observation and within the index |
| StatusMemory.LastChangeStartsTheRun | publisher/status.go:90-160 | with ordered times the change time is that of the first accepted observation of the current run of equal values |
| StatusMemory.SuppressedSaysTheSame | publisher/status.go:130-138 | a suppressed observation repeats the indexed object but for its time |
| StatusMemory.ObjectSpelled | publisher/status.go:45-78 | a status object as it is spelled |
| StatusMemory.ExtensionSpelled | publisher/status.go:45-78 | and one with its extension |
| StatusGate.StatusGateIsTransparent | publisher/status.go:116-160 | with times that never go back and raw writes that are no status objects, any run remembers the values, extensions and change times of the run without a gate and leaves the same bytes or objects that differ in their time alone |
| StatusGate.SparedAgreesIff | publisher/status.go:90-160 | a spared observation leaves the memory a sent one would if and only if its time is not before the change time |
| StatusGate.RawWriteAgreesIff | publisher/state.go:417-460 | a raw write leaves the memory that the ungated one would, unless it repeats the very object indexed and would be accepted |
| StatusGate.StatusReplayRestores | publisher/state.go:772-847 | after a wiped broker a replay restores exactly the index, status objects included, before or after a reset, and drops no memory |
| StatePlane.StatePublisher.PublishState | publisher/state.go:417-460 | writes exactly an open topic and a payload that the gate does not have, then holds, indexes and gates it and drops the topic's value memory; otherwise changes nothing |
| StatePlane.StatePublisher.PublishStatusObject | publisher/status.go:116-160 | sends exactly an open topic's value that is not the remembered one, with the carried or new change time, and remembers it; otherwise changes nothing |
| StatePlane.StatePublisher.EvictTopics | publisher/state.go:634-658 | clears what is neither guarded nor refused and forgets exactly that |
| StatePlane.StatePublisher.EvictPrefix | publisher/state.go:695-744 | the same for the indexed topics below a prefix, at level boundaries and in any case |
| StatePlane.StatePublisher.ForgetTopics | publisher/state.go:814-821 | drops index and memory, leaves the broker |
| StatePlane.StatePublisher.ResetGate | publisher/state.go:840-847 | opens every gate and keeps index and memory |
| StatePlane.StatePublisher.Republish | publisher/state.go:772-801 | re-sends the index past the gate and counts what went out |
| StatePlane.AvailabilityPublisher.WriteToken | publisher/availability.go:455-498 | writes exactly an open topic and a token the gate does not have; otherwise changes nothing |
| StatePlane.AvailabilityPublisher.Retract | publisher/availability.go:663-684 | clears and forgets what is neither guarded nor refused |
| StatePlane.AvailabilityPublisher.Republish | publisher/availability.go:607-639 | re-sends every remembered topic past the gate |
| StatePlane.AvailabilityPublisher.Sweep | publisher/availability.go:719-753 | clears what is no longer live, keeps what is, and reports exactly what went |
| Overlays.Entity.EnrichBy | catalog/catalog.go:215-235 | decides the matches, sorts them stably and overlays them in place |
| Overlays.ApplyWritesGiven | catalog/catalog.go:330-388 | an overlay writes each place it states and leaves the others |
| Overlays.SortKeepsOrder | catalog/catalog.go:224-228 | the stable sort orders by priority, then slice index |
| Overlays.EnrichDecidesEachPlace | catalog/catalog.go:215-235 | place by place, the greatest matching rule in priority and index that states it decides, else the original stays |
| Overlays.FieldIsDecided | catalog/catalog.go:215-235 | a field ends as the matching rule of highest priority that states it has it, the later one among equals |
| Overlays.FieldIsLeft | catalog/catalog.go:215-235 | a field no matching rule states stays as it was |
| Overlays.ExtraIsDecided | catalog/catalog.go:330-388 | an extra key likewise, one spelled like the suppression mark before that mark of the same rule |
| Overlays.SuppressionIsDecided | catalog/catalog.go:238-264 | the last matching rule with a word on suppression decides whether the entity is removed |
| Overlays.PortedTable | catalog/catalog.go:166-204 | fully specified rules in descending priority are a first-match-wins table |
| Overlays.SameRulesRunIff | catalog/catalog.go:199-235 | asked at its turn instead of first, the same rules run if and only if each rule's verdict on the description reached by then is its verdict on the original |
| Overlays.EnrichIsChosen | catalog/catalog.go:215-235 | Enrich overlays what of all rules in order matches the original |
| Overlays.InterleavedAgrees | catalog/catalog.go:199-203 | and then Enrich gives exactly what asking at each turn gives |
| Overlays.StableTablesAgree | catalog/catalog.go:199-203 | as for every table none of whose overlays changes a verdict |
| Overlays.ConditionsAreReadFirst | catalog/catalog.go:215-235 | a rule table where it does not |
| Overlays.Filter | catalog/catalog.go:238-264 | suppressed descriptions go, the others lose the mark only |
| Overlays.SuppressionFollowsDecider | catalog/catalog.go:238-264 | an entity is removed exactly when the deciding rule says so |
| Overlays.OnlyABooleanSuppresses | catalog/catalog.go:238-245 | a mark that is text, whatever it says, does not suppress and is still taken off |
| SmartHome.SafeSegment | topic/topic.go:130-147 | every shape-changing character is replaced, nothing else |
| SmartHome.JoinSegments | topic/topic.go:114-122 | the safe, non-empty segments joined |
| SmartHome.NoEcho | topic/smarthome.go:162-287 | nothing this process writes matches a filter below its set function or its maintenance commands |
| SmartHome.MaintenanceCommandsExactly | topic/smarthome.go:194-217 | the maintenance filter matches exactly the maintenance topics below set |
| SmartHome.StateAndCommandDifferInFunction | topic/smarthome.go:244-249 | a slot's state and command topics differ in the function level and nowhere else |
| SmartHome.CommandFindsItsState | topic/smarthome.go:237-249 | what the set filter captures of a command names the state topic of the same slot |
| SmartHome.SlotLevels | topic/smarthome.go:237-249 | the levels of a slot's state and command topics |
| SmartHome.DeviceLevels | topic/smarthome.go:257-287 | those of its availability and its channel's events |
| SmartHome.PulseLevels | topic/smarthome.go:279-287 | and of its channel's impulses and device errors |
| SmartHome.MaintenanceLevels | topic/smarthome.go:217-217 | the levels of a maintenance topic |
| SmartHome.NameRules | topic/smarthome.go:162-182 | a name is accepted exactly when it is not empty, does not begin with `$`, holds no wildcard or NUL, and is one level or, where that is asked for, several non-empty ones |

## Left out

- CommandPool.WorkerPool.Enqueue: does not compute the FNV hash; the shard is a parameter, any function of the topic.
- RouterSystem.ExactlyOneHandler: assumes a broker that sends one copy per matching live subscription; a shared filter's group is one subscription.
- RetractFirst.NeverBothForms: reconnects fall between calls, nothing just superseded is published again, and a plain publish or replay of one form follows this connection's superseding of the other; `FormsLeft` gives the exact conditions.
- RuntimeRuns.MemosAreOfThisConnection: calls are serialised, and a connection generation is never used twice; a transport without generations only has Reset.
- Observed.ObservedRefinesBlind: no retraction of a topic that retains nothing is refused (`Observed.RefusedRetractionAgreesIff` says why), a failed send is not applied, and no other writer changes the tree.
- Ungated.GateIsTransparent: a failed send is not applied, and a snapshot window meets no reconnect; the two counterexample lemmas say why for the gate.
- Runtime.DiscoveryRuntime.LookAtRetained: a window that overlaps a reconnect, the window's length and a caller whose context ends are not modelled.
- SweepSystem.SweptWasOrphaned: one call at a time per topic, and the loop's re-check and its retraction are one step.
- Inspection.InspectDocument: takes the checks of a body as a function of its key and body, which the catalogue's tables give; findings are a set without messages, and their display order, which the messages decide, is left out.
- CatalogueRules.CatalogueIsLawful: assumes catalogue tables in which `unique_id` and a variant's discriminator are legal keys (`StrippingExamples.UnknownIdentityIsLost` says why) and the number defaults belong to number keys.
- KeySpelling.EntryReadsBack: an index beyond what an integer holds, which no list has, is read instead of refused.
- StatePlane.StatePublisher.EvictPrefix: folds ASCII letters only, where the source folds Unicode too.
- DedupGate.GateIsTransparent: raw payloads only; runs that also send status objects are `StatusGate.StatusGateIsTransparent`, where a repeated observation carries a new time, so equality is up to that time.
- FormsLeft.StraddledDocumentIsAloneIff: one reconnect among a call's sends, and none while it looks at the broker.
- Overlays.Entity.EnrichBy: a rule's condition is a predicate on the description; its key, model, leaf and name tests are not spelled out.
- JSON encoding, reflection and the generated key structs: a component is a map of keys to values, and rebuilding a stripped one either succeeds as it is or keeps the original.
- The transport itself, timers, quality of service, logging, latency samples and context deadlines: a cancelled loop is one that stops early.
- The birth dispatcher, the sweep slot, instance and supervision code, number and set helpers, naming slugs and templates.
- Two concurrent calls on one topic, and two calls racing a reconnect: the source makes no promise about them.
