# Verification of the proxy's state machines and algorithms

This project models the parts of the proxy that hold its hard logic and proves what they keep, for every
input and every run. Each part comes in two layers. A *specification* on values (functions and datatypes)
says what an operation means, and the lemmas about it state the laws. The *code's own form* (classes whose
fields are updated, loops, in-place steps) follows the source statement by statement, and its methods are
proved equal to the specification, so every law carries over to it.

| part | specification and laws | the code's form |
|---|---|---|
| model registry | `RegistryTables`, `RegistryLaws`, `RegistryRuns`, `RegistryMarks`, `RegistryListing`, `RegistryVisible`, `RegistryCache`, `RegistrySteps` | `ModelRegistry.dfy` |
| comment-preserving YAML merge | `YamlTree`, `YamlMerge`, `YamlFaithful`, `YamlOmitted`, `YamlIdentity` | `YamlUpdate` |
| usage queue and its subscribers | `Fifo`, `PubSub` | `UsageQueue.dfy` |
| usage statistics | `UsageFold`, `UsageMeasures`, `UsageMerge`, `UsageRuns`, `UsageClamped`, `UsageRebuild` | `UsageStatistics` |
| conversation log | `LogPages`, `LogLines`, `LogShards`, `LogListing` | the methods of the same modules, and the class `Store` |
| model patterns of API keys | `Glob`, `GlobNames` | `Glob` |
| queue protocol | `Decimal`, `Numerals`, `Resp`, `RespWire` | `RespStream` |

`MapSum`, `Text` and `Wrappers` hold sums over maps, ASCII string operations, and results; `TextLaws` says what the
string operations mean.

`dafny verify dfyconfig.toml` checks everything.

## What is proved

- **Registry.** The six phases of a registration compute one closed form per model (`RegistryTables.Settle`).
  The redundant counters are exactly the sums over the clients' own lists in every reachable state. A
  registration is the same as unregistering and registering afresh *if and only if* two things hold: no model
  that only this client provides, and provides again, carries another client's mark; and no model that a known
  client newly lists already carries a mark of its own. Setters that name only clients listing the model keep
  to that, and for each of the two conditions a reachable state shows the difference. In every run of mutators
  and questions with a non-decreasing clock, whatever handlers are asked in whatever order, each answer, cached
  or rebuilt, is a listing of the current tables at the time it is asked for, and shows exactly the models that
  no client is suspended for, but for its quota, or that have registrations left beside the exhausted and
  suspended clients.
- **YAML merge.** For every destination and every source without repeated keys, the merged tree says what the
  source says (`YamlFaithful.Faithful`) *if and only if* `YamlFaithful.Keeps` holds, which looks at the two trees
  before the merge: nothing that matters stands under a blank key of a sequence element that is matched to an
  old one. Keys of the old tree keep their places and comments, sequence elements are matched injectively and
  end with no key the source lacks. A new scalar is written exactly if it is neither the zero of its kind nor
  what the program assumes at its place; a list element is taken over by its naming key or its shape.
- **Usage queue.** The lazy-head queue refines a plain FIFO with expiry. Every payload is popped, expired,
  cleared or still queued, in order and once; the dead prefix stays small. Under every interleaving of
  publishing, subscribing, removing and the closes that happen outside the lock, no channel is closed twice
  or sent to after its close, and each subscriber is sent a gap-free block of what was published. A payload
  reaches every subscriber with fewer than 256 unread, and exactly the others are disconnected; a pop hands out
  as many payloads as asked for, or all there are.
- **Usage statistics.** In every run each aggregate is the fold of the stored details plus exactly what
  clamping added: an imported negative token total is counted as it is per API and per model, but as zero in
  the global, daily and hourly token counts. So all other aggregates are exact in every run, and all of them
  are *if and only if* no import adds such a detail. Importing unites the stored keys in whatever order the
  maps are iterated, and importing again changes nothing unless the clock stamps details. A store is rebuilt
  from its own snapshot *if and only if* its aggregates are those of importing its details; for the store of a
  run that is, if and only if no detail it *recorded* has a negative total, whatever it imported.
- **Conversation log.** Following cursors to the end shows exactly the filtered list; reading lines does not
  depend on how the buffer cuts the data and gives back, for every shard of every reached store, the payloads
  written to it, so that a listing without filters shows exactly those, newest first. Writes keep the limits
  and evict a shortest set of shards, none of them newer than one that stays.
- **Patterns and protocol.** Greedy pattern matching is exactly declarative globbing; reading what was
  written returns the elements and leaves exactly the bytes behind them, command after command.

The code and its comments differ in two places, and the model follows the code: the import says that existing
data is preserved and duplicates are skipped, but details without a timestamp are stamped anew on every import
(`UsageMerge.UnstampedAddedAgain`), and the sequence merge drops blank keys of matched elements
(`YamlFaithful.BlankKeyIsLost`).

## Model

| member | source | states |
|---|---|---|
| RegistryTables.SettledLookup | internal/registry/model_registry.go:236-449 | In a consistent registry the entry of every model after a registration is the closed form of its entry before and the client's old and new multiplicities |
| RegistryTables.ListedBounds | internal/registry/model_registry.go:451-525 | A client's multiplicity of a model never exceeds the model's total nor its provider's total |
| RegistryTables.SoleClient | internal/registry/model_registry.go:492-525 | If one client accounts for every registration of a model, no provider but its own has a count |
| RegistryLaws.SettledConsistent | internal/registry/model_registry.go:319-422 | Replacing a client's list, under any old and new provider and with repeated models, keeps every count, provider count, provider info and client table consistent |
| RegistryLaws.SettledMarksOwned | internal/registry/model_registry.go:395-404 | A registration leaves no quota or suspension mark that names a client not listing the model |
| RegistryLaws.ReconcileIsFreshRegistration | internal/registry/model_registry.go:236-449 | Incremental reconciliation equals unregistering and registering afresh if and only if no model that only this client provides, and provides again, carries another client's mark, and no model a known client newly lists already carries its own |
| RegistryLaws.OwnedMarksAreNotForeign | internal/registry/model_registry.go:640-704 | Marks that name only clients providing the model meet both conditions |
| RegistryRuns.EventConsistent | internal/registry/model_registry.go:576-729 | Every mutator keeps the counters exact |
| RegistryRuns.CountersExactInEveryRun | internal/registry/model_registry.go:319-525 | After any run, a model is registered exactly if some client lists it, its count is the sum of the multiplicities, each provider's count is that sum over its clients, and every provider present has its own info |
| RegistryRuns.MarksOwnedInEveryRun | internal/registry/model_registry.go:644-704 | If setters name only clients that list the model, marks always do |
| RegistryRuns.RegisterIsUnregisterThenRegister | internal/registry/model_registry.go:236-449 | In every run with such setters, registering is the same as unregistering first |
| RegistryRuns.ForeignMarkSurvivesReconciliation | internal/registry/model_registry.go:644-655 | A quota mark set for a client that does not list the model makes the two differ, for every consistent registry where a sole provider returns |
| RegistryRuns.SoleReturnReachable | internal/registry/model_registry.go:275-298 | Such a state is one registration away from the empty registry |
| RegistryRuns.EarlyMarkSurvivesReregistration | internal/registry/model_registry.go:380-404 | A client's own quota mark on a model it does not list yet makes the two differ when it takes the model up |
| RegistryRuns.NewToClientReachable | internal/registry/model_registry.go:275-298 | Two registrations reach such a state |
| RegistryMarks.RegisteredInfo | internal/registry/model_registry.go:367-422 | A registration records, for each model, the first metadata supplied under its name, for the provider and the client too, and the time |
| RegistryMarks.OthersUntouched | internal/registry/model_registry.go:319-422 | A model the client listed neither before nor now keeps its entry |
| RegistryMarks.ListedInOrder | internal/registry/model_registry.go:236-273 | The list kept for a client is what was supplied, in order and with repetitions |
| RegistryMarks.ProviderCaseIgnored | internal/registry/model_registry.go:236-245 | Providers that differ only in case are the same provider |
| RegistryListing.VisibleUntilRecovery | internal/registry/model_registry.go:790-840 | A model shown at one time stays exactly as visible until the earliest quota recovery |
| RegistryListing.ListingUntilRecovery | internal/registry/model_registry.go:762-788 | A listing built at one time is a listing at every later time before its expiry |
| RegistryListing.RecoveryChangesMarks | internal/registry/model_registry.go:806-815 | The expiry is not too early: at that moment the live marks of some model change |
| RegistryVisible.VisibleIff | internal/registry/model_registry.go:793-830 | A registered model is shown if and only if no client is suspended for it for another reason than its quota, or registrations are left beside those clients and the ones marked in the last five minutes |
| RegistryVisible.ListingShows | internal/registry/model_registry.go:790-840 | A listing shows exactly the models meeting that, each once and with its own metadata |
| RegistryListing.InsertSorts | internal/registry/model_registry.go:832-838 | Inserting into a sorted list keeps it sorted and adds exactly that entry |
| RegistryListing.InsertStable | internal/registry/model_registry.go:832-838 | An insertion changes the order of no entries with equal keys |
| RegistryListing.SortByKey | internal/registry/model_registry.go:832-838 | Sorting gives a sorted permutation in which entries with equal keys keep their order |
| RegistryListing.ListingUnique | internal/registry/model_registry.go:832-838 | Outside the handler whose entries carry no id, the listing of a state at a time is unique |
| RegistryCache.ActsCoherent | internal/registry/model_registry.go:762-788 | Every mutator and every question keeps each cached listing right for the time it was built, with the next recovery as its expiry |
| RegistryCache.EveryAnswerCurrent | internal/registry/model_registry.go:762-840 | In every run of mutators and questions with a non-decreasing clock, each answer, from the cache or not, is a listing of the current entries at the time of the question |
| RegistryVisible.EveryAnswerShowsAvailable | internal/registry/model_registry.go:762-840 | So in every such run each answer shows exactly those models |
| RegistryCache.CachedIsRebuilt | internal/registry/model_registry.go:762-840 | So, except for the handler without ids, an answer is the very list that a rebuild would give |
| RegistrySteps.PhasesSettle | internal/registry/model_registry.go:319-422 | Re-homing, removals, overage, additions and metadata refresh, one after the other, compute the closed form for every model |
| RegistrySteps.AddOneMore | internal/registry/model_registry.go:451-490 | Registering a model once more is registering it with a multiplicity one higher |
| RegistrySteps.DropOneMore | internal/registry/model_registry.go:492-525 | Removing a registration once more is removing one more of them |
| RegistrySteps.PhasesReachSettled | internal/registry/model_registry.go:319-422 | The models after the five loops are those of the closed form |
| RegistrySteps.NothingToUnregister | internal/registry/model_registry.go:584-592 | Unregistering an unknown client changes nothing |
| ModelRegistries.ModelRegistry.AddModelRegistration | internal/registry/model_registry.go:451-490 | Adds one registration to the entry, or creates it, with the provider's count and info; an empty identifier is ignored |
| ModelRegistries.ModelRegistry.RemoveModelRegistration | internal/registry/model_registry.go:492-525 | Takes one registration away, clears the client's marks, and deletes provider and model when nothing is left |
| ModelRegistries.ModelRegistry.RehomeOverlap | internal/registry/model_registry.go:319-346 | Moves what the client keeps listing away from its old provider |
| ModelRegistries.ModelRegistry.ApplyRemovals | internal/registry/model_registry.go:348-354 | Removes the models no longer listed, every repetition of them |
| ModelRegistries.ModelRegistry.ApplyOverage | internal/registry/model_registry.go:356-365 | Removes the repetitions no longer listed |
| ModelRegistries.ModelRegistry.ApplyAdditions | internal/registry/model_registry.go:367-378 | Adds the new repetitions, with the first info supplied |
| ModelRegistries.ModelRegistry.RefreshMetadata | internal/registry/model_registry.go:380-422 | Refreshes info, clears the client's marks, and counts kept models under the new provider |
| ModelRegistries.ModelRegistry.Reconcile | internal/registry/model_registry.go:319-422 | The five loops in order |
| ModelRegistries.ModelRegistry.RegisterClient | internal/registry/model_registry.go:236-449 | The whole registry becomes the one the specification names, the invariant holds, and the cache is empty with no build time left |
| ModelRegistries.ModelRegistry.UnregisterClientInternal | internal/registry/model_registry.go:584-638 | The tables become those without the client |
| ModelRegistries.ModelRegistry.UnregisterClient | internal/registry/model_registry.go:576-581 | The same, with the cache emptied and no build time left |
| ModelRegistries.ModelRegistry.SetModelQuotaExceeded | internal/registry/model_registry.go:644-655 | Sets the client's mark on a registered model to the current time, and changes no other mark and no counter; the cache and its build times are emptied, or both stay because no entry changes |
| ModelRegistries.ModelRegistry.ClearModelQuotaExceeded | internal/registry/model_registry.go:661-671 | Leaves the client without that mark, and changes no other mark and no counter; the cache and its build times are emptied, or both stay because no entry changes |
| ModelRegistries.ModelRegistry.SuspendClientModel | internal/registry/model_registry.go:678-704 | Suspends with the reason given, unless suspended already, which keeps the first reason; changes no other mark and no counter; the cache and its build times are emptied, or both stay because no entry changes |
| ModelRegistries.ModelRegistry.ResumeClientModel | internal/registry/model_registry.go:710-729 | Leaves the client without a suspension, and changes no other mark and no counter; the cache and its build times are emptied, or both stay because no entry changes |
| ModelRegistries.ModelRegistry.CleanupExpiredQuotas | internal/registry/model_registry.go:1231-1250 | Removes exactly the quota marks of five minutes ago or more; the cache and its build times are emptied, or both stay because no entry changes |
| ModelRegistries.ModelRegistry.BuildAvailableModels | internal/registry/model_registry.go:790-840 | Returns a listing, which shows exactly the models with an available client, and the earliest live quota recovery |
| ModelRegistries.ModelRegistry.CachedModels | internal/registry/model_registry.go:766-771 | Answers exactly on an unexpired entry, with its list, and changes nothing; a clock not behind the cache makes that a listing of the current state at the current time |
| ModelRegistries.ModelRegistry.RefreshModels | internal/registry/model_registry.go:773-787 | Keeps the cache if another caller has rebuilt, and else stores a listing built now with its expiry for this handler and leaves the other handlers' entries and build times |
| ModelRegistries.ModelRegistry.GetAvailableModels | internal/registry/model_registry.go:762-788 | A step of the cached system: a hit changes nothing, a miss caches a listing built now; with a clock not behind the cache the answer is current, shows exactly the models with an available client, and leaves the clock not behind the cache |
| ModelRegistries.ModelRegistry.GetModelCount | internal/registry/model_registry.go:1017-1042 | The registrations less exhausted and suspended clients, never negative, and zero for an unknown model |
| YamlTree.PrunedZeroIffHollow | internal/config/config.go:1636-1715 | A new node is dropped as empty after pruning if and only if nothing but omittable defaults is in it |
| YamlTree.PrunedDefaultIffOmittable | internal/config/config.go:1588-1670 | A pruned node counts as a known default if and only if the unpruned one is omittable |
| YamlMerge.MatchPriority | internal/config/config.go:1774-1815 | The match is the first unused element with the target's identity or, without one, the first with its structure; there is none only if neither exists |
| YamlMerge.MatchingInjective | internal/config/config.go:1752-1772 | No original element is matched twice |
| YamlIdentity.NameDecides | internal/config/config.go:1817-1857 | Two mappings that each have a text under a naming key are the same element if and only if the first such key, and its text, are the same |
| YamlIdentity.UnderKey | internal/config/config.go:1841-1857 | The text under a key is that of the first scalar whose key is it but for case and surrounding blanks |
| YamlIdentity.FirstScalarNames | internal/config/config.go:1829-1838 | Without a naming key, the first scalar with a text names the mapping |
| YamlIdentity.IdTakesOver | internal/config/config.go:1774-1800 | A mapping with an id takes over the first unused old element with that id |
| YamlIdentity.OtherIdStays | internal/config/config.go:1774-1815 | It takes over none with another id, unless the two have the same shape |
| YamlIdentity.SameStructureIff | internal/config/config.go:1859-1897 | Two nodes are structurally equal if and only if they are equal once comments, tags and surrounding blanks are gone |
| YamlFaithful.FaithfulToItself | internal/config/config.go:1718-1750 | A copied tree without repeated keys is faithful to its original |
| YamlFaithful.PruneFaithful | internal/config/config.go:1636-1670 | Pruning known defaults from a new node leaves it faithful |
| YamlFaithful.MergeFaithfulIff | internal/config/config.go:1456-1558 | Any merge of a source without repeated keys is faithful if and only if, along the matching and at every depth, each mapping element matched to an old one has only omittable values under blank keys |
| YamlFaithful.NoBlankItemsKeep | internal/config/config.go:1510-1541 | Sources without blank keys in sequence elements meet that for every destination |
| YamlFaithful.MergeFaithful | internal/config/config.go:1495-1558 | If no sequence element of the source has a blank key, then after a merge into any destination every source key is present with a recursively faithful value, or was absent and is an omittable default; scalars and sequences agree, and a null may stand for an empty sequence |
| YamlFaithful.MergeEntriesFaithfulIff | internal/config/config.go:1456-1490 | The same, key by key, for the entries of a mapping: what stands under a source key afterwards is faithful if and only if it is new or its merge into the old value keeps everything |
| YamlFaithful.PruneMissingFaithfulIff | internal/config/config.go:1954-1983 | Removing keys the source lacks keeps a faithful mapping faithful if and only if every blank source key is omittable |
| YamlFaithful.MergeItemFaithfulIff | internal/config/config.go:1527-1541 | A sequence element after the merge is faithful if and only if it is a copy, or its blank keys are omittable and the merges under its other keys keep everything |
| YamlFaithful.BlankKeyIsLost | internal/config/config.go:1456-1558 | Merging the mapping `{xs: [{id: a, "": b}]}` into itself loses the value under the blank key |
| YamlFaithful.UnmentionedKeysUntouched | internal/config/config.go:1456-1490 | Keys the source does not mention keep their values |
| YamlFaithful.NewKeyWrittenIff | internal/config/config.go:1473-1488 | A key new to the destination is written if and only if it is not omittable |
| YamlOmitted.ListedIff | internal/config/config.go:1588-1632 | The assumed values are exactly the nine of the table, each at its dotted place |
| YamlOmitted.Spelled | internal/config/config.go:1599 | The place of a key in a section is the two with a dot between them |
| YamlOmitted.NewScalarWrittenIff | internal/config/config.go:1473-1488 | A new scalar is written if and only if it is not the zero of its kind (false; 0 or 0.0; the empty text; null) and not what is assumed at its place |
| YamlOmitted.NewListWrittenIff | internal/config/config.go:1675-1701 | A new list of scalars is written if and only if one of them is not the zero of its kind |
| YamlOmitted.NewSectionWrittenIff | internal/config/config.go:1636-1715 | A new section of scalars is written if and only if one of them would be |
| YamlOmitted.PrunedTerse | internal/config/config.go:1636-1670 | Inside a new value no zero scalar, no assumed value and no empty collection is left under a key |
| YamlOmitted.PrunedOfZeros | internal/config/config.go:1652-1654 | Inside a new value, keys whose values are zero throughout are dropped |
| YamlFaithful.MergedTag | internal/config/config.go:1495-1558 | A merged node has the source's kind, and its tag where the kind is new; a null may stand for an empty sequence |
| YamlFaithful.MergePreserves | internal/config/config.go:1456-1558 | Comments and styles of mapping nodes stay, and old keys keep their order as a prefix, recursively |
| YamlFaithful.MergedSequence | internal/config/config.go:1510-1545 | The merged sequence has the source's length and order, each element is faithful exactly when its blank and deeper keys keep everything, unmatched ones are copies, matched ones keep their comments, and mapping elements keep no key the source lacks |
| YamlFaithful.MergeOnlySourceKeys | internal/config/config.go:1495-1558 | At every depth of the merged tree, a mapping element of a sequence has only keys its source element has |
| YamlUpdate.MatchSequenceElement | internal/config/config.go:1774-1815 | The loops find that match: identity or scalar text first, then equal structure, among the unused |
| YamlUpdate.ReorderSequenceForMerge | internal/config/config.go:1752-1772 | The nodes reordered to the source, with a gap where nothing matches |
| YamlUpdate.FindMapKeyIndex | internal/config/config.go:1562-1572 | The first position of the key, or none |
| YamlUpdate.PruneMissingMapKeys | internal/config/config.go:1954-1983 | Keeps exactly the entries whose trimmed key the source has |
| YamlUpdate.MergeMappingPreserve | internal/config/config.go:1456-1490 | The loop over the source's keys computes the specified merge, and writes exactly the new scalars that are needed |
| YamlUpdate.MergeNodePreserve | internal/config/config.go:1495-1558 | The branches by kind compute the specified merge |
| YamlUpdate.MergeSequence | internal/config/config.go:1510-1545 | The loop over the elements computes the specified merge |
| Fifo.ExpiredPrefix | internal/redisqueue/queue.go:205-220 | Exactly the leading items older than the cutoff |
| Fifo.RunConserves | internal/redisqueue/queue.go:109-236 | In every run, what arrived is what departed followed by what is queued, in order |
| Fifo.DeliveredArePopped | internal/redisqueue/queue.go:178-203 | What the pops of a run returned is exactly what departed as popped, in order and once each |
| Fifo.RunTimely | internal/redisqueue/queue.go:109-220 | With a non-decreasing clock the queue is sorted by time, only expired items were dropped as expired and no expired one popped, and after an enqueue or pop nothing expired is left |
| Fifo.PopCount | internal/redisqueue/queue.go:178-203 | A pop hands out the oldest unexpired payloads, as many as asked for or all there are, and leaves the rest |
| UsageQueues.UsageQueue.PruneLocked | internal/redisqueue/queue.go:205-220 | Advances the head over exactly the expired prefix |
| UsageQueues.UsageQueue.MaybeCompactLocked | internal/redisqueue/queue.go:222-236 | Changes no live item, and leaves a dead prefix that is empty or below both 1024 and the live count |
| UsageQueues.UsageQueue.EnqueueItem | internal/redisqueue/queue.go:109-121 | Refines enqueueing on the plain queue |
| UsageQueues.UsageQueue.PopItems | internal/redisqueue/queue.go:178-203 | Refines popping: the oldest unexpired payloads, and they leave the queue |
| UsageQueues.UsageQueue.StorageBound | internal/redisqueue/queue.go:222-236 | Storage stays below twice the live items |
| UsageQueues.UsageQueue.SetRetentionSeconds | internal/redisqueue/queue.go:55-63 | The retention is the value up to an hour, and a minute for a non-positive one |
| UsageQueues.UsageQueue.SetEnabled | internal/redisqueue/queue.go:38-43 | Disabling empties the queue and removes every subscriber, and closes exactly their channels, with all buffers and sent payloads as they were; enabling changes nothing |
| UsageQueues.UsageQueue.Enqueue | internal/redisqueue/queue.go:65-76 | Ignored if disabled or empty, published if anyone subscribes, so that every subscriber with room gets it, and queued otherwise, never both |
| UsageQueues.UsageQueue.PopOldest | internal/redisqueue/queue.go:78-86 | Nothing if disabled or the count is not positive, and else the pop of the plain queue: at most the count, and less only if nothing is left |
| PubSub.StepSafe | internal/redisqueue/queue.go:92-176 | Each atomic step keeps the safety invariant |
| PubSub.EveryInterleavingSafe | internal/redisqueue/queue.go:92-176 | Under every interleaving no channel is closed twice or sent to once closed, a pending close is of an open removed channel, and each channel was sent the gap-free block published between subscription and removal |
| PubSub.RunExists | internal/redisqueue/queue.go:123-176 | Every sequence of events reaches a state, so the safety statement is not empty |
| PubSub.QuiescentClosed | internal/redisqueue/queue.go:92-107 | When no close is outstanding, exactly the removed subscribers' channels are closed |
| PubSub.PublishReaches | internal/redisqueue/queue.go:123-142 | A subscriber with fewer than 256 payloads unread is sent the payload and stays; any other is taken out and its channel closed, with what it was sent as it was |
| PubSub.PublishLeaves | internal/redisqueue/queue.go:123-142 | A publish is recorded once if anyone subscribes, and changes no channel of a former subscriber |
| PubSub.ReceiveTakesNext | internal/redisqueue/queue.go:144-163 | A receive takes the oldest unread payload of the channel |
| UsageQueues.UsageQueue.PublishToSubscribers | internal/redisqueue/queue.go:123-142 | Every subscriber with fewer than 256 payloads in its buffer gets one more at its end, exactly the others are disconnected and closed, and no other channel changes |
| UsageQueues.UsageQueue.SubscribeUsage | internal/redisqueue/queue.go:144-163 | A new channel under a number never used before |
| UsageQueues.UsageQueue.UnsubscribeUsage | internal/redisqueue/queue.go:165-176 | Unsubscribing and closing as steps of the protocol: exactly that subscriber goes and its channel is closed, with its buffer, what it was sent, and all other channels as they are; an unknown number changes nothing |
| UsageQueues.UsageQueue.ClearLocked | internal/redisqueue/queue.go:92-101 | Empties the queue and takes all subscribers, whose closes are now owed |
| UsageQueues.UsageQueue.Clear | internal/redisqueue/queue.go:92-107 | Afterwards the queue is empty and exactly the former subscribers' channels are closed, with all buffers and sent payloads as they were |
| UsageFold.AddStanding | internal/usage/logger_plugin.go:199-307 | With whatever token count a detail is added globally, every per-API and per-model counter, the time windows and the division into buckets stay exact |
| UsageFold.AddConsistent | internal/usage/logger_plugin.go:199-307 | One more detail keeps every global, per-API and per-model counter, latency sum, sample count, window and bucket, cut in the timestamp's own zone, equal to the fold of the stored details |
| UsageFold.ImportConsistentIff | internal/usage/logger_plugin.go:460-494 | An imported detail keeps them so if and only if its token total is not negative |
| UsageFold.DetailsDetermineAll | internal/usage/logger_plugin.go:273-307 | Two consistent stores with the same details agree on every aggregate |
| UsageMeasures.ClockShows | internal/usage/logger_plugin.go:225-226 | A moment lies in the hour of the day it is counted in, as its own clock shows it |
| UsageMeasures.WholeMilliseconds | internal/usage/logger_plugin.go:564-569 | A latency is counted in whole milliseconds, a missing one as zero |
| UsageMeasures.MissingTotal | internal/usage/logger_plugin.go:537-562 | Only a missing total changes: to input, output and reasoning together or, if those are none, to the cached count |
| UsageMeasures.CountedUnder | internal/usage/logger_plugin.go:212-215 | A request is counted under its API key, else its endpoint, else its provider, else "unknown" |
| UsageMeasures.ImportedAs | internal/usage/logger_plugin.go:434-446 | An imported detail is stored as it is, but for missing totals, negative latencies and a missing time |
| UsageMeasures.ImportedUnder | internal/usage/logger_plugin.go:429-433 | An imported model without a name is unknown, and others lose only the white space around it |
| UsageMeasures.RecordedCounts | internal/usage/logger_plugin.go:216-251 | A request counts once, as a failure if it failed or its status is 400 or above, with its own tokens, and each latency of a millisecond or more is one sample |
| UsageMeasures.RecordedBuckets | internal/usage/logger_plugin.go:267-270 | The buckets of the request's own day and hour grow, by one and by its tokens, and no others |
| UsageMeasures.RecordedDetails | internal/usage/logger_plugin.go:253-266 | Exactly one detail is stored, under its key and model, saying what the request said |
| UsageMeasures.AverageIsMean | internal/usage/logger_plugin.go:590-595 | An average is the mean rounded down, or zero without samples |
| UsageMerge.PrepareSettles | internal/usage/logger_plugin.go:424-438 | Normalising a detail is idempotent, and settles its timestamp |
| UsageMerge.SeenIsStored | internal/usage/logger_plugin.go:402-416 | At every point of an import the seen keys are exactly the stored keys |
| UsageMerge.MergeUnites | internal/usage/logger_plugin.go:393-458 | In any iteration order the stored keys become the union, as many details are added as keys are new, and added plus skipped is the number visited |
| UsageMerge.MergeTwice | internal/usage/logger_plugin.go:390-458 | Importing the same snapshot again, in any order and at any time, adds and changes nothing if every detail has a timestamp |
| UsageMerge.MergeAgainAdds | internal/usage/logger_plugin.go:434-446 | In general a second import adds one detail per key that is new, and only details without a timestamp can have one |
| UsageMerge.UnstampedAddedAgain | internal/usage/logger_plugin.go:434-446 | A snapshot of one detail without a timestamp, imported twice at clock readings whose keys differ, is added both times |
| UsageRuns.StandingInEveryRun | internal/usage/logger_plugin.go:199-494 | In every run, whatever was imported, every per-API and per-model aggregate is exact, and the window and the buckets account for every request |
| UsageRuns.ExcessInEveryRun | internal/usage/logger_plugin.go:199-494 | In every run each global aggregate, every day and hour bucket included, is the fold of the stored details plus exactly what clamping added for the imported details |
| UsageRuns.ForgivenIs | internal/usage/logger_plugin.go:460-493 | Clamping adds to the total, the day's and the hour's tokens what the detail's total is below zero, and to nothing else |
| UsageRuns.OnlyTokensDrift | internal/usage/logger_plugin.go:460-493 | So every aggregate but the token counts is the exact fold in every run |
| UsageRuns.ExactInEveryRunIff | internal/usage/logger_plugin.go:199-494 | In every run of recordings and imports all aggregates are exact if and only if no import added a negative total |
| UsageRuns.MergeExactIff | internal/usage/logger_plugin.go:393-494 | Judged before an import: it keeps exact aggregates exact if and only if no detail with a key not stored yet has a negative total |
| UsageRuns.RequestsAddUp | internal/usage/logger_plugin.go:199-494 | In every run successes plus failures, all day buckets, all hour buckets and the stored details each make the total requests |
| UsageRuns.AddedAreStored | internal/usage/logger_plugin.go:393-458 | The details an import adds are as many as it counts, and every measure of the stored details grows by exactly theirs |
| UsageRuns.WalkExcess | internal/usage/logger_plugin.go:460-493 | Along an import each global aggregate gains, beyond the details added, exactly the sum of what clamping forgives them |
| UsageRuns.PreparedInEveryRun | internal/usage/logger_plugin.go:205-258 | Every stored detail of every run is normalised and stamped |
| UsageClamped.ShortfallInEveryRun | internal/usage/logger_plugin.go:199-494 | In every run each global aggregate is what importing all stored details would give, less exactly what clamping would have added for the recorded ones |
| UsageClamped.AsImportedInEveryRunIff | internal/usage/logger_plugin.go:199-494 | So the aggregates are those of importing the stored details if and only if no recorded detail has a negative total |
| UsageClamped.ExactAsImportedIff | internal/usage/logger_plugin.go:460-494 | Exact aggregates are those of importing if and only if no stored total is negative |
| UsageRebuild.RebuildIff | internal/usage/logger_plugin.go:310-458 | Importing a store's own snapshot into an empty store, in any order, rebuilds every aggregate and every detail sequence if and only if its aggregates are those of importing its details, given clean names and distinct keys |
| UsageRebuild.RebuildExactIff | internal/usage/logger_plugin.go:310-458 | A store with exact aggregates is rebuilt if and only if no stored total is negative |
| UsageRebuild.RebuildInEveryRunIff | internal/usage/logger_plugin.go:199-494 | The store of any run, whatever it imported, is rebuilt if and only if no detail it recorded has a negative total |
| UsageStatistics.CollectKeys | internal/usage/logger_plugin.go:402-416 | The three loops collect exactly the stored keys |
| UsageStatistics.UpdateTimeWindow | internal/usage/logger_plugin.go:571-581 | The window is widened by a non-zero timestamp, and only by it |
| UsageStatistics.UpdateApiStats | internal/usage/logger_plugin.go:273-307 | The API's and the model's counters and details with one more detail |
| UsageStatistics.RequestStatistics.Record | internal/usage/logger_plugin.go:199-271 | The store becomes the one with the normalised detail added, so that counters, outcomes, latencies, buckets and details grow by the request's own; or stays as it is while statistics are switched off |
| UsageStatistics.RequestStatistics.RecordImported | internal/usage/logger_plugin.go:460-494 | The store becomes the one with the detail imported, its total clamped globally |
| UsageStatistics.RequestStatistics.MergeSnapshot | internal/usage/logger_plugin.go:393-458 | The loops go through the whole snapshot in some order and reach the store and counts of the specified import |
| UsageStatistics.RequestStatistics.Snapshot | internal/usage/logger_plugin.go:310-384 | The snapshot shows every total, mean, bucket and detail of the store, at every level |
| LogPages.ScanExact | internal/conversationlog/store.go:388-416 | A page holds the first matching entries from the cursor, and its next cursor is where the rest of the matches begins |
| LogPages.CursorRoundTrip | internal/conversationlog/store.go:465-475 | A printed cursor parses to itself |
| LogPages.NormalizeLimit | internal/conversationlog/store.go:455-463 | A limit up to 500 is kept, one above it becomes 500, and a missing one 100 |
| LogPages.ScanBounded | internal/conversationlog/store.go:388-424 | The next cursor strictly increases and stays inside the log |
| LogPages.FollowingShowsAll | internal/conversationlog/store.go:372-424 | Following cursors with any limits concatenates to exactly the matches from the first cursor on |
| LogPages.FirstPageFollows | internal/conversationlog/store.go:372-424 | Without a cursor that is the whole filtered list, newest first |
| LogPages.MeetsIff | internal/conversationlog/store.go:477-511 | An entry matches if and only if it has every text asked for but for case, the status and outcome asked for, and a time within the bounds, both included |
| LogPages.ShownIff | internal/conversationlog/store.go:372-424 | Following the cursors to the end, with any limits, shows an entry if and only if it meets the query |
| LogPages.FlatSlice | internal/conversationlog/store.go:388-398 | The entries of each shard stand together in the list, newest first |
| LogPages.ListShard | internal/conversationlog/store.go:398-416 | The inner loop over one shard completes the page or stays on course |
| LogPages.MalformedShard | internal/conversationlog/store.go:388-416 | The malformed lines counted are those of the shards opened for the page |
| LogPages.List | internal/conversationlog/store.go:372-424 | The loops over shards and entries compute that page, whose entries all meet the query, and count the malformed lines of the shards opened; a malformed cursor is refused and a disabled store lists nothing |
| LogLines.AfterPart | internal/conversationlog/store.go:600-633 | Each buffer part keeps the reading on course, whether it ends a line, fills the buffer or ends the data |
| LogLines.ReadLogLines | internal/conversationlog/store.go:586-634 | However the buffer cuts the data: the non-blank lines within the limit are visited in order and exactly the longer ones are counted malformed |
| LogLines.VisitedIff | internal/conversationlog/store.go:603-628 | A line within the limit is visited, without its line end, if there is more on it than white space; a longer one is malformed |
| LogLines.MaxLineBytes | internal/conversationlog/store.go:636-644 | The line limit is the entry limit, or two mebibytes for a missing one, and 64 kibibytes more; near the largest integer it is that |
| LogLines.WrittenReads | internal/conversationlog/store.go:211-240 | Reading what was written gives the payloads in order and none malformed |
| LogLines.ReadBackWritten | internal/conversationlog/store.go:586-634 | The same for the code's reader, over any cutting of the data |
| LogShards.EvictedMinimal | internal/conversationlog/store.go:349-367 | The shards deleted are the shortest oldest-first prefix of the unprotected ones that brings the total within the limit, or all of them |
| LogShards.EvictsOldest | internal/conversationlog/store.go:349-367 | No shard deleted is newer than an unprotected one that stays, and among shards of the same time the earlier names go first |
| LogShards.ChosenIsLast | internal/conversationlog/store.go:293-309 | The file is the last shard by name if the line fits there, and else the new one |
| LogShards.TotalWithout | internal/conversationlog/store.go:335-367 | Deleting shards reduces the total size by exactly their sizes |
| LogShards.Store.CurrentFile | internal/conversationlog/store.go:293-309 | The shard with the last name if the line fits, else a new one; a line larger than a shard is refused |
| LogShards.Store.SortedByAge | internal/conversationlog/store.go:349-355 | All shards, each once, by time and then name |
| LogShards.Store.EnforceRetention | internal/conversationlog/store.go:323-369 | Deletes exactly the minimal set, which is the oldest, keeps the protected shard, and ends within the total or a single shard's limit |
| LogShards.Store.Write | internal/conversationlog/store.go:211-264 | Refuses exactly the invalid and the too large entries and then changes nothing, as a disabled store does; otherwise puts the line at the end of the chosen shard, evicts exactly the minimal set, none of it newer than another shard that stays, keeps the shard just written, leaves the other shards as they were, keeps both size limits, and keeps every shard equal to the payloads written to it |
| LogShards.Store.ReadShard | internal/conversationlog/store.go:586-634 | After any run of writes, reading any shard through any buffer gives the payloads written to it, in order and none malformed |
| LogListing.Files | internal/conversationlog/store.go:513-536 | Every shard of the directory once, by descending name |
| LogListing.ReadSummaries | internal/conversationlog/store.go:543-559 | The entries of a shard of a reached store are the payloads written to it, summarised in order, and the malformed ones are those that are no entries |
| LogListing.ListStore | internal/conversationlog/store.go:372-424 | A page of a reached store is the page of the payloads logged for its shards, newest first, with none malformed if each of them is an entry |
| LogListing.EverythingListed | internal/conversationlog/store.go:372-424 | Following the pages without filters, with any limits, shows the summary of each logged payload at exactly its place: by descending shard name, in each shard from the last payload |
| Glob.LinesIffGlobs | internal/api/api_key_controls.go:341-374 | Fitting the parts between stars in order is replacing each star by some string |
| Glob.LeftmostSuffices | internal/api/api_key_controls.go:358-370 | Taking the leftmost occurrence of a part loses no match |
| Glob.LastBySuffix | internal/api/api_key_controls.go:365-373 | Finding the last part and the final suffix test together are exactly a fit of the last part at the end |
| Glob.NoStarGlobs | internal/api/api_key_controls.go:350-353 | A pattern without stars globs only itself |
| Glob.GlobsItself | internal/api/api_key_controls.go:347-349 | A pattern globs its own text |
| GlobNames.CaseIgnoredIff | internal/api/api_key_controls.go:341-343 | Names that differ only in case are compared as the same if and only if both or neither have the prefix "models/" in small letters |
| GlobNames.CaseDoesNotSelect | internal/api/api_key_controls.go:341-374 | Such names are selected by the same patterns, and such patterns select the same names |
| GlobNames.CapitalPrefixStays | internal/api/api_key_controls.go:341-343 | The pattern "m" selects "models/m" and not "MODELS/m" |
| GlobNames.NormalizedForm | internal/api/api_key_controls.go:341-343 | A compared name has no capitals, and no white space at its ends |
| GlobNames.WithoutPrefix | internal/api/api_key_controls.go:341-343 | A name with the prefix is compared without it |
| Glob.NextPart | internal/api/api_key_controls.go:361-371 | One turn of the loop passes on exactly whether the remaining parts fit |
| Glob.MatchParts | internal/api/api_key_controls.go:354-373 | The loop with its moving position decides the fit |
| Glob.ModelPatternMatches | internal/api/api_key_controls.go:341-374 | True if and only if both are non-empty after normalising and each star can be replaced to give the model |
| Glob.ModelAllowed | internal/api/api_key_controls.go:317-339 | Allowed if and only if no exclusion matches and the allow list is empty or matches |
| Decimal.AtoiInvertsItoa | internal/api/redis_queue_protocol.go:385-432 | Parsing a printed 64-bit number gives it back |
| Numerals.ItoaInvertsAtoi | internal/api/redis_queue_protocol.go:385-432 | Printing a parsed number gives its numeral back, if that has no plus sign, leading zeros or negative zero |
| Numerals.AtoiReads | internal/api/redis_queue_protocol.go:385-432 | Only digits behind an optional sign are a number, and it is their value in base ten with that sign |
| Numerals.AtoiInRange | internal/api/redis_queue_protocol.go:385-432 | A parsed number is in the range of a 64-bit integer |
| Numerals.NumeralsWritten | internal/api/redis_queue_protocol.go:474-504 | Numerals are written in base ten, the highest digit first |
| Resp.ElementOfWritten | internal/api/redis_queue_protocol.go:403-489 | Reading a written bulk string returns it, a nil one as empty, and leaves exactly what follows |
| Resp.ArrayRoundTrip | internal/api/redis_queue_protocol.go:376-504 | Reading a written array returns its elements and leaves exactly what follows |
| Resp.PipelineRoundTrip | internal/api/redis_queue_protocol.go:376-504 | Commands written one after another are read one by one |
| Resp.SubscriptionRoundTrip | internal/api/redis_queue_protocol.go:522-546 | The subscription replies read as kind, channel and count |
| Resp.ArrayExtends | internal/api/redis_queue_protocol.go:376-401 | A successful read does not depend on what follows it |
| Resp.CutShortIsRefused | internal/api/redis_queue_protocol.go:376-448 | No proper prefix of a written array reads as an array |
| RespWire.BulksOnTheWire | internal/api/redis_queue_protocol.go:474-489 | The bytes written for a payload and for a missing one |
| RespWire.ArrayOnTheWire | internal/api/redis_queue_protocol.go:491-512 | The bytes written for an array and for a number |
| RespWire.BulkIff | internal/api/redis_queue_protocol.go:418-438 | A bulk string is accepted if and only if it has exactly its announced length and a line end, or its length is negative |
| RespWire.AcceptedBulk | internal/api/redis_queue_protocol.go:418-438 | Whatever is accepted as a bulk string begins with a line announcing its length |
| RespWire.BulkRefusals | internal/api/redis_queue_protocol.go:418-438 | A missing string, one cut short and one with a wrong end are told apart |
| RespWire.BulkWithoutLength | internal/api/redis_queue_protocol.go:418-426 | A missing line, and a length that is no number, are refused |
| RespWire.ElementMarks | internal/api/redis_queue_protocol.go:403-416 | A simple string or a number is its line, and no other marks are accepted |
| RespWire.AcceptedArray | internal/api/redis_queue_protocol.go:376-401 | An accepted array has as many elements as its first line says |
| RespStream.Reader.ReadRESPLine | internal/api/redis_queue_protocol.go:440-448 | The specified line, or its error, and the stream after it |
| RespStream.Reader.ReadRESPBulkString | internal/api/redis_queue_protocol.go:418-438 | The specified bulk string, or its error, and the stream after it |
| RespStream.Reader.ReadRESPString | internal/api/redis_queue_protocol.go:403-416 | The specified element, or its error, and the stream after it |
| RespStream.Reader.ReadRESPArray | internal/api/redis_queue_protocol.go:376-401 | The specified array, or its error, and the stream after it |
| RespStream.Writer.WriteBulkString | internal/api/redis_queue_protocol.go:474-489 | Appends the written form of the payload |
| RespStream.Writer.WriteArrayOfBulkStrings | internal/api/redis_queue_protocol.go:491-504 | Appends the written form of the array |
| RespStream.Exchange | internal/api/redis_queue_protocol.go:376-504 | The code's reader on the code's writer gives the items back and leaves the rest |
| TextLaws.FoldsIff | internal/registry/model_registry.go:815-820 | Texts are equal but for case if and only if they agree character by character, up to the two cases of a letter |
| TextLaws.Trimmed | internal/api/api_key_controls.go:342-343 | Trimming takes white space off both ends and leaves none there |
| TextLaws.LessIff | internal/conversationlog/store.go:526-531 | Names are in dictionary order: at their first difference one has ended or has the smaller character |

## Left out

- Text is ASCII: case folding and trimming of other characters are not modelled, and strings are compared by character.
- Integers are unbounded, except where the protocol and the log compare with the largest 64-bit number; counters do not wrap.
- Registrations, API and model statistics and YAML nodes are values here and pointers in the source, so sharing between two holders of the same node is not captured; the fields of the registry, the queue, the statistics store and the log store are updated in place as in the source.
- YAML anchors, aliases, non-scalar keys and several documents; parsing, encoding and comment indentation of YAML text; the trees are alias-free.
- YamlFaithful.MergeFaithful: does not claim that loading what was saved gives the same configuration, because the source drops a pointer boolean set to false and a log limit of 10 as defaults although absence decodes differently.
- UsageFold: a timestamp is an instant with the offset its clock shows; the rules by which a named zone changes its offset are not modelled, and the window keeps instants only.
- UsageMerge: the deduplication key is an arbitrary function of API, model and detail; only the statements that need it assume that details with equal keys have equal totals, or that stored keys are distinct.
- UsageMerge: a clock reading is a function of the place it is made at, which allows any sequence of readings.
- UsageStatistics.RequestStatistics.Snapshot: the cache hit rate and the requests per second are floating-point figures and are left out; an import ignores all figures of a snapshot but its details.
- LogShards.Store.Write: file-system errors, file permissions and redaction are not modelled; an entry arrives as the one line of JSON it is marshalled to, whether its bodies are valid JSON is a parameter, and so is the name of a new file, which no shard has.
- LogPages.List: errors reading the directory or a shard are not modelled, and shards are read before the loop over them rather than in it, which shows only in such errors.
- LogLines: a read error ends the source's loop with that error; only the end of the data is modelled.
- RespStream.Reader.ReadRESPBulkString: no limit on memory for announced lengths; in particular a length within two of the largest integer wraps in the source, whose allocation then panics, where the contract reports the end of the input.
- RespStream.Writer.WriteBulkString: write errors do not occur.
- ModelRegistry: hooks, logging and the formatting of models for each handler are left out, and a listing holds the model infos themselves.
- RegistryCache: a question is one step, at the time read at its start; the moment between the two locks, where another caller may act, is not a state of its own.
- The queries by provider or client of the registry (`GetAvailableModelsByProvider`, `GetModelProviders`, `GetModelsForClient`), which read the same tables.
- Thinking-configuration clamping, budgets and cost estimates in floating point, HTTP, authentication and storage back ends.
