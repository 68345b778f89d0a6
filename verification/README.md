# Proofs about the gateway's state machines and byte formats

The repository is a gateway for AI providers (`new-api`, Go) with companion tools (`antigravity-manager`, Python).
Most of its code is request plumbing, but some of it keeps state whose correctness is not visible from any one
function. These Dafny modules model that code and prove what it promises over all inputs and all runs:

- **Rate limiting** (`RateLimit`): a bounded queue per client with background eviction stands in for an unbounded
  log. Both admit exactly the same requests over every run if and only if the window is at most one second longer
  than the eviction age.
- **Upstream model reconciliation** (`ModelNames`, `UpstreamUpdate`, `Sweep`, `UpstreamSweep`): ordered-set algebra
  on model names, the detect / auto-sync / apply / ignore state machine, its invariants over every run, among them that
  an alias of a model mapping is never proposed for removal, and its convergence with the exact condition, for one
  channel and for the paged sweep over the whole table.
- **Multi-key channels** (`MultiKey`): a key list and three position-indexed maps stay aligned while keys are
  disabled, enabled, deleted, filtered, appended and listed page by page.
- **Price synchronisation** (`RatioSync`, `ModelsDev`): a multi-pass comparison equals its closed form, and on tables of
  prices shows exactly what lies at least 1e-9 away from the local price; a fold with a non-transitive epsilon
  comparison still selects the cheapest non-zero price up to one epsilon.
- **Request bodies** (`BodyStorage`, `DiskCache`, `ChannelSelect`, `Relay`): a memory store and a disk store implement
  one abstract store, the usage counters are conserved, every attempt of the relay loops forwards the complete original
  body, exactly the listed kinds of failure are tried again, quota is refunded or settled exactly once, and the number of
  attempts has an exact bound although channel selection sets the retry counter back.
- **Refunds of image tasks** (`Midjourney`): any number of pollers with stale snapshots write with a compare-and-set;
  which answers return quota is stated in their own fields, and what is returned for a task is counted exactly over every
  run, with the exact condition for at most once.
- **Byte formats** (`OggScan`, `Varint`, `Base64`, `OAuthToken`): the Ogg page scan visits every page once; varints
  and the nested credential message round-trip and are injective.
- **Batch enrichment** (`ModelMeta`): one pass over the price list gives every rule model what computing it alone
  would give: exactly what the prices offer whose names start with, end with or hold the rule's name.
- **Step-up verification** (`StepUp`): which earlier requests back every requirement that passes, when sessions travel in
  signed cookies, and exactly when a passkey marker serves once.

`Options`, `Lists`, `Text` and `Binary` are shared helpers. Code that changes state is modelled by classes and methods;
their contracts give the whole new state as a function of the old one, and the lemmas are about those functions. Time,
the network, file-system failures, provider answers and billing calls are parameters. Ratios and costs are real
numbers.

## What differs from the documentation

- The configuration comment asks that durations be no larger than the eviction age. The code is exact for one second
  more, and for nothing beyond that (`RateLimit.ExactIffWindowFitsExpiration`). A limit of 0 admits one request per
  window, like a limit of 1.
- `delete_disabled_keys` on a channel whose keys are all automatically disabled reports every key deleted, but the
  empty key text is not written, so every key stays and becomes enabled (`MultiKey.DeletingEveryKeyEnablesAll`).
- Both deletes show the expected list exactly when the remaining list neither begins nor ends with a blank key; an
  append keeps existing positions exactly when the stored text holds more than newlines or nothing is appended.
- The two body stores differ in one observable case, a read into an empty buffer at the end of the data.
- The comment on the cache cleanup says that it does not update the statistics; the code takes every deleted file off the
  counters, with its size on disk, and so does the model.
- `RelayTask` with a negative retry setting makes no attempt and then uses a missing result.
- The example flow in the comment of `CacheGetRandomSatisfiedChannel` keeps one retry count across groups. The code sets
  the count back to 0 whenever it moves to another group, so each group allows RetryTimes + 1 attempts
  (`Relay.AutoAttemptsBounded`, `Relay.EveryGroupIsUsed`).
- Taking a passkey marker removes it from the answer's cookie, not from cookies issued before, so a marker serves once
  exactly under the condition of `StepUp.MarkerServesOnceIff`.
- The word `same` marks agreement in the price comparison, so a channel that offers that word as a value may not be shown
  although it differs; `RatioSync.DifferenceShownIff` says exactly when.
- The models.dev selection depends on the providers being visited in ascending order; in descending order ties drift.
- Image-task answers can return a quota more than once. What is returned is the quota times the number of answers that
  fail the task and win the write (`Midjourney.ReturnedIsCounted`), so it is returned at most once exactly when there is at
  most one such answer (`Midjourney.RefundAtMostOnceIff`). Ways of having two are a failure reason without the status
  `FAILURE`, `FAILURE` below full progress without a reason, a failure repeated in one response, and a stale answer that
  makes a refunded row unfinished again.
- A provider model whose name contains a comma is stored as its parts, so a part that is pending can become a model and
  stay pending; the exact condition is `UpstreamUpdate.RunKeepsConsistentIff`.
- A provider model whose name starts with `regex:` or contains a comma can keep reconciliation from settling; the exact
  condition is `UpstreamUpdate.SettlesIff`.

## Model

| member | source | states |
|---|---|---|
| RateLimit.InMemoryRateLimiter.constructor | new-api/common/rate-limit.go:14-26 | a fresh limiter has no queue and no admission |
| RateLimit.InMemoryRateLimiter.Request | new-api/common/rate-limit.go:45-70 | answer and new queues follow the step function that the refinement lemmas are about; no queue is ever empty |
| RateLimit.InMemoryRateLimiter.ClearExpiredItems | new-api/common/rate-limit.go:28-42 | exactly the queues whose newest entry is older than the expiration disappear, whatever the iteration order |
| RateLimit.QueueDecides | new-api/common/rate-limit.go:45-70 | looking at the queue's length and oldest entry decides the same as counting the unbounded log's admissions in the window |
| RateLimit.RequestRefines | new-api/common/rate-limit.go:45-70 | a request gets the log's answer and leaves every key refined |
| RateLimit.CleanupRefines | new-api/common/rate-limit.go:28-42 | eviction keeps the refinement for windows at most one second longer than the expiration |
| RateLimit.AnswersFromRefiningState | new-api/common/rate-limit.go:28-70 | from any refining state every later run is answered as by the log |
| RateLimit.ExactSlidingWindow | new-api/common/rate-limit.go:28-70 | over every run of requests and evictions with a clock that never goes back, the limiter gives the answers and makes the admissions of an unbounded log |
| RateLimit.ExactIffWindowFitsExpiration | new-api/common/constants.go:204-205 | for any policies per key, the two agree over every run iff every duration is at most expiration + 1 |
| RateLimit.BurstDiverges | new-api/common/rate-limit.go:28-42 | for every key with a longer window and every limit there is a concrete run on which they differ |
| RateLimit.BurstOverfills | new-api/common/rate-limit.go:28-70 | and in that run the limiter admits one request more than the limit into one window |
| RateLimit.EvictionDiverges | new-api/common/rate-limit.go:28-42 | a full queue evicted while its entries are still in the window lets one request too many through |
| RateLimit.AdmissionKeepsBound | new-api/common/rate-limit.go:45-70 | an admission by the log's rule never overfills any window, wherever it starts |
| RateLimit.RunKeepsBound | new-api/common/rate-limit.go:45-70 | the window bound is kept over every run |
| RateLimit.NoWindowOverflows | new-api/common/rate-limit.go:45-70 | no half-open window of the configured length ever holds more admissions of the log than the limit |
| RateLimit.NeverOverfillsIff | new-api/common/rate-limit.go:28-70 | the same holds of the limiter's own admissions, over every run, iff every duration is at most expiration + 1 |
| ModelNames.NormalizeIsClean | new-api/controller/channel_upstream_update.go:98-103 | normalizing gives distinct trimmed non-blank names, exactly those of the raw list |
| ModelNames.CleanIsNormal | new-api/controller/channel_upstream_update.go:98-103 | normalizing an already clean list changes nothing |
| ModelNames.MergeModelNames | new-api/controller/channel_upstream_update.go:105-119 | the seen-set loop equals normalizing the concatenation: every name keeps its first place |
| ModelNames.MergeIsUniq | new-api/controller/channel_upstream_update.go:105-119 | normalizing both parts first and then deduplicating gives the same list |
| ModelNames.MergeNames | new-api/controller/channel_upstream_update.go:105-119 | a merge is clean and its names are the union |
| ModelNames.MergeFresh | new-api/controller/channel_upstream_update.go:105-119 | merging clean new names appends them in order |
| ModelNames.SubtractNames | new-api/controller/channel_upstream_update.go:121-130 | a subtraction is clean and its names are the set difference |
| ModelNames.IntersectNames | new-api/controller/channel_upstream_update.go:132-141 | an intersection is clean and its names are the set intersection |
| ModelNames.ApplySelectedNames | new-api/controller/channel_upstream_update.go:143-148 | add wins over remove: a name is there afterwards iff it was added, or was there and not removed |
| ModelNames.StoredModelsReadBack | new-api/model/channel.go:289-294 | a clean comma-free list that is joined and stored reads back as itself |
| ModelNames.ModelsHaveSolidEnds | new-api/model/channel.go:289-294 | commas at the ends of the stored text name no model: of several models, neither the first nor the last is blank |
| Text.TrimDropsSpace | new-api/controller/channel_upstream_update.go:98-103 | trimming a name takes away white space at its ends and nothing else |
| Text.AsciiSpace | new-api/controller/channel_upstream_update.go:98-103 | which ASCII characters count as white space |
| ModelNames.StoredModelsAreCommaFree | new-api/model/channel.go:289-294 | whatever text is stored, the names read from it contain no comma |
| ModelNames.StoredFragments | new-api/model/channel.go:289-294 | a list of any names that is joined and stored reads back as exactly the comma-separated parts of its names |
| UpstreamUpdate.PendingAddNames | new-api/controller/channel_upstream_update.go:177-236 | pending adds are clean and are exactly the upstream names not local, not a mapping target and not held back by an ignore pattern |
| UpstreamUpdate.HeldOffIff | new-api/controller/channel_upstream_update.go:194-222 | a name is held back iff the ignore list holds it, or an expression behind "regex:", trimmed, that matches it |
| UpstreamUpdate.ProposedToAddIff | new-api/controller/channel_upstream_update.go:177-236 | a name is proposed to be added iff upstream lists it, it is no local model, no value of the mapping, and not held back |
| UpstreamUpdate.PendingRemoveNames | new-api/controller/channel_upstream_update.go:177-236 | a name is proposed to be removed iff it is a local model, upstream does not list it, and it is no key of the mapping |
| UpstreamUpdate.SettleAdds | new-api/controller/channel_upstream_update.go:397-409 | pending adds are merged at once or recorded, with the count of what was added |
| UpstreamUpdate.Channel.CheckAndPersist | new-api/controller/channel_upstream_update.go:373-420 | throttled, failed, recording and auto-applying checks all follow the row function that `ThrottledIff`, `CheckRecordsIff` and `RunKeepsAliases` describe without its parts |
| UpstreamUpdate.ThrottledIff | new-api/controller/channel_upstream_update.go:373-420 | a check does nothing iff it is not forced and a check on record is younger than the interval; any other is put on record and fails iff the provider does, changing nothing else; no check changes what the operator has set |
| UpstreamUpdate.CheckRecordsIff | new-api/controller/channel_upstream_update.go:373-420 | which names a successful check records as adds and removes, in terms of the local models, the provider list, the mapping and the ignore list |
| UpstreamUpdate.Channel.ApplyUpdates | new-api/controller/channel_upstream_update.go:793-841 | the new row and the answers follow the application function that the invariants are about |
| UpstreamUpdate.ApplySplitsPending | new-api/controller/channel_upstream_update.go:806-829 | for all inputs, an application splits the old pending lists into applied, ignored and remaining with nothing lost or doubled, and never leaves a just-added name ignored or removed |
| UpstreamUpdate.ApplyChangesModels | new-api/controller/channel_upstream_update.go:814-820 | for all inputs, the models lose what was removed and gain the comma-separated parts of what was added, so an added name becomes a model iff it has no comma |
| UpstreamUpdate.AddsAreFresh | new-api/controller/channel_upstream_update.go:177-236 | whatever the provider lists, what a check finds is not local and, pattern-like names aside, not on the ignore list |
| UpstreamUpdate.RemovesArePresent | new-api/controller/channel_upstream_update.go:177-236 | what a check proposes to remove is local |
| UpstreamUpdate.AutoSyncModels | new-api/controller/channel_upstream_update.go:397-406 | auto-sync counts every pending name; the models gain the comma-separated parts of them, which is the pending list appended in order iff no name has a comma |
| UpstreamUpdate.CheckKeepsConsistent | new-api/controller/channel_upstream_update.go:373-420 | every kind of check, with any provider answer, keeps the invariant |
| UpstreamUpdate.ApplyKeepsConsistentIff | new-api/controller/channel_upstream_update.go:793-841 | an application keeps the invariant iff no pending name that is neither selected to be added nor ignored is a comma-separated part of a pending name selected to be added |
| UpstreamUpdate.LeavesNoPartIff | new-api/controller/channel_upstream_update.go:806-829 | that condition on the inputs says that no name that stays pending is a part of an added one |
| UpstreamUpdate.PartStaysPending | new-api/controller/channel_upstream_update.go:814-829 | adding a name with a comma while its first part is pending and left over makes that part local and leaves it pending |
| UpstreamUpdate.SomePartStaysPending | new-api/controller/channel_upstream_update.go:814-829 | for every plain name there is a consistent channel and a selection with that effect |
| UpstreamUpdate.RunKeepsConsistentIff | new-api/controller/channel_upstream_update.go:373-841 | over every run, the invariant holds at every point iff no application of the run leaves a part of an added name pending |
| UpstreamUpdate.RunKeepsConsistent | new-api/controller/channel_upstream_update.go:373-841 | at the end of every run that adds no name with a comma by hand, whatever providers list, pending adds are new and not ignored, pending removes are present, and the two are disjoint |
| UpstreamUpdate.SecondDetection | new-api/controller/channel_upstream_update.go:793-841 | name by name: the second detection finds no removes and, as adds, exactly the names whose ignore patterns were themselves added |
| UpstreamUpdate.RoundKeepsIff | new-api/controller/channel_upstream_update.go:177-236 | for every provider list, a round of detection and application keeps a local model iff the provider lists it or the mapping redirects it, and adds exactly the parts of the proposed names |
| UpstreamUpdate.CheckKeepsModels | new-api/controller/channel_upstream_update.go:373-420 | no check removes a model |
| UpstreamUpdate.RunKeepsAliases | new-api/controller/channel_upstream_update.go:226-231 | over every run of checks and applications, an alias of the model mapping stays a local model and is never about to be removed |
| UpstreamUpdate.StorableSettlesIff | new-api/controller/channel_upstream_update.go:793-841 | for pending adds without commas the removes always settle, and the adds iff every held-back name keeps a pattern |
| UpstreamUpdate.SettlesIff | new-api/controller/channel_upstream_update.go:793-841 | for all inputs, detect, apply all, detect again leaves nothing pending iff no pending add contains a comma and every held-back name keeps an ignore pattern that is not itself being added |
| UpstreamUpdate.Converges | new-api/controller/channel_upstream_update.go:177-236 | in particular it leaves nothing pending when no pending add contains a comma or looks like a pattern |
| UpstreamUpdate.PatternNameUnsettles | new-api/controller/channel_upstream_update.go:822-825 | the restriction is needed: adding a model named like the only ignore pattern brings held-back names up again |
| UpstreamUpdate.SomeChannelIsUnsettled | new-api/controller/channel_upstream_update.go:822-825 | for every pattern that matches some name but not its own text there is a channel and an upstream list that one round does not settle |
| UpstreamUpdate.CommaNameNeverSettles | new-api/controller/channel_upstream_update.go:814-820 | a name with a comma never becomes a local model and is pending again after every round |
| UpstreamUpdate.SecondSyncAdds | new-api/controller/channel_upstream_update.go:397-409 | what a second auto-sync would add is exactly the names with commas that the first has added |
| UpstreamUpdate.AutoSyncConvergesIff | new-api/controller/channel_upstream_update.go:397-409 | auto-sync leaves no pending add, and a second one with the same list reports no change iff the first added no name with a comma; models and removes then stay |
| Lists.AscendingLists | new-api/controller/channel_upstream_update.go:847-858 | the ordered listing of a set of ids is increasing and holds exactly those ids |
| Lists.IncreasingUnique | new-api/controller/channel_upstream_update.go:847-858 | an increasing listing of a set is unique, so order by id leaves no choice |
| Sweep.NextPage | new-api/controller/channel_upstream_update.go:847-858 | what lies after lastID is the untouched rest of the listing, also for lastID 0 where the filter is absent |
| Sweep.FetchedPage | new-api/controller/channel_upstream_update.go:847-858 | a fetched page is the next stretch, and a short page is the last one |
| Sweep.RoundOfSweep | new-api/controller/channel_upstream_update.go:867-922 | handling the next page extends the done prefix: table and results equal one pass over it |
| Sweep.ChannelStore.VisitPage | new-api/controller/channel_upstream_update.go:880-918 | the inner loop visits every id of its page once, in order |
| Sweep.ChannelStore.SweepListed | new-api/controller/channel_upstream_update.go:867-922 | the paged loop terminates with the whole listing done, for every batch size, with the short-page exit |
| Sweep.ChannelStore.SweepAll | new-api/controller/channel_upstream_update.go:948-995 | every enabled channel is visited exactly once in ascending id order and no other row changes |
| UpstreamSweep.ApplyAll | new-api/controller/channel_upstream_update.go:860-939 | the apply-all endpoint applies exactly the pending lists of the eligible channels, reports each once with what was applied and what remains, and totals the report |
| UpstreamSweep.DetectAll | new-api/controller/channel_upstream_update.go:941-1012 | the detect-all endpoint checks every enabled, checked channel once without auto-sync, reports pending lists, check time and failures, and totals the report |
| UpstreamSweep.RoundSettlesRowIff | new-api/controller/channel_upstream_update.go:860-1012 | a round settles a channel, also when there was nothing to apply, iff no pending add has a comma and no ignored name resurfaces |
| UpstreamSweep.SweepsConvergeIff | new-api/controller/channel_upstream_update.go:860-1012 | detect-all, apply-all, detect-all leaves nothing pending on an enabled, checked, answered channel iff that condition holds for it |
| UpstreamSweep.SweepsKeepIff | new-api/controller/channel_upstream_update.go:860-1012 | a round over the table keeps a model of an enabled, checked, answered channel iff its provider lists it or its mapping redirects it |
| UpstreamSweep.SweepsKeepAliases | new-api/controller/channel_upstream_update.go:860-1012 | a round over any table with any providers removes no alias of any channel |
| UpstreamSweep.AppliedIffPending | new-api/controller/channel_upstream_update.go:884-892 | apply-all reports a channel iff checks are switched on and some name is pending, and leaves any other as it is |
| UpstreamSweep.ReportsApplied | new-api/controller/channel_upstream_update.go:889-916 | the report holds every pending add as added and none as remaining, and as removed every pending remove that is not also a pending add |
| UpstreamSweep.ApplyAllConserves | new-api/controller/channel_upstream_update.go:860-939 | between consistent rows with storable adds, the models of the whole table grow by the additions that apply-all reports less its removals |
| UpstreamSweep.ReportsDetected | new-api/controller/channel_upstream_update.go:964-989 | the detection report and its counts hold exactly what the channel now has pending; a failed or switched-off channel is left alone |
| MultiKey.Channel.GetKeyStatus | new-api/controller/channel.go:1443-1555 | the page shown is a clamped slice of the filtered listing, with totals over all keys |
| MultiKey.BuildStatuses | new-api/controller/channel.go:1456-1504 | every key is listed with its own status, time and reason, and the three totals count the listing |
| MultiKey.EntryShows | new-api/controller/channel.go:1461-1489 | a key without a record is shown as enabled, an enabled one without time and reason, any other with its recorded status, time and reason |
| MultiKey.PreviewHidesRest | new-api/controller/channel.go:1491-1495 | no more than ten characters of a key are shown, and a short key in full |
| MultiKey.FilterStatuses | new-api/controller/channel.go:1506-1516 | the status filter keeps matching entries in order, and everything without a filter |
| MultiKey.Paginate | new-api/controller/channel.go:1518-1538 | page number and size are defaulted and clamped to existing pages |
| MultiKey.DefaultPage | new-api/controller/channel.go:1446-1538 | without a page size, up to 50 keys are shown whole and a longer listing starts with exactly 50 |
| MultiKey.PagesCoverListing | new-api/controller/channel.go:1518-1538 | reading every page in turn shows the filtered listing once, for every page size |
| MultiKey.Channel.DisableKey | new-api/controller/channel.go:1557-1598 | missing and out-of-range positions are refused without change, otherwise one status is recorded |
| MultiKey.Channel.EnableKey | new-api/controller/channel.go:1600-1640 | missing and out-of-range positions are refused without change, otherwise every record of the key goes |
| MultiKey.Channel.EnableAllKeys | new-api/controller/channel.go:1642-1664 | every record of every key goes and the number of recorded statuses is reported |
| MultiKey.Channel.DisableAllKeys | new-api/controller/channel.go:1666-1711 | nothing happens without an enabled key; otherwise each enabled key is disabled and counted |
| MultiKey.DisableEnabled | new-api/controller/channel.go:1678-1690 | the loop records exactly the enabled positions and counts them |
| MultiKey.Channel.DeleteKey | new-api/controller/channel.go:1713-1791 | refusals change nothing, the last key cannot be deleted, otherwise keys and records are compacted alike |
| MultiKey.RemoveAt | new-api/controller/channel.go:1731-1763 | the renumbering loop moves every remaining key with its own records |
| MultiKey.Channel.DeleteDisabledKeys | new-api/controller/channel.go:1793-1860 | nothing happens without an automatically disabled key; otherwise exactly those are taken out |
| MultiKey.PruneOne | new-api/controller/channel.go:1802-1830 | one round drops an automatically disabled key and otherwise moves the key with its records |
| MultiKey.Prune | new-api/controller/channel.go:1794-1831 | the loop keeps all other keys in order with their records and counts what it drops |
| MultiKey.Channel.Save | new-api/model/channel.go:526-573 | an empty key text is not written; the size is recomputed and statuses beyond it are dropped |
| MultiKey.StoredKeysReadBack | new-api/model/channel.go:175-197 | a newline-free list reads back as it was joined iff neither its first nor its last key is blank, and otherwise comes back shorter |
| MultiKey.CompactedView | new-api/controller/channel.go:1737-1763 | compacting keys and records alike compacts and renumbers the listing |
| MultiKey.CompactionCommutes | new-api/controller/channel.go:1713-1860 | the stored result shows the compacted listing iff the remaining list has solid ends, and is then aligned |
| MultiKey.DeleteKeyCommutesWithView | new-api/controller/channel.go:1713-1791 | after delete_key the listing is the old one without that entry, renumbered, iff the remaining list has solid ends |
| MultiKey.DeleteDisabledCommutesWithView | new-api/controller/channel.go:1793-1860 | after delete_disabled_keys the listing is the old one without the automatically disabled entries iff what remains has solid ends |
| MultiKey.DeletingEveryKeyEnablesAll | new-api/controller/channel.go:1793-1860 | with every key automatically disabled, all are reported deleted, kept and enabled |
| MultiKey.DisableKeyOnView | new-api/controller/channel.go:1557-1598 | one entry of the listing changes, to manually disabled, and alignment survives |
| MultiKey.EnableKeyOnView | new-api/controller/channel.go:1600-1640 | one entry of the listing becomes enabled without time and reason, and alignment survives |
| MultiKey.EnablingForgets | new-api/controller/channel.go:1557-1640 | a key that is enabled and disabled again by hand shows neither the old time nor the old reason |
| MultiKey.DisableAllOnView | new-api/controller/channel.go:1666-1711 | enabled entries become manually disabled, all other entries stay as they are, and alignment survives |
| MultiKey.EnableAllOnView | new-api/controller/channel.go:1642-1664 | every entry becomes enabled without time and reason, and alignment survives |
| MultiKey.AppendKeys | new-api/controller/channel.go:1030-1103 | the append branch stores the existing keys followed by the trimmed new ones |
| MultiKey.DedupeAgainst | new-api/controller/channel.go:1080-1099 | the loop with the seen map keeps first occurrences that are not known |
| MultiKey.FreshKeysAreNew | new-api/controller/channel.go:1071-1099 | appended keys are trimmed, distinct and not present before, and every non-blank input line ends up present |
| MultiKey.AppendKeepsIndices | new-api/controller/channel.go:1030-1103 | existing keys stay a prefix iff the stored text holds more than newlines or nothing is appended; then aligned records stay aligned and unchanged, and the old listing is the start of the new one |
| MultiKey.AppendTwiceIsAppendOnce | new-api/controller/channel.go:1080-1102 | appending the same input to the extended list again adds nothing |
| MultiKey.SecondAppendKeepsKeys | new-api/controller/channel.go:1030-1103 | on the stored text, a second append of the same input reads back as the first left it, also from an empty start |
| RatioSync.BuildCell | new-api/controller/ratio_sync.go:605-629 | a channel's cell and its effect on the difference flag, whose meaning in numbers is `PricesAgreeIff` |
| RatioSync.BuildRow | new-api/controller/ratio_sync.go:594-641 | a row holds every channel's cell and is wanted iff some channel raises the flag, or offers a value that local lacks |
| RatioSync.CollectPass | new-api/controller/ratio_sync.go:593-654 | the collecting loops give the wanted rows, whatever the iteration order |
| RatioSync.DifferingPass | new-api/controller/ratio_sync.go:656-665 | the second pass finds exactly the channels with a visible value somewhere |
| RatioSync.PrunePass | new-api/controller/ratio_sync.go:667-693 | the in-place pruning equals restricting every row and dropping those that agree, whatever the iteration order |
| RatioSync.BuildDifferences | new-api/controller/ratio_sync.go:536-696 | the passes together compute the comparison that the closed form, and for prices `PriceSurvivesIff` and `PriceShown`, describe |
| RatioSync.IncludedIffDiffers | new-api/controller/ratio_sync.go:631-641 | for values of any kind, a row is collected iff some channel differs from the local value |
| RatioSync.VisibleIff | new-api/controller/ratio_sync.go:615-629 | a cell is visible iff the channel differs there with a value that is neither null nor the agreement word |
| RatioSync.StaysIff | new-api/controller/ratio_sync.go:656-665 | for values of any kind, a channel passes the second pass iff it has a visible difference somewhere |
| RatioSync.SurvivesIff | new-api/controller/ratio_sync.go:536-696 | for values of any kind, a (model, field) pair survives iff some channel differs in it and some channel with a visible difference somewhere has a cell in it other than agreement |
| RatioSync.DifferenceShownIff | new-api/controller/ratio_sync.go:667-693 | exactly when a differing channel is shown in the surviving row: it offers neither the agreement word nor null against nothing, and has a visible difference somewhere |
| RatioSync.SurvivesIffDiffers | new-api/controller/ratio_sync.go:536-696 | with plain values everywhere a pair survives iff the field is synchronised and some channel differs |
| RatioSync.DifferenceSurvives | new-api/controller/ratio_sync.go:667-693 | with plain values everywhere every differing channel is shown in its row |
| RatioSync.SurvivingRow | new-api/controller/ratio_sync.go:643-693 | for values of any kind, a surviving row lists exactly the channels with a visible difference somewhere, each with its own cell and confidence, beside the local value |
| RatioSync.ConfidenceAt | new-api/controller/ratio_sync.go:558-591 | every channel's confidence is its own: false exactly for the placeholder price pair |
| RatioSync.UntrustedIff | new-api/controller/ratio_sync.go:558-591 | a channel is not trusted with a model iff its model ratio is within 1e-9 of 37.5 and its completion ratio within 1e-9 of 1 |
| RatioSync.ReservedWordHidesDifference | new-api/controller/ratio_sync.go:615-629 | in every field, a lone channel that offers the agreement word against nothing differs and is still dropped |
| RatioSync.PricesAgreeIff | new-api/controller/ratio_sync.go:48-62 | two numbers in one of the eight price fields, real or integer, get the mark of agreement iff they are less than 1e-9 apart; otherwise the cell is the channel's number |
| RatioSync.TextsAgreeIff | new-api/controller/ratio_sync.go:55-62 | two texts in another field agree iff they are equal |
| RatioSync.PriceSurvivesIff | new-api/controller/ratio_sync.go:536-696 | for price tables, a pair survives iff some channel has a price that local lacks or that is at least 1e-9 away |
| RatioSync.PriceShown | new-api/controller/ratio_sync.go:605-693 | every such channel is then shown with its own price |
| ModelsDev.SortKeys | new-api/controller/ratio_sync.go:915-919 | an ascending listing of exactly the map's keys |
| ModelsDev.SortedListingUnique | new-api/controller/ratio_sync.go:915-919 | there is only one such listing, so map iteration order cannot matter |
| ModelsDev.AddProvider | new-api/controller/ratio_sync.go:928-943 | one provider improves every model's candidate independently of the order of its models |
| ModelsDev.SelectCandidates | new-api/controller/ratio_sync.go:915-944 | the loops select, for every model, the fold over every sorted listing of the providers |
| ModelsDev.SelectsCheapestNonZero | new-api/controller/ratio_sync.go:881-905 | a zero price is selected only if every valid candidate is zero, otherwise the price is below every non-zero candidate's plus 1e-9; nothing is selected iff no candidate is valid |
| ModelsDev.CandidateIff | new-api/controller/ratio_sync.go:845-879 | a provider makes a candidate iff it lists an input cost, no negative cost, and no priced output on a free input; the candidate carries its costs |
| ModelsDev.SelectsCheapestCost | new-api/controller/ratio_sync.go:845-943 | in the listed costs: nothing is selected iff no provider prices the model convertibly; otherwise the selected cost is less than 1e-9 above every positive one, and can be converted |
| ModelsDev.BetterKeepsPolicy | new-api/controller/ratio_sync.go:881-893 | one comparison with a later provider keeps the bound although the comparison is not transitive |
| ModelsDev.DescendingOrderDrifts | new-api/controller/ratio_sync.go:915-924 | the ascending order is needed: in descending order the selected price can drift past the bound |
| DiskCache.DiskCacheStats.IncrementDiskFiles | new-api/common/disk_cache_config.go:108-112 | one file and its bytes more, memory counters unchanged |
| DiskCache.DiskCacheStats.DecrementDiskFiles | new-api/common/disk_cache_config.go:114-122 | one file and its bytes less, each counter clamped at zero on its own |
| DiskCache.DiskCacheStats.IncrementMemoryBuffers | new-api/common/disk_cache_config.go:124-128 | one buffer and its bytes more, disk counters unchanged |
| DiskCache.DiskCacheStats.DecrementMemoryBuffers | new-api/common/disk_cache_config.go:130-134 | one buffer and its bytes less, without clamping |
| DiskCache.DiskCacheStats.CleanupOldFiles | new-api/common/disk_cache.go:109-138 | exactly the old, readable, removable files are taken off the counters |
| DiskCache.CleanupOnlyLowers | new-api/common/disk_cache.go:109-138 | a cleanup leaves the memory counters alone, only lowers the disk counters, never below zero, and changes nothing when it deletes nothing |
| DiskCache.CleanupTakesStale | new-api/common/disk_cache.go:109-138 | a cleanup takes off exactly the number and the bytes of the removable files that are older than the age, down to zero at most |
| DiskCache.GoesToDiskIff | new-api/common/body_storage.go:240-280 | a body goes to disk iff caching is on and its size, or a positive declared length, is at least the threshold and fits under the maximum |
| DiskCache.ClosingSubtracts | new-api/common/body_storage.go:65-72 | closing a body takes exactly its share off the open count and bytes |
| DiskCache.StepConserves | new-api/common/body_storage.go:37-196 | every creation, close and cleanup keeps the counters in step with the open bodies |
| DiskCache.RunConserves | new-api/common/body_storage.go:37-196 | over every run, with repeated closes, memory counters equal the open memory bodies; disk counters equal the open disk bodies until a cleanup deletes a file and stay between zero and them afterwards |
| DiskCache.RunStaysWithinMaximum | new-api/common/disk_cache_config.go:169-177 | tracked disk bytes stay within the maximum over every run whose streamed bodies are no longer than declared |
| DiskCache.RunStaysWithinIff | new-api/common/body_storage.go:261-280 | over every run they stay within the maximum at every point iff no streamed body goes to disk under a declared length that fits while its bytes do not |
| DiskCache.StreamExceedsMaximumIff | new-api/common/body_storage.go:261-280 | one streamed body passes the maximum iff it goes to disk under a declared length that fits while its bytes do not |
| BodyStorage.MemoryStorage.constructor | new-api/common/body_storage.go:37-45 | an open store at position 0, counted with its size |
| BodyStorage.MemoryStorage.Read | new-api/common/body_storage.go:47-54 | the abstract read: what is left up to the room, end of data, or closed |
| BodyStorage.MemoryStorage.Seek | new-api/common/body_storage.go:56-63 | the abstract seek from all three origins; before the start is refused and nothing moves |
| BodyStorage.MemoryStorage.Close | new-api/common/body_storage.go:65-72 | the counters are decremented by the first close only |
| BodyStorage.MemoryStorage.Bytes | new-api/common/body_storage.go:74-81 | everything, whatever has been read |
| BodyStorage.DiskStorage.constructor | new-api/common/body_storage.go:100-167 | an open store at position 0, counted with its size |
| BodyStorage.DiskStorage.Read | new-api/common/body_storage.go:169-176 | the abstract read, with the file's answer to an empty buffer |
| BodyStorage.DiskStorage.Seek | new-api/common/body_storage.go:178-185 | the same abstract seek as the memory store |
| BodyStorage.DiskStorage.Close | new-api/common/body_storage.go:187-196 | the counters are decremented by the first close only |
| BodyStorage.DiskStorage.Bytes | new-api/common/body_storage.go:198-230 | everything, with the read position restored |
| BodyStorage.Storage.Read | new-api/common/body_storage.go:13-23 | either store's read is the one abstract answer and step |
| BodyStorage.Storage.Seek | new-api/common/body_storage.go:13-23 | either store's seek is the one abstract answer and step |
| BodyStorage.Storage.Bytes | new-api/common/body_storage.go:13-23 | either store gives all bytes and keeps its state |
| BodyStorage.Storage.Close | new-api/common/body_storage.go:13-23 | either store closes and releases its own counters once |
| BodyStorage.StoresAgreeIff | new-api/common/body_storage.go:28-238 | over every sequence of operations both stores give the same answers iff no empty read happens at the end of an open store |
| BodyStorage.BytesGiveEverything | new-api/common/body_storage.go:74-230 | after any reads and seeks either store gives all of its bytes until it is closed, and an error afterwards |
| BodyStorage.RewoundReadsFromStart | new-api/common/body_storage.go:47-185 | a rewound store is read from its first byte again, whatever came before |
| BodyStorage.CreateBodyStorage | new-api/common/body_storage.go:240-259 | all bytes are stored, on disk iff the size reaches the threshold and fits, with a fallback to memory when the disk fails |
| BodyStorage.Reader.TakeUpTo | new-api/common/body_storage.go:139-151 | a limited read takes a prefix off the stream; it fails on a closed stream, or past the last byte of a broken one |
| BodyStorage.CreateBodyStorageFromReader | new-api/common/body_storage.go:261-303 | absent disk failures it succeeds iff the stream is open, ends without an error and has at most maxBytes bytes, stores all of it whichever path is taken, and changes no counter otherwise |
| Relay.Context.GetBodyStorage | new-api/common/gin.go:36-96 | a stored body is rewound and otherwise untouched; the first read stores the whole incoming body iff it is within the configured limit, 128 MB unless a positive one is set; a refused body stays refused; a closed store is refused |
| Relay.Context.UnmarshalBodyReusable | new-api/common/gin.go:108-155 | however far the parser reads, success leaves the store at position 0 and the whole body available again |
| Relay.Context.ParseMultipartFormReusable | new-api/common/gin.go:255-291 | success leaves the store at position 0 and the whole body available again |
| Relay.Context.CleanupBodyStorage | new-api/common/gin.go:98-106 | the store is closed and forgotten |
| Relay.Drain | new-api/controller/relay.go:196-209 | reading in pieces of any size to the end gives exactly what remained |
| Relay.Offer | new-api/controller/relay.go:196-209 | a handler call is offered the complete original body, wherever earlier consumers left it |
| ChannelSelect.RetryParam.IncreaseRetry | new-api/service/channel_select.go:33-42 | the counter grows by one, or a skip that was asked for is used up |
| ChannelSelect.RetryParam.SelectAuto | new-api/service/channel_select.go:89-154 | the loop over the groups follows the search function: counter, skip and group position after it, and whether a channel was found |
| ChannelSelect.SelectionMoves | new-api/service/channel_select.go:83-172 | a selection that finds a channel leaves the counter alone or moves to a later group and sets the counter to 0; a search needs a group to be left |
| Relay.OneRound | new-api/controller/relay.go:190-236 | one round: selection, the whole body offered, and going on exactly when the handler failed and the policy allows it with the retries left after the selection |
| Relay.RelayLoop | new-api/controller/relay.go:190-236 | every attempt forwards the complete original body, and the run follows the function of the environment with the counter as selection leaves it |
| Relay.RelayRequest | new-api/controller/relay.go:116-248 | quota is taken at most once, exactly by a granted pre-consumption, and given back iff the run ends in an error; which failures end the run is `FailureEndsRunIff`; every attempt forwards the complete body |
| Relay.RelayTask | new-api/controller/relay.go:501-603 | a run that ends has exactly one outcome: settled without an error, refunded iff it ends with an error after some attempt had pre-consumed quota; every attempt forwards the complete body |
| Relay.EndsWellIff | new-api/controller/relay.go:190-236 | a run ends without an error iff its last attempt succeeded or no attempt was allowed; every earlier attempt failed |
| Relay.TaskNeedsAnAttempt | new-api/controller/relay.go:516-574 | the missing result is used iff the retry setting is negative |
| Relay.FailureEndsRunIff | new-api/controller/relay.go:324-354 | in the fields of the failure: which failures end a run of Relay after this attempt and which go on with the increased counter |
| Relay.TaskFailureEndsRunIff | new-api/controller/relay.go:613-653 | the same for RelayTask: 429 and 307 go on, server errors unless never retried, and 400, 408, local errors and successes end the run |
| Relay.RetriedFailures | new-api/controller/relay.go:190-354 | over whole runs: a failure that another attempt follows was a channel error, or unpinned, not a success, and of a status that may be retried |
| Relay.RetriedTaskFailures | new-api/controller/relay.go:516-653 | the same over whole runs of RelayTask |
| Relay.PinnedCallersGetOneAttempt | new-api/controller/relay.go:340-342 | a caller that pinned a channel gets at most one attempt, unless it ends in a channel error |
| Relay.AttemptsBounded | new-api/service/channel_select.go:33-172 | however channels are chosen, at most RetryTimes + 1 attempts, plus RetryTimes + 1 for each group that a search can still move to |
| Relay.PlainAttemptsBounded | new-api/controller/relay.go:190-236 | without searches in auto groups, at most RetryTimes + 1 attempts |
| Relay.AutoAttemptsBounded | new-api/service/channel_select.go:89-154 | when all attempts, or all but the first, search in auto groups, at most RetryTimes + 1 attempts for each group from the remembered one on |
| ChannelSelect.AllowanceIsProduct | new-api/service/channel_select.go:106-154 | that allowance is (RetryTimes + 1) times the number of groups left |
| Relay.EveryGroupIsUsed | new-api/service/channel_select.go:137-147 | the bound is met: with cross-group retry and lasting failures every group uses its whole allowance before the run ends in an error |
| Midjourney.TaskTable.UpdateWithStatus | new-api/model/midjourney.go:160-171 | the row is replaced iff its status is still the one the caller saw |
| Midjourney.TaskTable.IncreaseUserQuota | new-api/controller/midjourney.go:179-183 | the amount returned for a task grows by the given quota |
| Midjourney.CopyAnswer | new-api/controller/midjourney.go:134-166 | the field-by-field assignments amount to one copy that keeps the task's id and quota |
| Midjourney.Poller.HandleItem | new-api/controller/midjourney.go:121-197 | one response item: timeout, comparison, copy, failure, compare-and-set and refund follow the step function of the runs, and `AnswerReturnsQuotaIff` says in the fields of the answer when it returns quota; an unknown id panics before anything changes |
| Midjourney.SkippedIff | new-api/controller/midjourney.go:202-255 | an answer is skipped iff copying its compared fields changes nothing and it gives an unfinished task no reason for failing |
| Midjourney.AnswerReturnsQuotaIff | new-api/controller/midjourney.go:124-183 | an answer returns the quota iff it wins the write, changes something, and the task is over an hour late, or a reason comes below full progress, or FAILURE at full progress; nothing is returned for other tasks |
| Midjourney.UneventfulRunReturnsNothing | new-api/controller/midjourney.go:121-197 | over every run whose answers give no reason, do not say FAILURE and are in time, nothing is returned for any task |
| Midjourney.HonestUpdate | new-api/controller/midjourney.go:124-175 | for an answer that is honest after the timeout override, a refund is decided exactly together with writing FAILURE, at full progress, for a task that cost something |
| Midjourney.StepKeepsInvariant | new-api/controller/midjourney.go:121-197 | every snapshot, bulk failure and answer of any kind keeps ids and quotas, and changes what is returned for a task exactly by its quota when the answer fails it and wins the write |
| Midjourney.RunKeepsInvariant | new-api/controller/midjourney.go:121-197 | ids, quotas and snapshots stay in step in every state of every run |
| Midjourney.ReturnedIsCounted | new-api/controller/midjourney.go:121-197 | over every run with any answers, any number of pollers and stale snapshots, what has been returned for a task is its quota times the number of answers that fail it and win the write |
| Midjourney.RefundAtMostOnceIff | new-api/controller/midjourney.go:121-197 | so over every run it is 0 or exactly the quota iff at most one answer fails the task and wins the write |
| Midjourney.TimeoutIsHonest | new-api/controller/midjourney.go:124-129 | the timeout override makes every answer honest |
| Midjourney.OrderlyStep | new-api/controller/midjourney.go:124-183 | for an honest answer that leaves a known failure alone, a refund takes the row from another status to FAILURE, and a failed row that cost something stays failed |
| Midjourney.OrderlyRunRefundsOnce | new-api/controller/midjourney.go:121-197 | over a run of such answers at most one answer refunds a task |
| Midjourney.RefundAtMostOnce | new-api/controller/midjourney.go:121-197 | over such runs, with any number of pollers and stale snapshots, what is returned for a task is 0 or exactly its quota |
| Midjourney.StalePairBreaksIff | new-api/controller/midjourney.go:121-183 | two answers handled from one snapshot return another amount iff both meet the failure condition, the first keeps the status, and the task cost something |
| Midjourney.RepeatedAnswerBreaksIff | new-api/controller/midjourney.go:121-183 | two answers in one response return another amount iff both meet the failure condition, the second changes what the first wrote, and the task cost something |
| Midjourney.DishonestAnswerRefundsTwice | new-api/controller/midjourney.go:168-183 | a failure reason without the status FAILURE lets two pollers with one snapshot both refund |
| Midjourney.RepeatedAnswerRefundsTwice | new-api/controller/midjourney.go:121-183 | an honest failure below full progress that appears twice in one response refunds twice |
| Midjourney.UnreasonedFailureRefundsTwice | new-api/controller/midjourney.go:168-183 | FAILURE below full progress without a reason returns nothing and leaves a row whose next failure is refunded to every poller that saw it |
| Midjourney.ThreeAnswersRefundTwice | new-api/controller/midjourney.go:121-183 | a run in which a stale answer makes a refunded row unfinished again, so that a fresh failure refunds it a second time |
| OggScan.ReadSeeker.Read | new-api/common/audio.go:208-217 | a read gives the next bytes up to the room and moves behind them |
| OggScan.PageSize | new-api/common/audio.go:241-245 | the page size is the sum of the segment table |
| OggScan.SkipPage | new-api/common/audio.go:234-248 | the position ends behind the page, unless its segment table is cut off |
| OggScan.ScanGranules | new-api/common/audio.go:196-249 | on arbitrary bytes the scan terminates and reports the maximum over the headers it takes for pages, and 0 |
| OggScan.GetOpusDuration | new-api/common/audio.go:196-254 | the duration is that maximum over 48000 |
| OggScan.LittleEndianRoundTrip | new-api/common/audio.go:228-229 | the granule bytes decode to the number that was written |
| OggScan.EncodeLayout | new-api/common/audio.go:219-248 | a page laid out by section 6 of RFC 3533 has the fields where the scan looks for them |
| OggScan.LaidOutIsVisited | new-api/common/audio.go:207-249 | a page anywhere in the data is visited once and the scan goes on right behind it |
| OggScan.BlocksAreVisited | new-api/common/audio.go:207-249 | consecutive pages are visited one by one |
| OggScan.JunkIsSkipped | new-api/common/audio.go:219-226 | bytes without a page mark are skipped one at a time without losing a page |
| OggScan.ScanVisitsEveryPageOnce | new-api/common/audio.go:196-249 | on any concatenation of well-formed pages, behind bytes without an earlier page mark, the scan visits exactly the pages, each at its start |
| OggScan.ReportsLargestGranule | new-api/common/audio.go:196-254 | so the reported position is the largest signed granule position, or 0 |
| OggScan.PageStartsWithMark | new-api/common/audio.go:219-220 | an encoded page starts with the letters OggS |
| OggScan.NothingWithoutMark | new-api/common/audio.go:207-226 | data without these letters has no page and no duration |
| Varint.EncodeVarint | antigravity-manager/cli/proto_utils.py:6-16 | negative numbers are refused; otherwise the loop gives the recursive encoding |
| Varint.ReadVarint | antigravity-manager/cli/proto_utils.py:19-32 | the shifting loop reads the varint at the offset and the position behind it, or reports incomplete data |
| Varint.RoundTrip | antigravity-manager/cli/proto_utils.py:6-32 | reading inverts writing for every natural number and every suffix |
| Varint.PrefixFree | antigravity-manager/cli/proto_utils.py:6-16 | no encoding is a prefix of another one |
| Varint.TruncatedIsIncomplete | antigravity-manager/cli/proto_utils.py:19-32 | every proper prefix of an encoding is reported as incomplete |
| Varint.Canonical | antigravity-manager/cli/proto_utils.py:6-16 | among all byte strings that read as a number, its encoding is the only shortest one |
| Base64.RoundTrip | antigravity-manager/cli/proto_utils.py:75-126 | decoding inverts the padded encoding of section 4 of RFC 4648 for all bytes |
| Base64.Alphabet | antigravity-manager/cli/proto_utils.py:75-126 | the digits are those of table 1 of RFC 4648 |
| Base64.EncodedLength | antigravity-manager/cli/proto_utils.py:75-126 | every three bytes begun take four characters |
| Base64.PaddedIff | antigravity-manager/cli/proto_utils.py:75-126 | the text ends in the padding sign iff the length is no multiple of three |
| OAuthToken.FieldRoundTrip | antigravity-manager/cli/proto_utils.py:34-39 | a length-delimited field reads back with its number, its contents and what follows |
| OAuthToken.ShortFieldBytes | antigravity-manager/cli/proto_utils.py:34-54 | the exact bytes of short fields and timestamps: number and wire type, length, value |
| OAuthToken.FixedTexts | antigravity-manager/cli/proto_utils.py:56-112 | the fixed texts of the messages, letter by letter |
| OAuthToken.TimestampRoundTrip | antigravity-manager/cli/proto_utils.py:41-54 | the seconds read back from the timestamp message |
| OAuthToken.OAuthInfoRoundTrip | antigravity-manager/cli/proto_utils.py:56-70 | both tokens and the expiry read back from the four fields |
| OAuthToken.EnvelopeRoundTrip | antigravity-manager/cli/proto_utils.py:107-118 | the doubly wrapped text reads back from behind the sentinel |
| OAuthToken.UnifiedTokenRoundTrip | antigravity-manager/cli/proto_utils.py:72-126 | a token is produced iff the expiry is not negative, and access token, refresh token and expiry read back from it |
| OAuthToken.UnifiedTokenInjective | antigravity-manager/cli/proto_utils.py:72-126 | different credentials give different tokens |
| ModelMeta.Split | new-api/controller/model_meta.go:169-183 | every row that is there is listed exactly once, as exact or as rule |
| ModelMeta.FillExact | new-api/controller/model_meta.go:185-203 | every exact model gets its own channels, groups and quota types, and no other row changes |
| ModelMeta.ScanPrice | new-api/controller/model_meta.go:218-260 | one price changes exactly the summaries of the rule models it matches, which `MatchesIff` states by rule |
| ModelMeta.MatchesIff | new-api/controller/model_meta.go:218-233 | a price matches iff its name is the rule's name followed by, preceded by, or inside anything, by rule; an unknown rule matches nothing |
| ModelMeta.ListedInOrder | new-api/controller/model_meta.go:218-233 | the listed names are those of the matching prices, one for each, in the order of the price list |
| ModelMeta.SummaryGathers | new-api/controller/model_meta.go:218-260 | names, endpoints, groups and quota types of a summary are exactly those of the matching prices |
| ModelMeta.ScanPrices | new-api/controller/model_meta.go:218-260 | the one-pass scan gives every rule model the summary of scanning for it alone |
| ModelMeta.MatchedNames | new-api/controller/model_meta.go:262-273 | the batched channel query asks for every name that any rule model matched |
| ModelMeta.BoundToSubset | new-api/controller/model_meta.go:262-317 | asking for all matched names at once gives each model the channels of asking for its own names |
| ModelMeta.AddChannel | new-api/controller/model_meta.go:313-316 | adding a channel under its key adds exactly that channel to the set |
| ModelMeta.UnionChannels | new-api/controller/model_meta.go:309-324 | the keyed map collects exactly the union of the channels of the matched names |
| ModelMeta.KeyInjective | new-api/controller/model_meta.go:314-314 | name, underscore and type identify a channel, whatever the name contains |
| ModelMeta.FillRule | new-api/controller/model_meta.go:276-329 | a rule model is filled from its summary; set endpoints and unmatched models are not disturbed |
| ModelMeta.FillRules | new-api/controller/model_meta.go:205-329 | every rule model ends as if computed alone, and no other row changes |
| ModelMeta.EnrichModels | new-api/controller/model_meta.go:164-330 | the batch gives every row what computing that row alone gives, in place; `RowListsIff`, `RowGathersIff`, `RowChannelsIff` and `ExactRow` say what that is |
| ModelMeta.RowListsIff | new-api/controller/model_meta.go:326-328 | a rule row lists a name iff some price has it and the rule concerns it |
| ModelMeta.RowGathersIff | new-api/controller/model_meta.go:276-307 | a rule row gets exactly the groups, ascending quota types and, if it had none, endpoints of those prices; without such prices it keeps what it had |
| ModelMeta.RowChannelsIff | new-api/controller/model_meta.go:309-324 | a rule row gets exactly the channels bound to those names, or keeps its own when there are none or the query fails |
| ModelMeta.ExactRow | new-api/controller/model_meta.go:185-203 | an exact row gets the channels, groups and quota types of its own name, and its endpoints unless it had some |
| StepUp.RequestSession.PasskeyVerifyFinish | new-api/controller/passkey.go:490-498 | a passkey login replaces any proof by a marker, and only if the session is saved |
| StepUp.RequestSession.ConsumePasskeyReady | new-api/controller/secure_verification.go:157-179 | a marker is taken whether it is fresh or not, and counts only if it is younger than 60 seconds and the save worked |
| StepUp.RequestSession.SetSecureVerificationSession | new-api/controller/secure_verification.go:145-155 | the proof with its method replaces marker and older proof, and only if saved |
| StepUp.RequestSession.UniversalVerify | new-api/controller/secure_verification.go:75-130 | every branch of the method switch, including the refusals that still take the marker |
| StepUp.RequestSession.RequireSecureVerificationMethod | new-api/controller/passkey.go:564-581 | a requirement passes only with a fresh proof of its own method; a stale proof is removed |
| StepUp.MarkerHasSource | new-api/controller/passkey.go:490-498 | the marker of every issued session was written by one saved passkey login that the session goes back to, and a session without such a login has none |
| StepUp.ProofHasSource | new-api/controller/secure_verification.go:145-155 | the proof of every issued session was left by one successful verification that the session goes back to, with no passkey login on the way |
| StepUp.VerificationSucceedsIff | new-api/controller/secure_verification.go:98-179 | a passkey verification succeeds iff the user has a passkey, both saves work and the presented session holds a marker younger than 60 seconds; the answer no longer holds it |
| StepUp.RequirementPassesIff | new-api/controller/passkey.go:564-581 | a requirement passes iff the presented session goes back to a verification of its method less than 300 seconds old |
| StepUp.AnyRequirementPassesIff | new-api/middleware/secure_verification.go:22-74 | over every run, the middleware passes a request iff the presented session goes back to some verification less than 300 seconds old |
| StepUp.VerifiesIff | new-api/controller/secure_verification.go:75-155 | a verification succeeds iff a code is given and valid under 2FA, or a marker under 60 seconds old is presented with a passkey, and the saves work; what the session then holds |
| StepUp.ProofsPassIff | new-api/middleware/secure_verification.go:37-81 | which proofs the middleware and a requirement let pass, and that others are taken out of the session |
| StepUp.PasskeyRequirementIsBacked | new-api/controller/passkey.go:564-581 | whenever a passkey requirement passes, the presented session goes back to a passkey verification less than 300 seconds before, which took a marker written less than 60 seconds before it, with no passkey login on the way |
| StepUp.TwoFactorRequirementIsBacked | new-api/controller/passkey.go:564-581 | whenever a 2FA requirement passes, the presented session goes back to an accepted code less than 300 seconds before, with no passkey login on the way |
| StepUp.MarkerServesOnceIff | new-api/controller/secure_verification.go:157-179 | a marker serves at most one verification iff no two requests present sessions that hold it, in time and able to verify |
| StepUp.MarkerServesOnce | new-api/controller/secure_verification.go:157-179 | a marker serves at most once as long as no issued session that holds it is presented twice |
| StepUp.RepeatedRequestAnswersAlike | new-api/main.go:178-187 | the session is what the cookie presents, so a repeated request is answered alike whatever happened in between |
| StepUp.MarkerServesAgain | new-api/controller/secure_verification.go:157-179 | so a marker that served serves again when its session is presented again in time |
| StepUp.TwoSessionsHoldOneMarker | new-api/controller/passkey.go:564-581 | a request that keeps the marker issues a second session that holds it, so counting verifications per session is not enough |
| StepUp.SequentialRequirementIsBacked | new-api/controller/passkey.go:564-581 | for a client that always presents the newest session, no passkey login lies between verification and requirement, and the marker serves once |

## Left out

- HTTP handling, database queries, Redis, mail, WebAuthn, payments, OAuth providers and the web and desktop clients: I/O and library calls.
- Database write failures: every write of a row succeeds; what an endpoint reports when one fails is not modelled.
- Concurrency beyond the pollers of `Midjourney` and the eviction steps of `RateLimit`: mutexes and races of single operations.
- The regular expression engine (any predicate), JSON parsing of mappings, settings and requests, hashing and encryption, text encodings.
- The background reconciliation task's counters and notification texts; its sweep loop is the one in `Sweep`.
- Channel keys stored as a JSON array, and the Vertex key forms of the append branch: their results depend on parsers that are not part of this model.
- MultiKey.Channel.GetKeyStatus: does not model 64-bit wrap-around of page numbers and sizes near 2^63, or keys stored as a JSON array; a key preview counts characters, not bytes.
- MultiKey.Channel.Save: does not model the JSON-array form of the key text, because its keys come from a parser that is not part of this model.
- MultiKey.AppendKeys: does not model the JSON-array form of the stored keys or the Vertex form of the input, for the same reason.
- MultiKey.Channel.DisableAllKeys: positions come from the recorded size, as in the source; what happens to records beyond it is left to the save step.
- BodyStorage.CreateBodyStorageFromReader: leaves open how much of a stream a failing disk uses up.
- BodyStorage.DiskStorage.Read: reads from the file are never short; removal of the cache file itself is not modelled.
- The 64-bit width of counters, sizes and clock readings; the two places where the width matters, the Ogg granule and its sign, are modelled.
- Cache-hit counters, changes of the cache configuration during a run, and the other users of the disk counters.
- Relay.RelayLoop: the list of auto groups is the same throughout a run, and which groups have channels is an input.
- Relay.RelayRequest: request validation, token counting and price lookup before the body is forwarded are one yes-or-no input; violation fees are not modelled.
- Midjourney.RefundAtMostOnce: is the case of honest answers that leave failed tasks alone; `Midjourney.RefundAtMostOnceIff` covers every run.
- RatioSync.BuildDifferences: values are null, numbers, texts and booleans; composite JSON values, NaN and infinities are not modelled.
- The conversion of selected prices into ratio maps and its rounding, and the OpenRouter conversion: arithmetic on one value at a time.
- ModelMeta.EnrichModels: the rows are distinct objects; the order of lists that come from ranging over a map is left open.
- The user identity, lifetime and signature of session cookies: all requests of a run are those of one user, and only issued sessions are presented.
- The other audio formats of `audio.go`, which call third-party decoders.
