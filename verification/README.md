# Verified models of the AI gateway's core protocols

The gateway credits payments, limits request rates, reconciles prices and model lists with
upstream sites, manages channels with many keys, caches request bodies, pays commissions and
settles asynchronous video tasks. This project models those parts in Dafny and proves what they
promise, over every input, every run or every interleaving. Where a promise fails, the model keeps
the code's behaviour and proves the exact condition under which the promise holds.

`dafny verify dfyconfig.toml` checks everything.

| file | contents |
|---|---|
| `OrderLock.dfy`, `PaymentCallback.dfy`, `PaymentRuns.dfy` | the reference-counted per-order lock as a small-step machine, payment callbacks racing under it, and more about their runs |
| `RateLimiter.dfy` | the sliding-window limiter and its sweeper against a full history |
| `ProviderSelection.dfy`, `RatioDiff.dfy` | choosing one provider's price per model; the price diff with its pruning pass |
| `ModelLists.dfy`, `ModelReconciliation.dfy` | ordered lists of model names; detecting and applying upstream changes |
| `MultiKey.dfy`, `MultiKeyChannel.dfy`, `KeyTracking.dfy`, `KeyMaps.dfy`, `KeyAppend.dfy` | keys in one text, attributes in three maps: meaning of every action, the methods, following a key through a run, what each action does to the maps, appending |
| `BodyStream.dfy`, `BodyStorage.dfy`, `BodyRuns.dfy` | one stream, two backends; storage objects and usage counters; whole runs over many storages |
| `TaskSettlement.dfy` | polling video tasks and settling their quota |
| `Commission.dfy` | multi-level commission and the write-off of withdrawals |
| `ModelEnrichment.dfy` | the batched join for rule models |
| `Basics.dfy`, `Text.dfy` | shared notions; trimming, splitting and joining text |

Findings, each proved as an equivalence or with a concrete input:

- The rate limiter is exact if and only if at least one request is allowed and the window is at
  most one second longer than the sweeper's expiration (`RateLimiter.ExactIff`).
- Completing an already paid order by hand credits nothing but fires the success hook with an
  empty payload (`PaymentCallback.EmptyHookIffAlreadyPaid`), and a run does so
  (`PaymentRuns.EmptyHookIsReached`).
- Detecting after applying everything finds nothing if and only if no added name contains a comma
  and the ignore list survives losing the added names (`ModelReconciliation.FixpointIff`); the
  upstream name "a,b" fails the first condition, a name that is an ignore rule the second
  (`ModelReconciliation.CommaNameWitness`, `ModelReconciliation.RuleNameWitness`).
- A callback leaves its order successful but uncredited if and only if its update fails after
  taking effect, or its credit fails or is refused; no later action makes up for it, and a manual
  completion then only fires the empty hook (`PaymentRuns.ForgottenIff`,
  `PaymentRuns.ForgottenForEver`).
- An action on a multi-key channel does what it means if and only if what it leaves can be stored
  and read back (`MultiKey.DoRefines`, `MultiKey.RunStaysInStepIff`). Deleting a key fails when it
  leaves a blank key first or last, or a text that is taken for a JSON array
  (`MultiKey.DeleteShifts`, `MultiKey.BracketWitness`).
- A key text that parses as an empty list counts as one key and yields none
  (`MultiKey.SizeIsCountIff`).
- `delete_disabled_keys` on a channel whose keys are all auto-disabled deletes none and enables all,
  because an empty key text is taken by `Channel.Update` as "not provided" (`MultiKey.PurgeIff`,
  `MultiKey.PurgeReenables`).
- A runtime report for a key that is no longer in the list changes the first key instead
  (`KeyTracking.ReportHitsItsKeyIff`, `KeyTracking.StaleReportHitsOther`).
- Appending the same keys twice to a text of line breaks changes it twice, and its blank key is
  lost (`KeyAppend.AppendIsIdempotent`, `KeyAppend.LoneBreakWitness`); appending to a text that
  begins with a bracket and does not parse drops its keys (`KeyAppend.UnparsedTextIsDropped`).
- An upstream value that is the text "same" can hide its difference; exactly when it does, and when
  no difference is lost, is stated on the input (`RatioDiff.DifferenceLostIff`,
  `RatioDiff.NothingLostIff`, `RatioDiff.TextSameIsLost`).
- The two body storages differ on exactly one call, an empty read at the end
  (`BodyStream.BackendsAgreeIff`).
- Disk usage can pass the configured maximum if and only if an accepted body longer than its
  announced length may be streamed to disk (`BodyRuns.RunsStayWithinIff`,
  `BodyRuns.ShortAnnouncementExceeds`).
- A task failed in bulk because its channel is gone is not refunded; nothing else is ever lost
  (`TaskSettlement.RunConserves`).

Time, random choice, database outcomes, upstream answers, JSON array parsing and regular-expression
matching are parameters, so each theorem holds for all of them. Money and ratios are reals, quota
is an integer. Text is a sequence of characters.

## Model

| member | source | states |
|---|---|---|
| OrderLock.EveryRunIsInvariant | controller/topup.go:267-307 | for any number of goroutines and any interleaving: every refCount is the number of goroutines between its increment and decrement, every mutex is locked exactly when one of them holds it, every table entry is in use, and no free mutex is ever unlocked |
| OrderLock.StepKeepsCounts | controller/topup.go:278-307 | each step changes createLock, refCount and mu exactly as the goroutine's position requires |
| OrderLock.DropKeepsTable | controller/topup.go:301-306 | deleting at zero takes an entry from no goroutine, and an entry that stays is still used |
| OrderLock.MutualExclusion | controller/topup.go:278-299 | in every reachable state at most one goroutine is between acquiring and releasing the lock of a trade number |
| OrderLock.UnlockFindsOwnMutex | controller/topup.go:293-299 | a holder's UnlockOrder finds its own mutex in the table, and finds it locked |
| OrderLock.NoLeak | controller/topup.go:301-306 | when no goroutine is inside, the table is empty and every mutex is free and uncounted |
| OrderLock.NoDeadlock | controller/topup.go:278-307 | while a goroutine is inside, one that holds a lock may return it or one can make a step |
| OrderLock.ProgressIsBounded | controller/topup.go:278-307 | every effective step but a fresh call completes exactly one outstanding operation |
| OrderLock.Drains | controller/topup.go:278-307 | from every such state some schedule without new calls brings everyone out and empties the table |
| PaymentCallback.AtMostOnce | controller/topup.go:372-408 | over every interleaving of duplicate callbacks, manual completions, deletions and changes of the quota unit, with failing writes: each order is credited at most once and its hook fires at most as often; every credit goes to the order's own user and is the integer part of amount times unit, of money times unit for stripe |
| PaymentCallback.CreditsUseTheUnitInForce | controller/topup.go:397-400 | a credit comes from a request holding the lock of that order, one at a time, at the quota unit in force |
| PaymentCallback.UndisturbedCallbackPays | controller/topup.go:384-407 | a callback on a pending order whose database calls succeed leaves it successful with the callback's payment type, credits it and fires its hook |
| PaymentCallback.HookComesLast | controller/topup.go:385-407 | a hook naming an order fires once, after the credit, when the order is no longer pending |
| PaymentRuns.PaidExactlyOnce | controller/topup.go:372-408 | the converse of at most once: over every interleaving in which no database call fails, an order no request is working on is successful exactly when it was credited, then exactly once, and its hook fired exactly once |
| PaymentRuns.ForgottenIff | controller/topup.go:372-408 | a callback on a pending order leaves it successful but uncredited iff its update failed after taking effect, or the update succeeded and the credit failed or was refused for a negative worth |
| PaymentRuns.ForgottenForEver | controller/topup.go:383-407 | no later callback, completion or other action ever credits such an order or fires its hook |
| PaymentCallback.EmptyHookIffAlreadyPaid | model/topup.go:370-418 | a manual completion fires the hook with an empty payload exactly when the order was already successful |
| PaymentRuns.EmptyHookIsReached | model/topup.go:370-418 | a run from the start in which a second manual completion of the same order fires the hook with an empty payload |
| PaymentCallback.CompleteIsSound | model/topup.go:360-412 | the manual completion transaction pays only pending orders, to their own user, the integer part of amount or money times unit, at most once |
| PaymentCallback.ManualPaysIff | model/topup.go:355-412 | it pays iff the order is pending, worth at least one unit of quota and the transaction is not rolled back; the caller then goes on to the hook iff it was told so |
| PaymentCallback.DeletedIsNotPaid | controller/topup.go:376-383 | a row deleted before a request first asks for it is paid by nobody |
| PaymentCallback.TableKeepsGood | model/topup.go:72-85 | creating orders, and deleting rows outside the lock at any moment, cannot cause a second credit |
| PaymentCallback.NeverStuck | controller/topup.go:372-408 | while a request is unfinished some action changes the world |
| RateLimiter.InMemoryRateLimiter.Request | common/rate-limit.go:45-70 | the answer and the new store are those of the queue specification |
| RateLimiter.InMemoryRateLimiter.ClearExpiredItems | common/rate-limit.go:28-42 | one sweep forgets exactly the idle keys |
| RateLimiter.QueueAnswers | common/rate-limit.go:50-63 | the bounded queue answers as counting all recent acceptances would |
| RateLimiter.SweepKeepsFaith | common/rate-limit.go:36-38 | forgetting an idle key loses only acceptances that have left the window |
| RateLimiter.CoveredIsCorrect | common/rate-limit.go:28-70 | on covered runs a request is accepted iff fewer than max acceptances of its key are younger than the window |
| RateLimiter.ExactIff | common/constants.go:205-206 | the limiter is exact on all monotone runs iff max is positive and the window is at most the expiration plus one second |
| RateLimiter.NoWindowOverfull | common/rate-limit.go:45-70 | no half-open window of the given length holds more than max acceptances of a key |
| RateLimiter.SweptIff | common/rate-limit.go:28-42 | after a sweep, for any parameters and any run before, exactly the keys whose newest acceptance is at most expiration seconds old are stored |
| ProviderSelection.SelectCandidates | controller/ratio_sync.go:915-944 | the nested loops leave for each model the candidate of a scan over its providers |
| ProviderSelection.TieBreakNeverFires | controller/ratio_sync.go:881-894 | in ascending provider order a candidate is replaced only by the first paid price or one lower by a full epsilon |
| ProviderSelection.LessIsByteOrder | controller/ratio_sync.go:893 | the order on provider names is the byte order: a proper prefix first, otherwise the first difference decides |
| ProviderSelection.ScanIsCheapest | controller/ratio_sync.go:881-944 | the chosen price is paid whenever one is, and below every paid offer plus one epsilon |
| ProviderSelection.ScanIsAnOffer | controller/ratio_sync.go:936-943 | the chosen candidate is some provider's valid offer |
| ProviderSelection.DescendingScanDrifts | controller/ratio_sync.go:48-53 | in descending order the non-transitive comparison drifts past one epsilon |
| ProviderSelection.ToRatios | controller/ratio_sync.go:950-972 | free models get ratio zero alone; paid ones their price in ratio units and relative completion and cache ratios |
| ProviderSelection.Convert | controller/ratio_sync.go:906-985 | an error iff no model has a usable price; otherwise exactly those models with the ratios of their chosen candidate |
| ProviderSelection.RoundingError | controller/ratio_sync.go:698-700 | rounding gives the nearest millionth, the upper one of two |
| ProviderSelection.PublishedRatioBound | controller/ratio_sync.go:881-958 | the published ratio is at most half of any paid offer plus half an epsilon and the rounding error |
| ProviderSelection.ChosenIff | controller/ratio_sync.go:847-944 | a model is converted iff some provider has a cost for it with an input price that is not negative, no negative output price and no free input with paid output |
| ProviderSelection.PublishedFromOneProvider | controller/ratio_sync.go:847-985 | what is published for a model comes from one provider's usable cost: within half a millionth, half its input price, output over input and cache read over input; a free input gives zero and nothing else |
| RatioDiff.BuildDifferences | controller/ratio_sync.go:536-696 | the three passes report exactly the specified cells, listing exactly the channels with an ordinary difference somewhere, with their values and trust |
| RatioDiff.BuildConfidence | controller/ratio_sync.go:558-591 | a channel is distrusted on a model iff it prices it at 37.5 with completion ratio one |
| RatioDiff.BuildCell | controller/ratio_sync.go:595-644 | one cell lists every channel and is included iff an existing value changes or a missing one is offered |
| RatioDiff.CollectListed | controller/ratio_sync.go:656-665 | the channels kept are those listing an ordinary value somewhere |
| RatioDiff.Prune | controller/ratio_sync.go:667-693 | pruning keeps exactly the cells where a kept channel shows more than "same", and no empty row |
| RatioDiff.ReportedDiffers | controller/ratio_sync.go:536-696 | soundness for arbitrary values: a reported cell differs at some channel |
| RatioDiff.OrdinaryDifferenceIsReported | controller/ratio_sync.go:667-693 | completeness: a differing value other than null and "same" is reported under its channel as it is |
| RatioDiff.DiffIsExact | controller/ratio_sync.go:536-696 | for ordinary values a cell is reported iff some channel differs there, a channel is listed iff it differs somewhere |
| RatioDiff.ListedIff | controller/ratio_sync.go:656-665 | a channel is kept iff it carries, somewhere, a differing value other than null and "same" |
| RatioDiff.SyncedFields | controller/ratio_sync.go:64-75 | the eight price fields and the two text fields are compared, and no others |
| RatioDiff.PricesDiffer | controller/ratio_sync.go:48-62 | a price both sides have as numbers, integers or not: a billionth or more apart it is reported and the channel is listed with its number, any closer the channel is listed with "same" |
| RatioDiff.TextsDiffer | controller/ratio_sync.go:55-62 | two texts: if they are not equal the channel's is reported as it is, unless it is "same"; if they are, the channel is listed with "same" |
| RatioDiff.NewValuesAreReported | controller/ratio_sync.go:621-640 | a price or text that the local data do not have is reported as the channel has it |
| RatioDiff.MissingValuesAreNull | controller/ratio_sync.go:606-626 | a channel without a value is listed with null where there is a local one, and alone it reports nothing |
| RatioDiff.DistrustedIff | controller/ratio_sync.go:566-584 | distrust, from raw numbers: model ratio within a billionth of 37.5 and completion ratio within a billionth of 1 |
| RatioDiff.DifferenceLostIff | controller/ratio_sync.go:609-693 | for arbitrary values a difference is lost iff every channel that offers an ordinary difference anywhere agrees on that cell, by having the local value, "same", or no value where there is no local one |
| RatioDiff.NothingLostIff | controller/ratio_sync.go:536-696 | the diff loses no difference at all iff each value of null or "same" that differs from the local one stands at a cell disputed by a channel with an ordinary difference somewhere |
| RatioDiff.TextSameIsLost | controller/ratio_sync.go:614-616 | an upstream value "same" against another local value goes unreported |
| RatioDiff.SyncConverges | controller/ratio_sync.go:593-693 | after copying one channel's values, comparing with it alone reports nothing |
| RatioDiff.PatchSettles | controller/ratio_sync.go:593-693 | taking over exactly what one channel's diff lists empties the next diff against it, with values within an epsilon left alone |
| ModelLists.NormalizeFacts | controller/channel_upstream_update.go:97-102 | normalizing yields the trimmed non-blank names, each once |
| ModelLists.NormalizePrefix | controller/channel_upstream_update.go:97-102 | first occurrences stay in their order: the normalized beginning of a list begins the normalized list |
| ModelLists.MergeModelNames | controller/channel_upstream_update.go:104-118 | the loop computes the base followed by the new names of the other list |
| ModelLists.ApplySelectedShape | controller/channel_upstream_update.go:142-147 | the new list is the old one without the names removed and not added, then the added names it lacked, in order and without repetition |
| ModelReconciliation.PendingFacts | controller/channel_upstream_update.go:176-235 | pending additions are the upstream names neither local, redirected to, nor ignored; pending removals the local names neither redirected from nor upstream |
| ModelReconciliation.PendingIff | controller/channel_upstream_update.go:209-224 | an upstream name is pending iff it is neither local nor a redirect target, does not itself stand in the ignore list, and no "regex:" entry there, trimmed after the prefix, matches it |
| ModelReconciliation.IgnoredStaysOut | controller/channel_upstream_update.go:793-812 | a name ignored through an apply request is never pending again, whatever upstream offers |
| ModelReconciliation.ListsKeepTheirOrder | controller/channel_upstream_update.go:120-235 | pending lists follow upstream and the local list, reported lists follow the request, what is left follows what was pending |
| ModelReconciliation.StoredChannel.CheckAndPersist | controller/channel_upstream_update.go:360-407 | skips inside the interval, records the time on a failed fetch, otherwise stores time, pending lists and, under auto-sync, the local names followed by the pending ones; counts the automatic additions |
| ModelReconciliation.StoredChannel.ApplyUpdates | controller/channel_upstream_update.go:780-828 | stores the applied row and reports the selection, or changes nothing when the row cannot be saved |
| ModelReconciliation.MergePending | controller/channel_upstream_update.go:384-391 | pending additions are all new, so merging appends every one |
| ModelReconciliation.SelectionPartitions | controller/channel_upstream_update.go:793-813 | pending additions split into added, ignored and remaining; removals never include an added name |
| ModelReconciliation.ApplySettles | controller/channel_upstream_update.go:808-816 | what is left stays pending; the ignore list gains the ignored names and holds no added one |
| ModelReconciliation.ApplyKeepsOrder | controller/channel_upstream_update.go:800-806 | the stored list reads back as the old list without removals, then the additions, each in order, iff no added name contains a comma |
| ModelReconciliation.FixpointIff | controller/channel_upstream_update.go:176-235 | detect, apply all, detect again finds nothing iff no addition contains a comma and dropping the added names un-ignores nothing |
| ModelReconciliation.CommaNameNeverSettles | controller/channel_upstream_update.go:176-235 | an upstream name with a comma is still pending after everything was applied |
| ModelReconciliation.RuleNameUnignores | controller/channel_upstream_update.go:808-812 | an added name that is itself a rule of the ignore list takes the rule away, and what it ignored becomes pending |
| ModelReconciliation.PlainNamesReachFixpoint | controller/channel_upstream_update.go:214-222 | names that do not look like rules cannot un-ignore anything |
| ModelReconciliation.AutoSyncIff | controller/channel_upstream_update.go:384-396 | auto-sync appends the additions to the unchanged local list, keeps the pending removals, and leaves no additions iff none contains a comma |
| MultiKey.DoRefines | controller/channel.go:1383-1684 | on every valid channel an action changes the list of keys with attributes as it means, and keeps sizes and map domains valid, iff what it leaves can be stored and read back |
| MultiKey.RunRefines | controller/channel.go:1383-1684 | over every run whose actions leave what can be stored: the entries are what the run means, size equals the number of keys, and no map leaves its range |
| MultiKey.RunStaysInStepIff | controller/channel.go:1383-1684 | and over no other run do the entries stay what the run means after every action |
| MultiKey.PlainRunsReadBack | controller/channel.go:1383-1684 | every run on keys that are not empty, hold no line break and do not begin with a bracket stays in step |
| MultiKey.DeleteIff | controller/channel.go:1539-1617 | on every valid channel delete_key removes exactly entry k iff the remaining list reads back: its text parses as that very list, or does not parse and has no blank end and no line break |
| MultiKey.DeleteShifts | controller/channel.go:1539-1617 | with the keys x, blank and y, deleting x does not leave the last two entries |
| MultiKey.DeleteReparses | controller/channel.go:1539-1617 | with the keys x and y, where y parses as a list of other keys, deleting x does not leave y |
| MultiKey.BracketedRestFails | model/channel.go:142-164 | such a valid channel exists, for instance with the keys "x" and "[1,2]", although its rest is storable line by line |
| MultiKey.BlankMiddle | model/channel.go:142-164 | such a channel exists: two plain keys around a blank one read back as stored |
| MultiKey.PurgeIff | controller/channel.go:1619-1684 | on every valid channel delete_disabled_keys leaves exactly the survivors iff their list reads back; with none it re-enables every key |
| MultiKey.PurgeReenables | controller/channel.go:1619-1684 | purging a channel whose only key is auto-disabled keeps and enables it |
| MultiKey.SurvivorsAreFiltered | controller/channel.go:1636-1659 | survivors are the filter, by status other than 3, of what get_key_status shows |
| MultiKey.StoredList | model/channel.go:142-164 | any list of keys survives being stored as text iff it is empty, its text parses as that very list, or its text does not parse and it has no blank end and no line break |
| MultiKey.SaveNothing | model/channel.go:510-548 | saving an empty key text keeps every key and forgets every attribute |
| MultiKey.SizeIsCountIff | model/channel.go:142-164 | the recounted size is the number of keys iff the text does not parse as an empty list, which counts as one key and yields none |
| MultiKey.SavedFacts | model/channel.go:510-548 | saving any draft on any row: an empty text keeps the stored one, statuses remain exactly below the size, times and reasons remain |
| MultiKey.KeyIndexInRange | model/channel.go:641-647 | the runtime addresses the first position of the key it names, and position zero when the key is not in the list |
| MultiKeyChannel.Channel.Update | model/channel.go:510-557 | recounts the keys, drops status entries past the end, keeps the old text for an empty one |
| MultiKeyChannel.Channel.KeyStatuses | controller/channel.go:1286-1330 | lists what is shown for every key and counts the three statuses |
| MultiKeyChannel.CountIsSize | controller/channel.go:1286-1330 | each count is the number of positions with that status |
| MultiKeyChannel.Channel.DisableKey | controller/channel.go:1383-1424 | performs the action, or nothing when the index is missing or out of range |
| MultiKeyChannel.Channel.EnableKey | controller/channel.go:1426-1466 | performs the action, or nothing when the index is missing or out of range |
| MultiKeyChannel.Channel.EnableAllKeys | controller/channel.go:1468-1490 | performs the action |
| MultiKeyChannel.Channel.DisableAllKeys | controller/channel.go:1492-1537 | performs the action, refused when no key is enabled |
| MultiKeyChannel.CollectDisabled | controller/channel.go:1505-1517 | the loop disables exactly the enabled positions |
| MultiKeyChannel.CollectOthers | controller/channel.go:1559-1592 | the loop re-indexes every key but one together with its attributes |
| MultiKeyChannel.Channel.DeleteKey | controller/channel.go:1539-1617 | performs the action, refused for the last key |
| MultiKeyChannel.CollectSurvivors | controller/channel.go:1627-1659 | the loop keeps and re-indexes exactly the survivors and counts the others |
| MultiKeyChannel.Channel.DeleteDisabledKeys | controller/channel.go:1619-1684 | performs the action, refused when no key is auto-disabled |
| MultiKeyChannel.Channel.RuntimeUpdate | model/channel.go:636-663 | performs the runtime's status change at the first position of the key it names, or at position zero when that key is missing |
| KeyTracking.ActionFollows | controller/channel.go:1383-1684 | an entry keeps its key, and its shown attributes unless the action addresses it or is a report for a missing key that hits it |
| KeyTracking.ActionInventsNothing | controller/channel.go:1383-1684 | every entry after an action was somewhere before it |
| KeyTracking.AttributesFollowKeys | controller/channel.go:1383-1684 | over every run whose actions leave what can be stored, an entry that is not deleted sits at its tracked index with its key and, unless addressed or hit by a report for a missing key, its attributes |
| KeyTracking.ReportHitsItsKeyIff | model/channel.go:636-663 | a runtime report changes only entries of the key it names iff that key is in the list, or the first entry already is as the report would make it |
| KeyTracking.StaleReportHitsOther | model/channel.go:636-663 | a report for a key deleted meanwhile auto-disables the next key |
| KeyTracking.ActionsReachTheirGoals | controller/channel.go:1383-1684 | on every valid channel disabling touches one key and enabling undoes it, disabling all spares the others, enabling all clears every attribute, and a purge whose survivors can be stored leaves no auto-disabled key |
| KeyMaps.EnablingClears | controller/channel.go:1444-1453 | on every valid channel enabling a key leaves status 1 and no time and no reason for it, whatever was stored, and every other key as it was |
| KeyMaps.DisablingMarks | controller/channel.go:1404-1411 | disabling a key leaves status 2, its time and reason, and every other key as they were |
| KeyMaps.AllAreSet | controller/channel.go:1468-1537 | enabling all clears every key; disabling all turns status 1 into 2 and nothing else |
| KeyMaps.DeletingMoves | controller/channel.go:1559-1592 | deleting a key moves every key behind it, with what is stored about it, one place to the front |
| KeyMaps.PurgingMoves | controller/channel.go:1627-1659 | a purge leaves the keys whose status is not 3, each as many places from the front as such keys came before it, enabled ones without time and reason |
| KeyMaps.RefusedActions | controller/channel.go:1383-1684 | an index out of range, deleting the only key, and a purge without a key of status 3 change nothing |
| KeyMaps.ReportMarks | model/channel.go:641-662 | a runtime report of status 1 only enables the addressed key; any other status is stored with the time and the reason; every other key stays as it was |
| KeyMaps.ReportShows | controller/channel.go:1286-1330 | a key is shown with its status, 1 when none is stored, and with time and reason only when that is not 1 |
| KeyAppend.AppendKeys | controller/channel.go:876-948 | the loops store the old keys followed by the new ones |
| KeyAppend.AddedFacts | controller/channel.go:914-944 | exactly the visible trimmed input keys matching no trimmed stored key are added, each once |
| KeyAppend.AddedInOrder | controller/channel.go:914-944 | the keys added for the first lines of an input come first, whatever lines follow |
| KeyAppend.AppendIsIndexStable | controller/channel.go:882-947 | on any stored text the old keys keep their indices and the new ones follow iff the new text parses as that list, or does not parse, the old text was understood and the list is storable line by line |
| KeyAppend.LinesReadBackIff | controller/channel.go:890-947 | for lines that stay lines this means that the stored text is more than line breaks |
| KeyAppend.UnparsedTextIsDropped | controller/channel.go:882-889 | a stored text that begins with a bracket and does not parse loses all its keys to the new ones |
| KeyAppend.AppendBracketsIff | controller/channel.go:890-947 | an append makes an unbracketed text bracketed iff the text showed nothing and the first new key begins with a bracket |
| KeyAppend.RepeatIff | controller/channel.go:882-947 | whatever was stored before, appending the same input to a text that is now lines changes nothing iff that text has no outer line breaks; an empty text needs an empty input |
| KeyAppend.AppendIsIdempotent | controller/channel.go:890-947 | for stored lines, in terms of the text before both appends: iff it is more than line breaks or there is nothing to append; into an empty text, iff the input has no outer line breaks |
| KeyAppend.LoneBreakIsLost | controller/channel.go:890-947 | with a lone line break stored, appending a key twice changes the text twice |
| KeyAppend.AttributesStayWithKeys | controller/channel.go:861-862 | on every valid channel the untouched attribute maps still name the same keys, and new keys are enabled and bare, iff the new text reads back as the old keys and the new ones, or is empty |
| BodyStream.BackendsAgreeIff | common/body_storage.go:47-81 | memory and disk answer every operation alike except an empty read at the end |
| BodyStream.BackendsIndistinguishable | common/body_storage.go:169-230 | a reader that never offers an empty buffer gets the same answers from both over any run |
| BodyStream.BytesKeepsPosition | common/body_storage.go:198-230 | fetching the content returns all of it and leaves the position alone |
| BodyStream.ReadAnswers | common/body_storage.go:47-54 | on either backend a read answers the next n bytes from the position, or what is left, and moves past them; at the end it answers the end, except an empty read on disk |
| BodyStream.SeekAnswers | common/body_storage.go:56-63 | on either backend a seek answers and reaches the offset from the start, the position or the end, and refuses other origins and targets before the start |
| BodyStream.DrainYieldsRest | common/body_storage.go:169-176 | the answers collected by reading to the end, with any buffer and on either backend, are exactly the rest of the content |
| BodyStream.SeekThenDrain | common/body_storage.go:178-185 | the answers collected after a seek are the content from the offset, from the position plus the offset, or the last bytes, as its origin says |
| BodyStream.ClosedStaysClosed | common/body_storage.go:47-81 | a closed body answers every operation with an error and closing again succeeds |
| BodyStorage.MemoryStorage.Read | common/body_storage.go:47-54 | behaves as the stream |
| BodyStorage.MemoryStorage.Seek | common/body_storage.go:56-63 | behaves as the stream |
| BodyStorage.MemoryStorage.Fetch | common/body_storage.go:74-81 | behaves as the stream |
| BodyStorage.MemoryStorage.Close | common/body_storage.go:65-72 | counted once however often it is closed |
| BodyStorage.DiskStorage.Read | common/body_storage.go:169-176 | behaves as the stream |
| BodyStorage.DiskStorage.Seek | common/body_storage.go:178-185 | behaves as the stream |
| BodyStorage.DiskStorage.Fetch | common/body_storage.go:198-230 | behaves as the stream |
| BodyStorage.DiskStorage.Close | common/body_storage.go:187-196 | counted once however often it is closed |
| BodyStorage.CacheStats.IncrementDiskFiles | common/disk_cache_config.go:108-112 | counters stay the count and byte sum of open disk storages |
| BodyStorage.CacheStats.DecrementDiskFiles | common/disk_cache_config.go:114-122 | for an open storage the counters stay exact and the clamps never run |
| BodyStorage.CacheStats.IncrementMemoryBuffers | common/disk_cache_config.go:124-128 | counters stay the count and byte sum of open memory storages |
| BodyStorage.CacheStats.DecrementMemoryBuffers | common/disk_cache_config.go:130-134 | counters stay the count and byte sum of open memory storages |
| BodyStorage.CreateBodyStorage | common/body_storage.go:241-259 | disk iff enabled, at least the threshold in mebibytes and within the maximum, and the file can be written; full content at position zero; a disk admission leaves usage within the maximum |
| BodyStorage.CreateFromReader | common/body_storage.go:262-303 | succeeds with a new storage of the full content iff it fits maxBytes, I/O errors aside; the maximum holds when the body is no longer than announced; hits are counted |
| BodyRuns.Serve | common/body_storage.go:37-303 | over every sequence of creations, reads, seeks, fetches and repeated closes all storages are distinct, each answers as its own stream, and the four counters are the number and byte sum of the open ones, with no decrement ever clamped |
| BodyRuns.BodiesAreSeparate | common/body_storage.go:37-259 | after any run each body is where its own operations brought it |
| BodyRuns.RunsStayWithinIff | common/body_storage.go:262-285 | whatever events may occur under one configuration, no run takes disk usage past the configured maximum iff none of them is an accepted body longer than its announced length that is streamed to disk |
| BodyRuns.OverrunExceeds | common/disk_cache_config.go:169-177 | for every such body there is a disk usage within the maximum that it takes past it |
| BodyRuns.ShortAnnouncementExceeds | common/body_storage.go:262-285 | one body longer than announced exceeds it |
| BodyRuns.AllClosedIsZero | common/disk_cache_config.go:108-134 | when every body is closed all four counters are zero |
| TaskSettlement.VideoTasks.UpdateVideoSingleTask | controller/task_video.go:121-276 | the steps leave exactly the specified tasks, balances and refunds; an error exactly for unknown tasks and statuses |
| TaskSettlement.PollConservesIff | controller/task_video.go:127-276 | a poll keeps every user's balance plus held quota iff no failed task is revived, no charge is left unsaved and no refund is refused |
| TaskSettlement.RunConserves | controller/task_video.go:29-276 | over every run of polls and bulk failures with succeeding writes a user's balance plus held quota shrinks by exactly what the user's tasks held when their channel was lost, and by nothing without such losses |
| TaskSettlement.AtMostOneRefund | controller/task_video.go:250-274 | whatever fails, and with bulk failures in between, the poller refunds a task at most once |
| TaskSettlement.SettledPollMovesNothing | controller/task_video.go:182-239 | polling a settled success again with the same usage and ratios moves nothing |
| TaskSettlement.SuccessBills | controller/task_video.go:155-183 | a success whose ratios are known leaves the task costing the integer part of tokens times model ratio times group ratio, the user's own group ratio first, and moves the difference on the user's balance alone |
| TaskSettlement.OthersMoveNothing | controller/task_video.go:130-180 | without tokens, a positive model ratio or a group ratio, and in every status but success and failure, no quota moves |
| TaskSettlement.FailureRefunds | controller/task_video.go:241-274 | a new failure, or an answer without status, returns exactly what the task had cost to its user |
| TaskSettlement.RowFacts | controller/task_video.go:127-262 | status, progress and the two times of the row after a poll, for every status |
| TaskSettlement.OnlyUnfinishedAreTouched | controller/task_video.go:36-44 | the poller and the bulk failure touch exactly tasks below "100%" that neither succeeded nor failed |
| TaskSettlement.DirectPollsRefundTwice | controller/task_video.go:250-256 | that rests on the loader: the update function, handed a failed task, would refund it a second time |
| TaskSettlement.LostChannelForfeits | controller/task_video.go:36-44 | a task failed in bulk costs its user exactly what it held, and nobody else anything |
| Commission.LevelsAreDisjoint | controller/agent.go:216-243 | two agents never share a customer at the same distance, even in cyclic invitations |
| Commission.LevelSumIsOneSum | controller/agent.go:216-243 | summing a level over agents equals summing once over the customers they reach |
| Commission.LevelIff | controller/agent.go:216-243 | a user is k levels below an agent iff the chain of inviters reaches the agent after k steps, in any inviter graph |
| Commission.VolumeByTopUps | controller/agent.go:211-243 | an agent's volume is the sum over successful top-ups, each as often as the payer stands one, two or three levels below |
| Commission.EstimateOfOne | controller/agent.go:193-213 | one estimate is that volume times the personal rate if positive, otherwise the rate of the agent's level, zero outside one to three |
| Commission.EstimatesAddUp | controller/agent.go:193-213 | the estimates of several agents add up |
| Commission.CommissionBound | controller/agent.go:193-252 | all estimated commissions together are at most three times the highest rate on all successful top-ups |
| Commission.BoundIsTight | controller/agent.go:211-213 | a self-invited agent attains the bound |
| Commission.WriteOff | controller/agent.go:415-428 | the loop pays the shortest prefix of entries that covers the amount, or all of them |
| Commission.WriteOffExactIff | controller/agent.go:415-428 | the amount written off equals the withdrawal iff some first entries add up to it and no fewer exceed it, which without negative entries is just the former; the excess is below the last entry paid |
| ModelEnrichment.CollectAll | controller/model_meta.go:213-260 | one pass for all rules gives each rule the join it would get alone |
| ModelEnrichment.JoinFacts | controller/model_meta.go:218-260 | that join holds exactly the names, endpoints, groups and quota types of the matching pricing entries |
| ModelEnrichment.MatchFacts | controller/model_meta.go:220-234 | a prefix rule accepts the names that continue its own, a suffix rule those that end with it, a contains rule those around it, others none |
| ModelEnrichment.NamesInOrder | controller/model_meta.go:218-260 | the matched names come in pricing order, as often as they occur |
| ModelEnrichment.UnionChannels | controller/model_meta.go:308-316 | the channels found in the batched answer are those bound to the rule's own names |
| ModelEnrichment.ChannelsIff | controller/model_meta.go:308-316 | a channel is listed iff it is bound to some matched name |
| ModelEnrichment.Model.Fill | controller/model_meta.go:276-329 | the fields of one model become its join; where the join is empty the previous value stays |
| ModelEnrichment.EnrichRules | controller/model_meta.go:209-330 | every rule model ends up with its own join and its own channels |

## Left out

- HTTP parsing and replies, logging, notifications, caches, page handling and the database layer: plumbing without the properties above.
- Callback signatures: a callback enters the model once it is verified.
- Other payment providers: only callbacks of the epay provider and manual completions run under the modelled lock; the other clients of the lock handle rows of their own provider.
- Statuses other than pending and success are never written by the modelled clients; a hook failing inside its consumer is not modelled.
- OrderLock: the lock is a step machine over values, not a class, because its point is interleaving; weak memory is not modelled, each sync.Map and mutex operation is one step.
- PaymentCallback.AtMostOnce: trade numbers are unique per created order, as their generator intends.
- Rate limiter parameters that change between requests of one key, and the Redis limiter.
- Floating-point rounding, infinities and NaN in prices; values that are JSON objects or arrays, on which the source's comparison would panic.
- Unparsable and OpenRouter price sources; upstream fetching.
- Regular expressions in ignore rules: an arbitrary total relation between rule and name.
- UpdateAbilities after saving a channel, and the in-memory channel object after a failed save: only the stored row is modelled.
- Vertex AI key parsing, and JSON array syntax: how a bracketed text parses is an arbitrary function.
- KeyAppend.RepeatIff: asks that the text after the first append does not begin with a bracket; what a second append does to other texts depends on the arbitrary JSON parser.
- The channel-wide status change when all keys are disabled, polling order, and paging of key lists.
- Memory storage hands out its own buffer and callers may overwrite it; linux-only seek modes; concurrent admission to the disk cache; rewriting the counters from the directory.
- BodyStorage.CreateFromReader: promises the maximum of disk usage only for honest lengths; BodyRuns.RunsStayWithinIff says exactly when it holds.
- The group lookup and ratio tables behind re-billing are inputs; usage statistics are not tracked; batched quota updates count as immediate.
- Commission ledgers with lock periods, and the depth check when agents are appointed.
- The exact-name branch of model enrichment, which copies cached values; a failing channel query, which leaves channels as they were.
