# Verification model of the kiro-proxy core

kiro-proxy is a gateway that serves many upstream accounts behind one API. This project models the
parts of it that carry state or a protocol, and proves properties of them for all inputs, all runs
and all interleavings. Each component is a module of its own.

| module | component |
|---|---|
| `EventStream`, `FrameEncoding` | incremental decoder for Amazon event-stream frames and the feed loop around it; the wire encoding as its inverse |
| `AccountStore` | account list, unsaved changes, base file and delta files, interrupted saves |
| `Conversation`, `ContextEdits`, `ContextContent`, `Compaction` | Claude context editing: clearing old tool results and thinking turns, what that leaves of the conversation, the compaction boundary |
| `RefreshProtocol`, `RefreshOutcomes` | token refresh of one account, with its store, as a step system; how a call ends |
| `PoolScheduling`, `Pool`, `PoolLeases`, `PoolTry` | account pool: eligibility and score, leases and queue as a step system, which account a lease is for, one undisturbed try |
| `EndpointCache`, `EndpointAnswers` | endpoint preference, failure and revision maps with their order deques; what the cache answers over every run |
| `ConfigPatch` | comment-preserving configuration update |
| `CivilDate` | day number to Gregorian date |
| `ResponsesInput` | tool-call pairing and merging of assistant fragments in Responses input |
| `WebhookWorker` | batching and delivery of webhook events |
| `ModelCatalog` | Copilot account list and model cache, aggregation of models |
| `Wrappers` | `Option` and `Result` |

Code that computes a value is a function. Code that updates fields or variables is a class or a
method, proved equal to a function of the old state, and the properties are proved of that
function. Concurrent code is a step system: a state, labelled steps with a guard, and lemmas about
every run. A checksum, UTF-8 and JSON decoding, event classification, a token estimate, model-name
rules, clock readings, random jitter, upstream replies and the order in which a hash map or a
directory is listed are parameters, so each result holds for every choice of them.

Main results:

- decoding does not depend on how the bytes are cut into chunks (`EventStream.CollectEvents`), and
  the decoder accepts exactly the encodings of well-formed frames
  (`FrameEncoding.DecodeAcceptsExactlyFrames`, `FrameEncoding.BodyRoundTrip`);
- memory and disk of the account store agree over a run with interrupted saves and restarts exactly
  when no save displaces an account whose value the base lacks and no update changes an id
  (`AccountStore.RunKeepsAgreement`, `AccountStore.SaveIsCrashSafe`);
- compaction preserves what the model reads and at which effort
  (`Compaction.NormalizePreservesMeaning`); context editing is idempotent for every plan and estimate
  (`ContextEdits.ApplyEditsIdempotent`) and removes nothing but thinking, outputs and inputs
  (`ContextContent.EditsKeepVoices`);
- a rejected token causes a second rotation only after it was brought back, and can cause one exactly
  when it is in memory or still in the store (`RefreshProtocol.SecondRotationNeedsReturn`,
  `RefreshProtocol.RotatesAgainExactly`);
- a refresh call bans the account or restores its health exactly as its outcome demands
  (`RefreshOutcomes.RefreshEndsAsDue`), and an endpoint is skipped exactly while its last failure
  stands (`EndpointAnswers.SkippedExactly`);
- a translated Responses input carries exactly what its items carry (`ResponsesInput.TranslateInput`);
- every lease is for an account that was in scope and eligible during the try, and no other account
  was better (`PoolLeases.EveryLeaseIsBest`); the counters equal live leases and queue guards in
  every reachable state (`Pool.RunKept`);
- a patched document means the new value at every depth and keeps every unchanged item
  (`ConfigPatch.PatchMeansNext`, `ConfigPatch.UnchangedItemsKept`);
- day numbers and existing Gregorian dates correspond one to one (`CivilDate.DaysFromCivilInverts`,
  `CivilDate.CivilFromDaysInverts`, `CivilDate.CivilIsConsecutive`).

Properties that do not hold as one would expect, each with its exact condition:

- two account ids that share a delta file name (`a.b` and `a/b`) can lose one of the two accounts, and
  an update that changes an id leaves the old one on disk: `AccountStore.SaveAgreesExactly`,
  `AccountStore.CollidingIdsLoseAnAccount`, `AccountStore.UpdateAgreesExactly`;
- a rejected token can be rotated twice when the persist of its successor failed, or another writer
  set it back, and a later refresh reloads it from the store: `RefreshProtocol.RotatesAgainExactly`,
  `RefreshProtocol.FailedPersistRotatesTwice`;
- a health set between a refresh's reading of the old health and its mark is overwritten, while one
  set after the mark survives: `RefreshProtocol.LaterHealthSurvives`,
  `RefreshProtocol.HealthSetBeforeMarkIsLost`;
- a stale endpoint write is accepted when the revision counter has wrapped around, or when the
  account's entry was evicted and the clears since it came back, none if it did not, add up to the
  stale revision: `EndpointCache.StaleWriteRefused`, `EndpointCache.EvictionReadmitsStaleWrite`;
- a scalar replaced by a table or by an array of tables loses its decoration:
  `ConfigPatch.ChangedValueDecor`, `ConfigPatch.ScalarLosesDecor`;
- a catalogue commit dropped between its two halves can leave a removed account's models in the
  cache: `ModelCatalog.AbandonedCommit`, `ModelCatalog.AbandonedRemovalDisagrees`.

## Model

| member | source | states |
|---|---|---|
| `EventStream.ParseValue` | crates/kproxy-kiro/src/event_stream.rs:142-177 | a header value of any type is read within the block and never moves the offset back, or the block is refused |
| `EventStream.ParseHeadersLoop` | crates/kproxy-kiro/src/event_stream.rs:129-180 | on arbitrary bytes the header loop ends and computes the recursive header reading that `FrameEncoding` inverts |
| `EventStream.DecodeFrame` | crates/kproxy-kiro/src/event_stream.rs:64-94 | an accepted frame consumes at least 16 bytes and at most what the buffer holds |
| `EventStream.LaterBytesDoNotMatter` | crates/kproxy-kiro/src/event_stream.rs:64-94 | once an attempt has found a frame or an error, bytes that arrive later change nothing |
| `EventStream.FrameBuffer.Decode` | crates/kproxy-kiro/src/event_stream.rs:64-94 | takes exactly the decoded frame off the front of the buffer; without a whole frame, or on an error, the buffer stays as it was |
| `EventStream.FrameBuffer.DecodeEof` | crates/kproxy-kiro/src/event_stream.rs:96-108 | at the end of the stream a left-over part of a frame is an error and an empty buffer is not |
| `EventStream.StepOfBody` | crates/kproxy-kiro/src/client.rs:1094-1124 | decoding a whole body is its first frame followed by decoding the rest |
| `EventStream.DrainBuffer` | crates/kproxy-kiro/src/client.rs:1102-1111 | the inner loop removes whole frames and leaves what the rest of the body continues, up to the first error |
| `EventStream.DrainAtEnd` | crates/kproxy-kiro/src/client.rs:1113-1123 | the final loop yields what decoding the remaining bytes at once yields |
| `EventStream.CollectEvents` | crates/kproxy-kiro/src/client.rs:1094-1124 | chunking invariance: for every cutting into chunks, and with a transport error after any of them, the events or the first error are those of decoding the concatenation at once |
| `FrameEncoding.HeadersRoundTrip` | crates/kproxy-kiro/src/event_stream.rs:129-180 | parsing encoded headers of all ten types gives their string headers, the last duplicate winning |
| `FrameEncoding.ParseAcceptsExactlyEncodings` | crates/kproxy-kiro/src/event_stream.rs:129-180 | a header block is accepted if and only if it is the encoding of some well-formed headers |
| `FrameEncoding.FrameRoundTrip` | crates/kproxy-kiro/src/event_stream.rs:64-127 | a well-formed frame, followed by any bytes, decodes to its event and consumes exactly its length |
| `FrameEncoding.AcceptedIsFrame` | crates/kproxy-kiro/src/event_stream.rs:64-127 | whatever is accepted is a well-formed frame with both CRC fields right or zero |
| `FrameEncoding.DecodeAcceptsExactlyFrames` | crates/kproxy-kiro/src/event_stream.rs:64-127 | an event is produced if and only if the buffer starts with a well-formed frame |
| `FrameEncoding.WaitsExactly` | crates/kproxy-kiro/src/event_stream.rs:64-79 | the decoder waits exactly while the prelude, or a frame with possible lengths, is incomplete |
| `FrameEncoding.RefusesExactly` | crates/kproxy-kiro/src/event_stream.rs:64-127 | which total length, headers length, prelude checksum and message checksum is refused, in terms of the bytes |
| `FrameEncoding.BodyRoundTrip` | crates/kproxy-kiro/src/event_stream.rs:64-94 | concatenated frames decode to their events in order, up to an upstream error, with no byte left over |
| `AccountStore.AppliedDelta` | crates/kproxy-store/src/accounts.rs:265-289 | a delta file sets or removes exactly its own account and keeps ids distinct |
| `AccountStore.Load` | crates/kproxy-store/src/accounts.rs:44-71 | for every listing order, the loaded list read by id is the base overlaid with the deltas |
| `AccountStore.DeltaFilesAfter` | crates/kproxy-store/src/accounts.rs:88-107 | after any prefix of a delta save, every delta file holds what its last writer wrote |
| `AccountStore.AfterRewrite` | crates/kproxy-store/src/accounts.rs:109-117 | what the disk holds after the new base and any prefix of the delta removals |
| `AccountStore.DeltaSaveIsCrashSafe` | crates/kproxy-store/src/accounts.rs:88-107 | stopped after any number of delta files, an account has its old or its new value, and its new one when completed; for an account whose file another id has taken, if and only if the base says so |
| `AccountStore.RewriteIsCrashSafe` | crates/kproxy-store/src/accounts.rs:109-118 | the same for the rewrite that then clears the delta files |
| `AccountStore.SaveIsCrashSafe` | crates/kproxy-store/src/accounts.rs:74-118 | the same for a save as a whole, whichever path it takes |
| `AccountStore.DistinctNamesAreSafe` | crates/kproxy-store/src/accounts.rs:74-118 | without colliding file names every account has its old or its new value after any prefix, and its new one at the end |
| `AccountStore.DeltaSaveWithCollisions` | crates/kproxy-store/src/accounts.rs:251-263 | with colliding file names a completed delta save persists every account if and only if each account pushed out of its file already has its value in the base |
| `AccountStore.CollidingIdsLoseAnAccount` | crates/kproxy-store/src/accounts.rs:74-107 | two accounts with such ids added to a compressed base above the threshold: the save takes the delta path, completes, and the one written first is lost |
| `AccountStore.DotAndSlashCollide` | crates/kproxy-store/src/accounts.rs:251-263 | `a.b` and `a/b` are two such ids |
| `AccountStore.InsertKeepsAgreement` | crates/kproxy-store/src/accounts.rs:152-186 | inserting, or refusing a duplicate, keeps memory and disk in agreement |
| `AccountStore.RemoveKeepsAgreement` | crates/kproxy-store/src/accounts.rs:188-197 | so does removing by id or e-mail |
| `AccountStore.ReplacedKeepsAgreement` | crates/kproxy-store/src/accounts.rs:199-234 | so do update and replace, after which the account has the new value |
| `AccountStore.SaveAgreesExactly` | crates/kproxy-store/src/accounts.rs:74-118 | a save that completes, stops anywhere or fails after taking effect keeps agreement if and only if it displaces no account, clean or reported as saved, whose value the base lacks |
| `AccountStore.UpdateAgreesExactly` | crates/kproxy-store/src/accounts.rs:199-216 | an update keeps agreement if and only if it does not change the id |
| `AccountStore.DistinctNamesAreHarmless` | crates/kproxy-store/src/accounts.rs:251-263 | saves without colliding file names meet that condition |
| `AccountStore.RunKeepsAgreement` | crates/kproxy-store/src/accounts.rs:44-234 | over every run of edits, complete and interrupted saves and reloads, memory and disk agree all along (dirty entries equal memory, every other id has the same value in both) if and only if each step meets its condition |
| `AccountStore.AccountList.InsertAccount` | crates/kproxy-store/src/accounts.rs:152-186 | rejects a known id, e-mail or upstream identity, otherwise appends and marks dirty |
| `AccountStore.InsertExactly` | crates/kproxy-store/src/accounts.rs:152-186 | an account is added exactly when it clashes with none in id, e-mail or non-empty identity, so the store never holds a clash |
| `AccountStore.RemoveExactly` | crates/kproxy-store/src/accounts.rs:188-197 | removing by an id or an e-mail removes that account and no other |
| `AccountStore.PlanExactly` | crates/kproxy-store/src/accounts.rs:74-118 | when a save does nothing, writes deltas or rewrites, by the numbers of accounts and changes |
| `AccountStore.AccountList.RemoveAccount` | crates/kproxy-store/src/accounts.rs:188-197 | removes the first match and marks it as deleted |
| `AccountStore.AccountList.UpdateAccount` | crates/kproxy-store/src/accounts.rs:199-216 | mutates the first match and marks it dirty |
| `AccountStore.AccountList.ReplaceAccount` | crates/kproxy-store/src/accounts.rs:218-234 | replaces the account with the same id and marks it dirty, only when it changed |
| `AccountStore.AccountList.Save` | crates/kproxy-store/src/accounts.rs:74-118 | performs a prefix of the plan, all of it when it reports success, and clears the dirty map only then |
| `AccountStore.AccountList.WriteDeltas` | crates/kproxy-store/src/accounts.rs:91-107 | the delta loop performs a prefix of the delta writes |
| `AccountStore.AccountList.ClearDeltas` | crates/kproxy-store/src/accounts.rs:291-304 | the clearing loop performs a prefix of the removals |
| `ContextEdits.TurnsKept` | crates/kproxy-translate/src/context.rs:448-486 | after the thinking edit as many thinking turns as `keep` allows still think |
| `ContextEdits.ThinkingSurvivorsAreNewer` | crates/kproxy-translate/src/context.rs:448-486 | every turn that still thinks is newer than every stripped one |
| `ContextEdits.ClearThinkingSettles` | crates/kproxy-translate/src/context.rs:448-486 | the thinking edit leaves nothing more to strip and no emptied assistant turn |
| `ContextEdits.ResultsKept` | crates/kproxy-translate/src/context.rs:319-371 | of the clearable tool results as many as `keep` allows remain |
| `ContextEdits.SurvivorsAreNewer` | crates/kproxy-translate/src/context.rs:319-371 | every clearable result that survives is newer than every one that is cleared |
| `ContextEdits.EditToolsKeepsPairing` | crates/kproxy-translate/src/context.rs:306-416 | the sequence of tool-use and tool-result ids is unchanged and so is everything but outputs and inputs |
| `ContextEdits.EditToolsIdempotent` | crates/kproxy-translate/src/context.rs:289-416 | a second tool edit changes nothing, committed or rolled back |
| `ContextEdits.ApplyEditsIdempotent` | crates/kproxy-translate/src/context.rs:289-486 | both edits together are idempotent for every plan, trigger and estimate |
| `ContextContent.ThinkingEditByPosition` | crates/kproxy-translate/src/context.rs:448-486 | exactly the messages that do not vanish remain, in order and with all fields, and old assistant turns keep exactly their blocks that are not thinking |
| `ContextContent.ThinkingEditKeepsVoices` | crates/kproxy-translate/src/context.rs:448-486 | every text and every block that is not thinking stays, in order, and so do all call ids |
| `ContextContent.EditsKeepVoices` | crates/kproxy-translate/src/context.rs:289-486 | the same for both edits together, up to outputs of results and inputs of calls |
| `ContextContent.ClearableExactly` | crates/kproxy-translate/src/context.rs:318-358 | a result can be cleared exactly when it names a call, is not the marker, and the last call to name that id is not of an excluded tool |
| `ContextContent.CountableExactly` | crates/kproxy-translate/src/context.rs:418-446 | the trigger counts the same results and those without a call id |
| `ContextContent.ToolEditByPosition` | crates/kproxy-translate/src/context.rs:319-398 | a committed tool edit block by block: which results become the marker and which inputs are emptied, by position, and nothing else |
| `ContextContent.ToolEditDecides` | crates/kproxy-translate/src/context.rs:306-416 | the edit goes through exactly when its trigger is reached and it saves as much as asked for, and else leaves the request alone |
| `ContextEdits.ClearInBlocks` | crates/kproxy-translate/src/context.rs:339-370 | the inner backward loop clears exactly the blocks with `keep` or more newer clearable ones, and collects their call ids |
| `ContextEdits.ClearOldResults` | crates/kproxy-translate/src/context.rs:333-371 | the same for the loop over messages |
| `ContextEdits.Editor.ClearThinkingTurns` | crates/kproxy-translate/src/context.rs:448-486 | the backward loop strips exactly the old thinking turns and counts them |
| `ContextEdits.Editor.Apply` | crates/kproxy-translate/src/context.rs:289-416 | the request afterwards is the thinking edit followed by the committed tool edit, or by exactly nothing when the trigger or `clear_at_least` is not met; the counts are those of distinct cleared calls and emptied inputs |
| `Compaction.Boundary` | crates/kproxy-translate/src/context.rs:511-532 | finds the last completed assistant compaction, or none exists |
| `Compaction.BoundaryUnique` | crates/kproxy-translate/src/context.rs:511-532 | there is at most one such place |
| `Compaction.NormalizePreservesMeaning` | crates/kproxy-translate/src/context.rs:508-599 | what the model reads, block by block with the effort in force, is exactly what it read from the last completed compaction on, without failed compactions |
| `Compaction.NormalizeKeepsMessages` | crates/kproxy-translate/src/context.rs:508-599 | message by message: the result is the messages from the boundary on, cleaned of failed compactions, each under the effort it stood under before |
| `Compaction.NormalizeIdempotent` | crates/kproxy-translate/src/context.rs:508-599 | normalising twice is normalising once |
| `Compaction.RetainBlocks` | crates/kproxy-translate/src/context.rs:575-586 | the block loop removes exactly the failed compactions and counts them |
| `Compaction.RetainMessages` | crates/kproxy-translate/src/context.rs:565-592 | the message loop also drops exactly the assistant messages that this empties |
| `Compaction.EditedRequest.FindBoundary` | crates/kproxy-translate/src/context.rs:511-532 | the backward search finds the boundary |
| `Compaction.EditedRequest.NormalizeBoundary` | crates/kproxy-translate/src/context.rs:508-599 | the request and the counts afterwards are those of the normalisation |
| `RefreshProtocol.StepKept` | crates/kproxy-pool/src/refresh.rs:199-307 | every step of every call, and of any other writer, keeps lock, health and snapshots consistent |
| `RefreshProtocol.RunKept` | crates/kproxy-pool/src/refresh.rs:199-307 | so does every interleaved run |
| `RefreshProtocol.RotationEndsToken` | crates/kproxy-pool/src/refresh.rs:215-288 | after a rotation the rejected token is not in memory and no call under way can rotate for it, unless upstream answered with that token |
| `RefreshProtocol.SecondRotationNeedsReturn` | crates/kproxy-pool/src/refresh.rs:215-288 | over every run, a rotated token is rotated again only after a step brought it back: upstream issued it again, another writer installed it, or a reload found it in a store that no persist had renewed or another writer had set back |
| `RefreshProtocol.OneRotationPerRejectedToken` | crates/kproxy-pool/src/refresh.rs:215-288 | over every interleaving in which persists reach the store and nobody else brings the token back, at most one call rotates for it |
| `RefreshProtocol.RotatesAgainExactly` | crates/kproxyd/src/state.rs:900-934 | from any state with the lock free, without other writers or reissue, a token can be rotated again if and only if it is in memory, or still in the store of an IdC account, with refreshable credentials |
| `RefreshProtocol.SecondRotationExactly` | crates/kproxy-pool/src/refresh.rs:215-294 | for every run after a rotation in which the token was not yet brought back: with refreshable IdC accounts and the lock free, it can be rotated again if and only if no persist has renewed the store since, or another writer set it back |
| `RefreshProtocol.PersistDecides` | crates/kproxyd/src/state.rs:941-988 | a token left in the store stays revivable exactly when the persist of its successor writes nothing |
| `RefreshProtocol.FailedPersistRotatesTwice` | crates/kproxy-pool/src/refresh.rs:229-294 | a failed persist, a refused request that reloads, and a third call: the first token is rotated twice |
| `RefreshProtocol.NeverLeftRefreshing` | crates/kproxy-pool/src/refresh.rs:199-307 | an account that nobody is refreshing is not marked Refreshing |
| `RefreshProtocol.LaterHealthSurvives` | crates/kproxy-pool/src/state.rs:66-81 | a restoring refresh leaves the last health another task set since the mark, else the restored earlier one |
| `RefreshProtocol.HealthSetBeforeMarkIsLost` | crates/kproxy-pool/src/refresh.rs:226-227 | a health set between the read and the mark is overwritten |
| `RefreshOutcomes.RefreshEndsAsDue` | crates/kproxy-pool/src/refresh.rs:226-306 | over every run from a call's mark to its release: what it reports, by its last answer; it bans exactly when the reload failed, the reloaded credentials cannot be refreshed, or upstream failed and the call was forced or its credentials had expired; else the health is the last one set meanwhile, or the earlier one with cooling and exhausted kept and all else available |
| `RefreshOutcomes.AsksAtMostTwice` | crates/kproxy-pool/src/refresh.rs:228-264 | a call makes at most two requests and reloads at most once |
| `RefreshOutcomes.ReloadsExactly` | crates/kproxy-pool/src/refresh.rs:229-233 | only an IdC account whose first request was refused with status 400 reloads |
| `RefreshOutcomes.StartsExactly` | crates/kproxy-pool/src/refresh.rs:217-225 | which calls go on to refresh, on the fields of call and account |
| `RefreshOutcomes.SavedRefresh` | crates/kproxy-pool/src/refresh.rs:266-294 | after a saved refresh memory and store hold the same account, with the tokens of the reply and all else as it was |
| `RefreshOutcomes.PersistPutsBack` | crates/kproxyd/src/state.rs:941-988 | a persist that starts puts the new credentials back whatever other writers did, and writes exactly them or nothing |
| `PoolScheduling.SpendingNeverRestores` | crates/kproxy-pool/src/pool.rs:55-113 | using more credits never improves the credit state |
| `PoolScheduling.CreditStateExactly` | crates/kproxy-pool/src/pool.rs:55-113 | exhausted and protected, on usage, limit, caps, mark and reserve |
| `PoolScheduling.FitExactly` | crates/kproxy-pool/src/pool.rs:362-384 | the account half of eligibility: enabled, credit left beyond the reserve, model served |
| `PoolScheduling.ScoreIsLoad` | crates/kproxy-pool/src/pool.rs:386-422 | the score is the share of slots in use, of credits spent and of the idle window still to pass, each with its own weight |
| `PoolScheduling.ScoreOrdersBySlots` | crates/kproxy-pool/src/pool.rs:386-422 | with only slots weighted, the order of scores is the order of slots in use |
| `PoolScheduling.ScoreOrdersByCredits` | crates/kproxy-pool/src/pool.rs:386-422 | with only credits weighted, it is the order of the shares of the limit in force that are spent |
| `PoolScheduling.ScoreOrdersByIdleTime` | crates/kproxy-pool/src/pool.rs:386-422 | with only idle time weighted, it is the order of idle times, longest first, up to the window |
| `PoolScheduling.ScoreBounded` | crates/kproxy-pool/src/pool.rs:386-422 | with non-negative weights the score lies between zero and their sum |
| `PoolScheduling.ScoreGrowsWithLoad` | crates/kproxy-pool/src/pool.rs:386-422 | an account that is at least as busy, as much used and as recently used never scores lower |
| `PoolScheduling.SortsByScore` | crates/kproxy-pool/src/pool.rs:323-327 | the attempts are a permutation of the candidates in ascending score |
| `Pool.LeaseAdded` | crates/kproxy-pool/src/state.rs:87-94 | taking a slot keeps every active counter equal to its live leases |
| `Pool.LeaseDropped` | crates/kproxy-pool/src/pool.rs:199-205 | dropping a lease, with a machine-word decrement, does too |
| `Pool.QueueStep` | crates/kproxy-pool/src/pool.rs:225-274 | every step keeps `queued` equal to the live queue guards, and only joining below `max_queue_size` adds a regular waiter |
| `Pool.StepKept` | crates/kproxy-pool/src/pool.rs:139-384 | every step keeps both counters and the scope of scoped calls |
| `Pool.RunKept` | crates/kproxy-pool/src/pool.rs:139-384 | so does every run: active counters equal live leases, also on states that a reload has dropped |
| `Pool.NeverUnderflows` | crates/kproxy-pool/src/state.rs:96-98 | whatever is dropped next finds a positive counter |
| `Pool.FixedConfigLimits` | crates/kproxy-pool/src/pool.rs:225-274 | while the configuration stands no account exceeds its limit and regular waiters never exceed `max_queue_size` |
| `Pool.JoinDecides` | crates/kproxy-pool/src/pool.rs:237-255 | who is overflow, and how long a call may wait |
| `Pool.NoWaitNoRetry` | crates/kproxy-pool/src/pool.rs:252-260 | a call that may not wait never tries again |
| `Pool.LookThaws` | crates/kproxy-pool/src/pool.rs:362-366 | looking at an account whose cooling is over makes it available and changes no other |
| `PoolLeases.RunJustified` | crates/kproxy-pool/src/pool.rs:317-384 | at every step of every run each call has evidence, within its current try, for every candidate it holds and every account it passed over |
| `PoolLeases.EveryLeaseIsBest` | crates/kproxy-pool/src/pool.rs:299-384 | every lease, after any waits and retries, is for an account in allowed minus excluded that during the try was ready, enabled, with credit and serving the model; every other account was out of scope, not so, full, or had no lower load (slots, credits and idle time, weighted, plus jitter); and the slot respects a limit in force during the try |
| `PoolLeases.ReleaseEffect` | crates/kproxy-pool/src/pool.rs:199-205 | a dropped lease gives its slot back, dates the use, and changes no other account |
| `PoolLeases.NoneAvailableIsTrue` | crates/kproxy-pool/src/pool.rs:231-233 | a call is refused for want of accounts only after it saw every account in scope ineligible |
| `PoolLeases.NeverStuck` | crates/kproxy-pool/src/pool.rs:317-384 | the states that calls and leases refer to always exist |
| `PoolTry.AccountPool.Candidates` | crates/kproxy-pool/src/pool.rs:340-384 | the loop finds exactly the eligible accounts in scope with their scores, and changes nothing but expired cooling |
| `PoolTry.AccountPool.TryAcquire` | crates/kproxy-pool/src/pool.rs:317-338 | undisturbed, a try fails if and only if no eligible account has a free slot, and otherwise takes one slot of the account with the least score among those that have |
| `PoolTry.FirstFreeIsChosen` | crates/kproxy-pool/src/pool.rs:323-336 | the first free candidate in score order is the least of all free ones |
| `PoolTry.LeastBusyIsTaken` | crates/kproxy-pool/src/pool.rs:317-338 | with only slots weighted and no jitter, the account taken has the fewest slots in use of those with one free |
| `EndpointCache.MarkSuccessKept` | crates/kproxy-kiro/src/endpoint.rs:314-328 | a success keeps the cache consistent |
| `EndpointCache.MarkDisabledKept` | crates/kproxy-kiro/src/endpoint.rs:330-352 | so does a failure |
| `EndpointCache.BumpRevisionKept` | crates/kproxy-kiro/src/endpoint.rs:402-413 | so does a new revision, evicting the oldest entry when full |
| `EndpointCache.StepKept` | crates/kproxy-kiro/src/endpoint.rs:238-429 | every operation keeps each deque a duplicate-free enumeration of its map, each map within 500 entries, no failure map empty and no endpoint both preferred and failing |
| `EndpointCache.RunKept` | crates/kproxy-kiro/src/endpoint.rs:238-429 | so does every sequence of operations |
| `EndpointCache.RevisionIsSinceEntry` | crates/kproxy-kiro/src/endpoint.rs:398-413 | over every run a revision is the number of clears since the account's entry was last created, modulo 2^64, and 0 without an entry |
| `EndpointCache.QueueOfRun` | crates/kproxy-kiro/src/endpoint.rs:402-413 | which accounts have an entry after a run, and in which order, as a first-in first-out queue of 500 driven by the clears alone |
| `EndpointCache.EvictedExactly` | crates/kproxy-kiro/src/endpoint.rs:402-413 | an entry stays throughout a run if and only if the newer entries and the entrants leave it among the newest 500 |
| `EndpointCache.EntryLastsFor500` | crates/kproxy-kiro/src/endpoint.rs:402-413 | a new entry stays exactly until the 500th other account enters |
| `EndpointCache.StaleWriteRefused` | crates/kproxy-kiro/src/endpoint.rs:243-306 | over every run, a write with a revision read before a clear is refused and changes nothing if and only if, while the entry stays, the clears have not wrapped the counter, and once it was evicted, the clears since it came back do not add up to the old revision; otherwise it is carried out |
| `EndpointCache.EvictionReadmitsStaleWrite` | crates/kproxy-kiro/src/endpoint.rs:402-413 | right after its eviction an account accepts exactly the stale writes that carry revision 0 |
| `EndpointCache.EndpointCacheState.MarkSucceeded` | crates/kproxy-kiro/src/endpoint.rs:314-328 | the three maps and deques afterwards are those of the specification |
| `EndpointCache.EndpointCacheState.MarkSucceededIfRevision` | crates/kproxy-kiro/src/endpoint.rs:243-256 | writes if and only if the revision is the expected one |
| `EndpointCache.EndpointCacheState.MarkFailed` | crates/kproxy-kiro/src/endpoint.rs:330-352 | records the failure until its expiry and forgets the preference for that endpoint |
| `EndpointCache.EndpointCacheState.MarkFailedIfRevision` | crates/kproxy-kiro/src/endpoint.rs:270-283 | writes if and only if the revision is the expected one |
| `EndpointCache.EndpointCacheState.ClearFailuresOf` | crates/kproxy-kiro/src/endpoint.rs:291-296 | bumps the revision and removes the account's failures, keeping its preference |
| `EndpointCache.EndpointCacheState.Clear` | crates/kproxy-kiro/src/endpoint.rs:298-306 | bumps the revision and removes everything of the account |
| `EndpointCache.EndpointCacheState.Order` | crates/kproxy-kiro/src/endpoint.rs:199-236 | lists exactly the candidates without an unexpired failure, each once and in candidate order, and keeps the cache consistent |
| `EndpointCache.EndpointCacheState.CheckFailing` | crates/kproxy-kiro/src/endpoint.rs:354-372 | drops an expired failure and changes no other answer |
| `EndpointAnswers.AfterFailure` | crates/kproxy-kiro/src/endpoint.rs:330-352 | a failure counts until it expires, ends a preference for that endpoint, and changes no other answer but those of the one key evicted as oldest |
| `EndpointAnswers.AfterSuccess` | crates/kproxy-kiro/src/endpoint.rs:314-328 | a success ends that endpoint's failure and is preferred, and changes no other answer but the preference of the one key evicted as oldest |
| `EndpointAnswers.AfterClearFailures` | crates/kproxy-kiro/src/endpoint.rs:291-296 | ends exactly the account's failures |
| `EndpointAnswers.AfterClearAccount` | crates/kproxy-kiro/src/endpoint.rs:298-306 | ends exactly the account's failures and preferences |
| `EndpointAnswers.SkippedExactly` | crates/kproxy-kiro/src/endpoint.rs:199-391 | over every run, an endpoint is skipped if and only if its last failure has not expired and no later success, clear or eviction has undone it |
| `EndpointAnswers.PreferredExactly` | crates/kproxy-kiro/src/endpoint.rs:199-391 | over every run, the preferred endpoint is that of the last success unless a later failure of it, a clear or an eviction has undone it |
| `EndpointAnswers.FailureOrder` | crates/kproxy-kiro/src/endpoint.rs:330-352 | a failure puts its key behind all others, which keep their order |
| `EndpointAnswers.SuccessOrder` | crates/kproxy-kiro/src/endpoint.rs:314-328 | so does a success with preferences |
| `EndpointAnswers.StaysOnRuntime` | crates/kproxy-kiro/src/endpoint.rs:211-220 | API keys and government accounts are never sent anywhere but to the runtime endpoint |
| `EndpointAnswers.CandidateOrder` | crates/kproxy-kiro/src/endpoint.rs:221-234 | every other account has both service endpoints: the one asked for or preferred first, then that of its login kind, then the other |
| `ConfigPatch.ToItemMeans` | crates/kproxy-store/src/config_update.rs:75-87 | a fresh item means the value it was made for |
| `ConfigPatch.PatchMeansNext` | crates/kproxy-store/src/config_update.rs:28-61 | a document that means `before` comes to mean the new value, at every depth |
| `ConfigPatch.UnchangedItemsKept` | crates/kproxy-store/src/config_update.rs:28-61 | at every path whose value does not change the item is the same, decoration included |
| `ConfigPatch.ChangedValueDecor` | crates/kproxy-store/src/config_update.rs:63-87 | a scalar that changes, or an inline table that gives way to a leaf, at any depth, keeps its decoration if and only if what replaces it is neither a table nor an array of tables |
| `ConfigPatch.ScalarLosesDecor` | crates/kproxy-store/src/config_update.rs:63-87 | a decorated scalar replaced by a table, or by an array of tables, loses its decoration |
| `ConfigPatch.TablesKeepDecor` | crates/kproxy-store/src/config_update.rs:28-61 | a table that stays a table keeps its decoration and form |
| `ConfigPatch.ApplyTableDiff` | crates/kproxy-store/src/config_update.rs:28-61 | the recursive loop over the keys, in any order, computes the patch |
| `CivilDate.ClosedFormIsPlaceDate` | crates/kproxy/src/output.rs:84-101 | for every integer the closed form gives the date of the day's place by eras, centuries, four-year groups and years |
| `CivilDate.CivilIsDate` | crates/kproxy/src/output.rs:84-101 | month and day exist, by the leap-year rule |
| `CivilDate.CivilIsConsecutive` | crates/kproxy/src/output.rs:84-101 | the next day number gives the next calendar date |
| `CivilDate.EpochDate` | crates/kproxy/src/output.rs:84-101 | day 0 is 1970-01-01 |
| `CivilDate.DaysFromCivilInverts` | crates/kproxy/src/output.rs:84-101 | the day number of the computed date is the given one |
| `CivilDate.CivilFromDaysInverts` | crates/kproxy/src/output.rs:84-101 | every existing date is the date of its day number |
| `ResponsesInput.TranslateItems` | crates/kproxy-translate/src/responses.rs:147-306 | the input loop accepts exactly the inputs whose items are valid, whose call ids are distinct and whose outputs answer open calls of their kind with none left open, and its messages have each call answered once and later |
| `ResponsesInput.EveryCallAnsweredOnce` | crates/kproxy-translate/src/responses.rs:181-231 | in an accepted input each call id occurs once and has exactly one output, later and of the matching kind |
| `ResponsesInput.AnswerMatches` | crates/kproxy-translate/src/responses.rs:217-231 | an output comes after its call, has its kind, and is the first one |
| `ResponsesInput.RenderKeeps` | crates/kproxy-translate/src/responses.rs:686-723 | a merged message holds the content parts and tool calls of its run in order, has content exactly when a fragment had, and keeps role and answer |
| `ResponsesInput.FuseRenders` | crates/kproxy-translate/src/responses.rs:692-717 | merging one fragment at a time is merging the whole run |
| `ResponsesInput.MergeAssistantItems` | crates/kproxy-translate/src/responses.rs:686-723 | the loop gives one message for each maximal run of assistant fragments and each other message, covering the input in order |
| `ResponsesInput.MergedAreNotAdjacent` | crates/kproxy-translate/src/responses.rs:686-723 | no two assistant messages are adjacent afterwards |
| `ResponsesInput.MergeKeepsEvents` | crates/kproxy-translate/src/responses.rs:686-723 | merging changes neither the calls and answers nor their order |
| `ResponsesInput.ItemsCarry` | crates/kproxy-translate/src/responses.rs:147-306 | the messages carry every text with its role, every call with id, kind and body, and every answer with its content, as the items do, in order |
| `ResponsesInput.MergeCarries` | crates/kproxy-translate/src/responses.rs:686-723 | merging loses, swaps and invents none of them |
| `ResponsesInput.TranslateInput` | crates/kproxy-translate/src/responses.rs:145-317 | text, array or other input as a whole: accepted exactly when acceptable; the merged conversation keeps every call answered once and later, and carries exactly the texts, roles, calls, kinds, bodies and answers of the input, in order |
| `WebhookWorker.GatherPending` | crates/kproxy-notify/src/lib.rs:611-621 | the loop splits the queue into the matching and the other deliveries, both in order |
| `WebhookWorker.Verdict` | crates/kproxy-notify/src/lib.rs:665-690 | at most three attempts, all but the last refused before delivery; success exactly when the last one was sent; given up on a refusal only at the third |
| `WebhookWorker.History.Record` | crates/kproxy-notify/src/lib.rs:692-711 | the history is the newest thousand records |
| `WebhookWorker.History.Deliver` | crates/kproxy-notify/src/lib.rs:665-690 | one batch gets exactly one record, with that verdict |
| `WebhookWorker.AttemptsEndInVerdict` | crates/kproxy-notify/src/lib.rs:665-690 | the attempts on a batch end in exactly one record, with the verdict on their outcomes |
| `WebhookWorker.MoveInOrder` | crates/kproxy-notify/src/lib.rs:603-632 | taking a batch out of the queue lets no delivery overtake an earlier one of its line |
| `WebhookWorker.StepKept` | crates/kproxy-notify/src/lib.rs:578-711 | every step keeps conservation, order and the log |
| `WebhookWorker.RunKept` | crates/kproxy-notify/src/lib.rs:578-711 | for every arrival sequence: each received delivery is handed out or pending exactly once, pending is in arrival order, account events of one kind and events without account are handed out in arrival order, each record has one to three attempts |
| `WebhookWorker.EveryBatchIsComplete` | crates/kproxy-notify/src/lib.rs:603-632 | for every run, a batch that goes out is one event without account, or had every matching delivery received by the end of its gathering in it or in an earlier batch |
| `WebhookWorker.BeginDelivery` | crates/kproxy-notify/src/lib.rs:603-621 | the code up to the pause performs the step that starts a batch |
| `WebhookWorker.NeverStuck` | crates/kproxy-notify/src/lib.rs:589-600 | an idle worker can take whatever waits |
| `ModelCatalog.ImportKept` | crates/kproxy-copilot/src/client.rs:473-513 | importing an account keeps cache and accounts in agreement |
| `ModelCatalog.RemoveKept` | crates/kproxy-copilot/src/client.rs:603-622 | so does removing one |
| `ModelCatalog.RefreshKept` | crates/kproxy-copilot/src/client.rs:650-676 | so does refreshing one |
| `ModelCatalog.DiscoverKept` | crates/kproxy-copilot/src/client.rs:1572-1629 | so does committing a discovery of any age against the current accounts |
| `ModelCatalog.DiscoveryCommits` | crates/kproxy-copilot/src/client.rs:1572-1629 | after a saved discovery each enabled account that was discovered has exactly those models, of now, in cache and list; other enabled accounts keep an entry that is not stale |
| `ModelCatalog.CommitsStore` | crates/kproxy-copilot/src/client.rs:473-513 | what a saved import and a saved refresh leave in list and cache |
| `ModelCatalog.RemovalCommits` | crates/kproxy-copilot/src/client.rs:603-622 | a saved removal takes exactly that account and its entry |
| `ModelCatalog.UsersStayDistinct` | crates/kproxy-copilot/src/client.rs:476-488 | no user is configured twice |
| `ModelCatalog.RunAgrees` | crates/kproxy-copilot/src/client.rs:473-676 | over every interleaving, whenever the mutation lock is free every cached account exists and supports exactly the models of its entry |
| `ModelCatalog.AbandonedCommit` | crates/kproxy-copilot/src/client.rs:603-622 | a commit dropped half-way leaves agreement if and only if the missing half would not have mattered |
| `ModelCatalog.AbandonedRemovalDisagrees` | crates/kproxy-copilot/src/client.rs:603-622 | an import followed by a removal that is dropped half-way leaves the removed account's models in the cache |
| `ModelCatalog.UpdateAccounts` | crates/kproxy-copilot/src/client.rs:1608-1619 | exactly the discovered accounts get their new model list |
| `ModelCatalog.MergeModelMetadata` | crates/kproxy-copilot/src/client.rs:1894-1903 | limits become the known minimum, protocols the union with the earlier ones first |
| `ModelCatalog.OfferAdded` | crates/kproxy-copilot/src/client.rs:1881-1888 | one more offer keeps the table a summary of all offers |
| `ModelCatalog.AggregateModelCache` | crates/kproxy-copilot/src/client.rs:1869-1892 | one model for each id offered by a usable entry; a limit is the minimum of the offers and known exactly when all of theirs are; protocols are their union; the name is the first offer's |

## Left out

- HTTP clients, headers, URLs, TLS, OAuth exchanges, gzip, base64 and webhook payloads: foreign I/O; a reply is an arbitrary value.
- CRC32, UTF-8 decoding, JSON parsing and the classification of a decoded frame into an event are functions passed as parameters.
- Parsing a context-management plan from JSON, the token estimate and the token counts in the reported statistics; the other statistics are proved.
- Crashes inside one atomic file write: a write with its rename is one step. Corrupt or foreign files in the delta directory are not modelled; the disk holds what the store wrote.
- `RefreshProtocol.StepKept`: the account is always found in the pool and in the store, except that a reload or a persist may fail; restoring a rejected account file is one of the writes of other writers.
- Cancellation of a refresh in progress, which leaves the account marked, and wake-up timing of waiting acquire calls: the code promises nothing there.
- `Pool.RunKept`: a step reads an account's enabled flag, credits and model list together, and marks the time of use together with the slot; the 64-bit overflow of the number of waiters is not modelled.
- `PoolLeases.EveryLeaseIsBest`: an account state keeps its account id for life, as reloads write an account only into the state filed under its id.
- Floating-point rounding and NaN in credits and scores: reals are used.
- `EndpointCache.EndpointCacheState.Order`: one clock reading serves the whole call.
- TOML text: rendering, key order, and where a section table is placed when its parent is an inline table. `ConfigPatch` works on values, so aliasing of document nodes is not captured.
- `format_timestamp`, relative times and table rendering around `civil_from_days`: string formatting only.
- `ResponsesInput.TranslateItems`: field checks of a single item are one `problem` value, so which of several problems of one item is reported is not modelled; tool declarations and request controls are not part of this model.
- Webhook message text, incident state and alert debouncing: formatting, or state held elsewhere.
- `ModelCatalog.RunAgrees`: files on disk, token cache and semaphores are not modelled; a new account's random id is assumed not to be in use; all accounts are on the provider's own GitHub host; the lock's holder is not cancelled (that case is `ModelCatalog.AbandonedCommit`).
- Device login, model-name resolution, configuration validation, IPC, CLI and bootstrap: field checks, string heuristics or constants that would only add easy members.
