# Aegis panel: a Dafny model of its state machines

A model of the parts of the Aegis panel whose correctness depends on order, interleaving or
exact arithmetic, with proofs of what those parts keep. `dafny verify dfyconfig.toml` checks
everything. Cryptography, SQL transport and the operating system appear as functions with
stated laws, or as outcomes a step may have; clocks, random bytes and network answers are
parameters, so every statement holds for all of them.

| files | part of the system |
|---|---|
| RefreshTokens, RefreshStores, RefreshProtocol, RefreshRevocation, RefreshSurvivors, RefreshService | rotation and revocation of refresh tokens, over the in-memory and the SQL store |
| BatchedApplier, BatchedRuns | coalescing of user deltas before an apply |
| FileSystem, ApplyProtocol, ApplySafety, ApplyAgent | the agent's atomic write and reload, on a file system that can crash |
| RootCa | get-or-create of the root CA under its lock |
| AuditList | the two listings of the audit log |
| Credentials | the credential store and its two indexes |
| CronText, CronField, CronGrammar, Scheduler | cron parsing, matching, and the minute scheduler |
| BackupId, BackupStore, Retention, BackupVault, BackupSafety, BackupStops, BackupService | backup identifiers, index, retention and lifecycle |
| Provisioning | installing the agent and pairing its bearer |
| JsonText | the string escaper of the credentials handler |
| Sorting, Wrappers | shared sequences, Option and Result |

Code that changes things step by step is a class or a method with loops, tied by its
`ensures` to a function on values; the properties are lemmas about that function. Where calls
of several goroutines or requests interleave there is a state machine whose steps are single
store calls, lock operations or system calls, and the straight-line method is proved to be one
of its runs.

## Where the code does not do what is said of it

Each point names the lemma that shows it and, where there is one, the lemma that says exactly
when the promise does hold.

- `batched.go` documents at most one flush per window. A flush by size needs no tick, so a
  window can see more (`DistinctUsersFlushEveryMax`); `FlushesPerWindow` counts them exactly
  and `SmallWindowsFlushOnce` says when the promise is kept.
- Coalescing does not keep membership when SetLimit replaces a needed add or remove
  (`SetLimitLosesUser`), nor when a failed flush drops its snapshot. `MembershipKeptExactly`
  names every such event.
- `RevokeChain` covers the tokens saved by then. A rotation that has consumed its token and
  not yet saved the next one outlives it (`RevokeChainMissesRotationInFlight`);
  `SessionsAfterRevokeChain` says exactly when anything survives.
- The comment in `Refresh` names two reasons for a failed consume. An error is a third and
  revokes the chain over a valid token (`LostAnswerRevokes`); `ReuseFoundExactly` lists all.
  A login whose save took effect but reported an error leaves a session nobody was given
  (`LoginLeavesSessionExactly`).
- The two refresh stores differ at the expiry instant and for expired tokens that were never
  used (`ExpiredPresentation`); `HistoriesAgreeExactly` says when they do not.
- An apply whose reload succeeded is not always what the service runs: an older reload can
  switch last (`OverlappingReloads`). `ServiceRunsWhatIsOnDisk` gives the condition, and
  `SerialReloadsAgree` the discipline under which it holds.
- The two audit listings order equal timestamps differently (`EqualTimestampsSplitTheLists`);
  `ListsAgreeExactly` gives the condition.
- A cron step near 2^63 wraps the loop variable (`HugeStepWraps`, `StepsAreProgressionExactly`),
  and a list may begin with a negative zero (`NegativeZeroIsInAList`).
- A retention of more than 106751 days wraps, at 106752 to a cutoff in the future
  (`WrappedWindowDropsEverything`, `CutoffIsExactly`). `Store.Update` is documented to keep
  CreatedAt; the code replaces the whole row (`UpdateReplacesCreatedAt`).
- The backup index is rewritten in place: a write that stops after truncation loses every row
  for good (`TornRewriteLosesEveryRow`, `TornIndexIsForGood`); `InvAfter` and `DeletedAllTable`
  say when that has happened.
- Deleting a backup can stop after the dump is gone, leaving an ok row that cannot be restored
  (`BrokenOffDelete`, `DeleteKeepsWholeExactly`, `DeleteIsWholeOrNotBegun`).
  An ok row can also stand for an empty dump, because nobody checks that the file handle closed (`UncheckedCloseKeepsOkRow`,
  `OkRowsAreEarned`).
- Writing agent.env reports only whether chmod worked, so a node can be online while its
  agent does not hold the panel's bearer (`MisreportBreaksAgreement`); `OnlineMeansOneBearer` gives the condition.
- `rotate_panel_key.go` says the state machine forbids concurrent provisioning of a node. Two
  overlapping calls can both start and break it (`OverlapBreaksAgreement`). A re-provision also
  saves offline to online, which the transition table lacks; the code only logs that
  (`SavedStateIsEdgeExactly`).
- The escaper prints characters beyond the basic plane with five or six digits after `\u`,
  which a decoder reads as another character and literal digits (`WideCharacterIsMisread`,
  `EscaperRoundTrip`).

## Model

| member | source | states |
|---|---|---|
| RefreshStores.MemoryStore.SaveRefresh | backend/internal/auth/users.go:242-251 | the in-memory map after saving: the entry stored unused under the token's hash, replacing an equal hash |
| RefreshStores.MemoryStore.ConsumeRefresh | backend/internal/auth/users.go:257-278 | accepts exactly a known, unused token that is not past its expiry, and marks it used; an expired unused token is deleted; in every other case the map is unchanged |
| RefreshStores.MemoryStore.RevokeChain | backend/internal/auth/users.go:285-303 | marks every unused entry of the user that is not past its expiry used, and leaves all other entries as they were |
| RefreshStores.MemoryStore.RevokeOne | backend/internal/auth/users.go:312-322 | marks the one token used; an unknown token changes nothing |
| RefreshStores.MemoryStore.FindRefreshUser | backend/internal/auth/users.go:327-335 | the owner of a stored hash, used or not; the map does not change |
| RefreshStores.PgStore.SaveRefresh | backend/internal/auth/pg_store.go:280-298 | the INSERT: a new row, or failure on a hash that is already stored; hashes stay unique |
| RefreshStores.PgStore.ConsumeRefresh | backend/internal/auth/pg_store.go:308-331 | the conditional UPDATE accepts exactly an unused row with expires_at after now and marks it; expired rows stay |
| RefreshStores.PgStore.RevokeChain | backend/internal/auth/pg_store.go:338-353 | the UPDATE marks exactly the user's unused, unexpired rows |
| RefreshStores.PgStore.RevokeOne | backend/internal/auth/pg_store.go:365-388 | the UPDATE marks exactly the one unused row, expired or not; an unknown token is not an error |
| RefreshStores.PgStore.FindRefreshUser | backend/internal/auth/pg_store.go:393-408 | the SELECT gives the owner of the stored hash, used or not |
| RefreshStores.ViewOfMarked | backend/internal/auth/pg_store.go:308-388 | an UPDATE of used_at over the rows, seen through the store interface, makes exactly the tokens that meet the WHERE clause used |
| RefreshStoreEquivalence.CallAgreesExactly | backend/internal/auth/users.go:242-335 | for every table and call the two stores give the same table and reply if and only if none of three situations visible beforehand holds (saving a stored hash; consuming an unused token at or past its expiry; revoking a chain at the very instant one of its tokens expires) |
| RefreshStoreEquivalence.HistoriesAgreeExactly | backend/internal/auth/pg_store.go:280-408 | whole sequential histories give equal tables and replies after every call if and only if no call separates the stores |
| RefreshStoreEquivalence.ShadowsKept | backend/internal/auth/users.go:257-335 | with fresh hashes and no call at an expiry instant, the in-memory table stays the SQL table less some expired rows, and every reply but FindRefreshUser's is the same |
| RefreshStoreEquivalence.OnlyFindDiffers | backend/internal/auth/pg_store.go:280-408 | over any such history every reply but FindRefreshUser's is equal in both stores |
| RefreshProtocol.UsedNeverReverts | backend/internal/auth/users.go:242-322 | under any step of any interleaving a used token stays in the table, used, with its owner and expiry |
| RefreshProtocol.EachTokenAcceptedAtMostOnce | backend/internal/auth/service.go:98-130 | in every interleaving of logins, refreshes and logouts no token is accepted twice |
| RefreshProtocol.BalanceNeverRises | backend/internal/auth/service.go:77-179 | no store step raises (acceptable tokens + rotations in flight - logins) of any user |
| RefreshProtocol.LiveTokensBoundedByLogins | backend/internal/auth/service.go:77-179 | in every interleaving a user's acceptable tokens and rotations in flight together never exceed that user's logins whose save took effect, answered or not |
| RefreshProtocol.InvKept | backend/internal/auth/service.go:98-179 | every step keeps: stored tokens were saved with their owner, a minted token is private to its request, accepted tokens are distinct and used |
| RefreshRevocation.DeadIsNeverAccepted | backend/internal/auth/users.go:257-278 | a saved token that the store refuses now is refused in every continuation, whatever the requests and the clock do |
| RefreshRevocation.RevokeChainIsPermanent | backend/internal/auth/users.go:285-303 | after a RevokeChain that took effect, answered or not, no token of that user saved before the step is ever accepted again |
| RefreshSurvivors.SessionsAfterRevokeChain | backend/internal/auth/users.go:285-303 | after RevokeChain a user's sessions are bounded by the rotations in flight and later logins, in every continuation; and some continuation without a new login has an acceptable token if and only if a rotation had consumed its token and not yet saved the next, or holds an unexpired one it has minted |
| RefreshSurvivors.RevokeChainMissesRotationInFlight | backend/internal/auth/service.go:98-179 | from every state with such a rotation, and on either store, it can complete after the revocation and its token is accepted |
| RefreshSurvivors.RaceIsReachable | backend/internal/auth/service.go:98-130 | a login, a rotation and a replay lead to such a state |
| RefreshRevocation.LogoutIsPermanent | backend/internal/auth/service.go:145-151 | after a RevokeOne that took effect, answered or not, the named token is never accepted again |
| RefreshRevocation.ReuseAlwaysRevokes | backend/internal/auth/service.go:103-124 | a Refresh that presents a used token, once it runs to its end with its store calls answered, ends having revoked the owner's chain |
| RefreshReuse.ReuseFoundExactly | backend/internal/auth/service.go:103-124 | whatever others do between its two store calls, a Refresh goes on to revoke the chain if and only if its lookup is answered and: its consume was answered and refused the token as used, or as expired in the SQL store; or the token is stored at the lookup and the consume was unanswered or came before the token was saved |
| RefreshReuse.LostAnswerRevokes | backend/internal/auth/service.go:103-124 | an error from ConsumeRefresh, whether or not the call took effect, makes a Refresh revoke the chain over a valid token that was never used |
| RefreshReuse.LoginLeavesSessionExactly | backend/internal/auth/service.go:77-179 | a login issues its token if and only if SaveRefresh is answered, and its user has one more acceptable token if and only if SaveRefresh took effect, so a lost answer leaves a session nobody was given |
| RefreshRevocation.OtherUsersUntouched | backend/internal/auth/users.go:242-335 | a step changes no entry of a user it does not act for |
| RefreshRevocation.IdleUsersAreIsolated | backend/internal/auth/users.go:242-335 | through any run in which nobody acts for a user, that user's tokens stay exactly as they are |
| RefreshService.Service.Refresh | backend/internal/auth/service.go:98-130 | a run of the protocol made of this request's own calls; issues exactly for a fresh token of a known user, revokes exactly for a known used token; the table afterwards entry by entry: the token used and the new one stored for its owner for thirty days, or exactly the owner's unexpired entries used, or the token alone forgotten or used |
| RefreshService.Service.Login | backend/internal/auth/service.go:77-91 | a run of the protocol made of this request's own calls; the table gains the new token, unused, for thirty days, and no other entry changes |
| RefreshService.Service.IssuePair | backend/internal/auth/service.go:154-179 | mints, then saves, one token with the thirty-day lifetime, and changes nothing else |
| RefreshService.Service.RevokeOne | backend/internal/auth/service.go:145-151 | a run of the protocol made of this request's own calls that marks the presented token and nothing else |
| RefreshService.ExpiredPresentation | backend/internal/auth/service.go:104-124 | presenting an expired, never used token ends in a plain rejection over the in-memory store, and on the way to chain revocation over the SQL store |
| BatchedApplier.Applier.constructor | backend/internal/cores/batched.go:110-128 | an empty queue and pending map; a non-positive bound becomes 1000 |
| BatchedApplier.Applier.Enqueue | backend/internal/cores/batched.go:142-147 | appends to the channel exactly while it holds fewer than maxQueue deltas, stamping a zero time |
| BatchedApplier.Applier.Absorb | backend/internal/cores/batched.go:191-207 | first delta kept, add and remove cancel, anything else replaces |
| BatchedApplier.Applier.Flush | backend/internal/cores/batched.go:212-228 | empties the pending map; the snapshot is non-empty and lists each pending delta once, and there is none exactly when nothing was pending |
| BatchedApplier.Applier.Drain | backend/internal/cores/batched.go:234-243 | empties the queue into the pending map in order and flushes nothing |
| BatchedRuns.PendingIsPerUserFold | backend/internal/cores/batched.go:191-207 | after any deltas, pending[u] is the cancel/replace fold of u's own subsequence |
| BatchedRuns.UsersCommute | backend/internal/cores/batched.go:191-207 | two interleavings with the same per-user subsequences leave the same pending map |
| BatchedRuns.WindowLedger | backend/internal/cores/batched.go:191-207 | absorbed = pending + superseded + 2 * cancelled pairs, within one window |
| BatchedRuns.RunLedger | backend/internal/cores/batched.go:163-228 | over any run: sent = absorbed + queued; absorbed = flushed + superseded + 2 * cancelled pairs + pending; pending is each user's fold; every snapshot has one delta per user and between 1 and maxQueue of them |
| BatchedRuns.InvKept | backend/internal/cores/batched.go:163-228 | every event keeps pending below or at maxQueue, keyed by user, and the bookkeeping of past flushes |
| BatchedRuns.SizeFlushesAreRare | backend/internal/cores/batched.go:163-180 | maxQueue times the number of size-triggered flushes never exceeds the number of absorbed deltas |
| BatchedRuns.FlushesPerWindow | backend/internal/cores/batched.go:163-228 | in every stretch of every run that ends at its first tick, the number of flushes is a fold of the deltas absorbed in it (one whenever the merged map reaches maxQueue, one at the tick if anything is left), so it is at most one if and only if that fold is |
| BatchedRuns.WindowFlushesBound | backend/internal/cores/batched.go:163-228 | a window of n deltas flushes at most n / maxQueue times, rounded up |
| BatchedRuns.SmallWindowsFlushOnce | backend/internal/cores/batched.go:85-86 | the documented at most one flush per window holds for at most maxQueue deltas |
| BatchedRuns.DistinctUsersFlushEveryMax | backend/internal/cores/batched.go:163-228 | when each delta is another user's, at most one flush happens if and only if the window has at most maxQueue of them |
| BatchedRuns.EventAgreesExactly | backend/internal/cores/batched.go:191-228 | one event keeps (applied set + pending) equal to replaying every absorbed delta if and only if it is not one of the listed lossy merges and not a failed flush that would have changed something |
| BatchedRuns.MembershipKeptExactly | backend/internal/cores/batched.go:163-228 | a whole run keeps that agreement at every point if and only if no event of it is lossy |
| BatchedRuns.DisciplinedRunsKeepMembership | backend/internal/cores/batched.go:163-228 | streams without SetLimit that add only absent and remove only present users, with successful flushes, always agree, so after each flush the applied set is the desired one |
| BatchedRuns.SetLimitLosesUser | backend/internal/cores/batched.go:191-207 | for every user: add, SetLimit, remove, add leaves nothing pending although replay contains the user |
| BatchedRuns.Run | backend/internal/cores/batched.go:163-180 | what the select loop does for each stimulus in turn: a Send for each delta that finds room, a Receive for each delivery and a size flush when it falls due, a flush for each tick; the FlushFn calls are exactly the flushes, every loop head finds fewer than maxQueue pending, nothing is pending after a last tick, and shutdown drains without flushing |
| BatchedRuns.SentIsWhatFitted | backend/internal/cores/batched.go:142-180 | over any stimuli exactly the deltas that found room in the channel are sent, and the delivered ones absorbed, in order |
| BatchedRuns.TickLeavesNothingPending | backend/internal/cores/batched.go:176-228 | whatever came before, a tick leaves nothing pending and hands over, in one call, all that was |
| BatchedRuns.DeliveryMergesOne | backend/internal/cores/batched.go:171-175 | a delivery merges the oldest queued delta and hands everything over exactly when maxQueue users are then pending |
| BatchedRuns.CallsPerWindow | backend/internal/cores/batched.go:163-180 | from any head of the loop to the next tick, FlushFn is called as often as the deltas absorbed in between make due |
| ApplySafety.CrashSafe | backend/cmd/aegis-agent/apply.go:300-353 | after any interleaving of applies, at any crash point, the target reads as the previous file or as one call's whole config, which opens an object, parses, and was accepted with both settings present |
| ApplyProtocol.ValidateExactly | backend/cmd/aegis-agent/apply_core.go:94-123 | a config is accepted exactly when its first character that is no blank or line break is an opening brace, it parses as JSON and both settings are set; each error comes exactly when its own check is the first to fail |
| ApplySafety.SyncedRenameSurvives | backend/cmd/aegis-agent/apply.go:341-352 | once the directory was fsynced after the last rename, a crash leaves the last writer's config |
| ApplySafety.ServiceRunsWhatIsOnDisk | backend/cmd/aegis-agent/apply_core.go:89-152 | the file is always the last writer's validated config (or the previous file); the service runs what the file held when the reload that switched last read it, so it runs what is on disk if and only if the file holds the same now as it did then |
| ApplySafety.SerialReloadsAgree | backend/cmd/aegis-agent/apply_core.go:133-140 | when the service takes up reloads one at a time and the reload command waits for it, then once the last writer's reload has succeeded the service runs what is on disk, whatever other calls do |
| ApplyAgent.Agent.OverlappingReloads | backend/cmd/aegis-agent/apply_core.go:89-152 | from any directory at rest, two overlapping applies can both succeed and leave the service running the other config than the file holds |
| ApplySafety.FailedCallsLeaveNothing | backend/cmd/aegis-agent/apply.go:300-353 | a call that fails before its reload never reached the target, and when all calls are done only temp files whose removal failed are left over |
| ApplySafety.InvKept | backend/cmd/aegis-agent/apply.go:300-353 | each system call keeps: only renames reach the target, temp files are private and complete before rename, the visible target is the last renamed config |
| ApplySafety.InvAfter | backend/cmd/aegis-agent/apply_core.go:89-152 | that invariant over any run of any number of calls |
| ApplySafety.VisibleStays | backend/cmd/aegis-agent/apply.go:337-340 | what other processes read under the target changes by a successful rename only, and then to the renaming call's whole config |
| ApplyAgent.Agent.WriteAtomic | backend/cmd/aegis-agent/apply.go:300-353 | a run of the protocol: success leaves exactly the data visible, and past any crash once the directory is fsync'd; failure leaves the target unchanged and, if the removal worked, the directory as before |
| ApplyAgent.Agent.MakeTemp | backend/cmd/aegis-agent/apply.go:309-316 | mkdir and CreateTemp: a new empty file under an unused name, or nothing |
| ApplyAgent.Agent.FillTemp | backend/cmd/aegis-agent/apply.go:323-336 | write, fsync, close, chmod: on success the temp file holds the data, synced; only that file changes |
| ApplyAgent.Agent.Publish | backend/cmd/aegis-agent/apply.go:337-352 | rename replaces the target in one step; the directory fsync cannot fail the call |
| ApplyAgent.Agent.CleanUp | backend/cmd/aegis-agent/apply.go:317-322 | the deferred removal deletes only the call's own temp file |
| ApplyAgent.Agent.RunReload | backend/cmd/aegis-agent/apply.go:369-400 | a run of the protocol in which the service reads and switches, or does not, before the command returns |
| ApplyAgent.Agent.ApplyCore | backend/cmd/aegis-agent/apply_core.go:89-152 | each outcome exactly when: a validation error when its check is the first to fail, and then nothing is touched; a write or reload error; or success with the byte count; file, directory, service and recorded time in every case, and a fsync'd success survives any crash; no other call moves |
| RootCa.PersistRoundTrip | backend/internal/agentca/service.go:316-417 | a saved CA is read back as the same key, certificate and serial, with or without an envelope configured later |
| RootCa.DecodeKeyExactly | backend/internal/agentca/service.go:341-417 | the decoder yields a key exactly from SEC1 bytes, or from an envelope of a PEM block of SEC1, else PKCS#8 with an EC key, or of SEC1 bytes |
| RootCa.SealedRoundTrip | backend/internal/agentca/service.go:316-417 | a root whose key was sealed by hand is read back as the same CA with the envelope configured, and by no panel without it |
| RootCaService.Service.EnsureRoot | backend/internal/agentca/service.go:125-177 | a run of the protocol made of this goroutine's own steps that never replaces a stored root, stores exactly the persisted form of a generated one, returns what the store holds, caches it only on success, and tells a failed hydration from a failed generation |
| RootCaService.Service.Invalidate | backend/internal/agentca/service.go:184-188 | a run of the protocol after which the cache is empty and the store untouched |
| RootCaService.Service.RootCertPEM | backend/internal/agentca/service.go:106-113 | what it serves is the certificate of the root in the store, byte for byte as the panel saved it |
| RootCaService.RestartKeepsRoot | backend/internal/agentca/store.go:176-205 | what SaveRoot stored GetRoot gives back: a restarted panel serves the root ensured before, whatever it could have generated by then |
| RootCaProtocol.OneRoot | backend/internal/agentca/service.go:125-188 | in every interleaving at most one root is ever persisted, every successful call returns it, a populated cache equals it, and the write lock excludes all others |
| RootCaProtocol.InvKept | backend/internal/agentca/service.go:125-188 | every step of every goroutine keeps the lock discipline and what each goroutine knows about the one root |
| RootCaProtocol.LocksKept | backend/internal/agentca/service.go:125-188 | a goroutine is between lock and unlock exactly when the lock records it, so a writer is alone |
| AuditList.MemoryStore.Insert | backend/internal/audits/store.go:82-111 | appends one entry with the next id and the clock's time when it brings none; rejects a missing action or resource type |
| AuditList.MemoryStore.List | backend/internal/audits/store.go:119-181 | filter, stable sort newest first, clamped limit, blobs left out |
| AuditList.BuildQuery | backend/internal/audits/pg_store.go:178-232 | the conditions and arguments appended step by step are those of the predicates the filter asks for |
| AuditList.Append | backend/internal/audits/pg_store.go:185-218 | each condition's placeholder is the position of the argument appended with it |
| AuditList.PgStore.List | backend/internal/audits/pg_store.go:178-249 | the query's answer, scanned row by row |
| AuditList.PlaceholdersDenoteTheirValues | backend/internal/audits/pg_store.go:178-232 | for every filter each $k denotes its own predicate's value, no two share one, and the last denotes the clamped limit |
| AuditList.WhereIsMatches | backend/internal/audits/pg_store.go:178-218 | for every filter and entry the WHERE clause with its bound arguments selects the row exactly when the in-memory filter keeps the entry |
| AuditList.StableSortBreaksTies | backend/internal/audits/store.go:157-163 | the stable newest-first sort keeps equal timestamps by ascending id |
| AuditList.PgListIs | backend/internal/audits/pg_store.go:219-249 | the database's answer is the entries filtered, ordered by time then id descending, cut at the limit |
| AuditList.ListsAgreeExactly | backend/internal/audits/pg_store.go:178-249 | over any population, however the table stores it, both stores list the same sequence if and only if no listed entry shares its timestamp with another matching one |
| AuditList.MemoryListIsPage | backend/internal/audits/store.go:119-181 | the listing holds matching entries without their blobs, newest first and older ids first among equals, 100 of them by default and never more than 1000; what is not shown comes after all that is, and then the page is full |
| AuditList.PgListIsPage | backend/internal/audits/pg_store.go:178-249 | the same of the SQL listing, with newer ids first, whatever the physical order of the table |
| AuditList.EqualTimestampsSplitTheLists | backend/internal/audits/pg_store.go:223-230 | two entries of one instant are listed in opposite orders |
| Credentials.ScanIsExact | backend/internal/credentials/store.go:122-141 | the duplicate scan of the user's own list finds a row exactly when some row has that user and inbound |
| Credentials.PerformKeepsConsistent | backend/internal/credentials/store.go:122-187 | every operation with a fresh id keeps both indexes exact and (user, inbound) unique |
| Credentials.EveryRunKeepsIndexes | backend/internal/credentials/store.go:122-285 | after any run each row id is exactly once in its own two lists and nowhere else, and the scan rejects exactly existing pairs |
| Credentials.RowIsLastWritten | backend/internal/credentials/store.go:122-187 | after any run a row is what the last operation on its id that was not refused has left: the inserted row, the updated one, or none |
| Credentials.NoRowUnwritten | backend/internal/credentials/store.go:122-187 | and without any such operation there is none |
| Credentials.ListingsAgree | backend/internal/credentials/store.go:205-270 | ListByUser and ListByInbound equal ListAll filtered, as sequences |
| Credentials.MemoryStore.Insert | backend/internal/credentials/store.go:122-153 | validation order with exactly when each error comes; the row as given, last in its two lists, every other list as before |
| Credentials.MemoryStore.Update | backend/internal/credentials/store.go:158-172 | the row with the new value and time, everything else and both indexes as before; an empty value or a missing row is refused |
| Credentials.MemoryStore.Delete | backend/internal/credentials/store.go:176-187 | the row is gone, its id cut out of its two lists with the others in their order, every other list as before; a missing row is not found |
| Credentials.MemoryStore.RemoveID | backend/internal/credentials/store.go:277-285 | the list without the id, order kept |
| Credentials.MemoryStore.GetByID | backend/internal/credentials/store.go:190-199 | a row is found exactly when it is listed under its own user and inbound, and then under no other |
| Credentials.MemoryStore.ListByUser | backend/internal/credentials/store.go:205-223 | exactly the user's rows, each once, by inbound then id |
| Credentials.MemoryStore.ListByInbound | backend/internal/credentials/store.go:228-246 | exactly the inbound's rows, each once, by user then id |
| Credentials.MemoryStore.ListAll | backend/internal/credentials/store.go:252-270 | every row once, by user, inbound, id |
| CronField.StepsAreProgressionExactly | backend/internal/backups/schedule.go:74-78 | the 64-bit loop `i += step` yields the intended values if and only if the step after the last value does not overflow |
| CronField.StepLoop | backend/internal/backups/schedule.go:74-78 | the stepping loop collects exactly those values |
| CronField.ParseCronField | backend/internal/backups/schedule.go:47-114 | the branches of the parser in their order, with their errors |
| CronField.ParseList | backend/internal/backups/schedule.go:96-113 | the list branch: first error wins, values sorted without repeats |
| CronGrammar.EveryMeans | backend/internal/backups/schedule.go:61-79 | a star with a step parses to every step-th value of the range if and only if the step stays in 64 bits |
| CronGrammar.RangeEveryMeans | backend/internal/backups/schedule.go:61-79 | a range with a step likewise |
| CronGrammar.RangeMeans | backend/internal/backups/schedule.go:84-94 | a range parses to exactly its values in order |
| CronGrammar.HugeStepWraps | backend/internal/backups/schedule.go:74-78 | step 9223372036854775807 gives a day field two negative values |
| CronGrammar.NegativeZeroIsInAList | backend/internal/backups/schedule.go:80-113 | a dash in front does not make a range, so -0,5 is a list of 0 and 5 |
| CronGrammar.ParseMeansForm | backend/internal/backups/schedule.go:47-143 | a text that spells a form in range parses, and to the strictly increasing list of exactly the values the form denotes if and only if its steps stay in 64 bits |
| CronGrammar.ParsesExactlyTheForms | backend/internal/backups/schedule.go:36-143 | a field parses if and only if it spells one of the documented forms within its bounds |
| CronGrammar.StepFieldError | backend/internal/backups/schedule.go:61-73 | with a slash: a step that is no positive number is the error, otherwise that of the range in front |
| CronGrammar.RangeErrorExactly | backend/internal/backups/schedule.go:120-143 | start and end fail as no numbers, out of bounds or reversed, each exactly when its check is the first to fail |
| CronGrammar.RangeFieldError | backend/internal/backups/schedule.go:84-94 | with a dash that is not in front: exactly those errors |
| CronGrammar.ListFieldError | backend/internal/backups/schedule.go:96-113 | otherwise: the error of the first part that is no number or out of bounds |
| CronGrammar.ExprErrorExactly | backend/internal/backups/schedule.go:172-195 | without five words the error is the field count, otherwise that of the first field that has one |
| CronGrammar.ExprFieldByField | backend/internal/backups/schedule.go:172-195 | an expression is accepted with these five lists exactly when its five words parse to them, each within the bounds of its field |
| CronGrammar.ListRoundTrip | backend/internal/backups/schedule.go:96-113 | any non-empty subset of a field's range, printed as a comma list, parses to itself |
| CronGrammar.CronRoundTrip | backend/internal/backups/schedule.go:172-195 | five printed value sets, read as a whole expression, are themselves again |
| CronGrammar.ParseCron | backend/internal/backups/schedule.go:172-195 | splits at white space into exactly five fields and parses each with its bounds; the first bad field is the error |
| CronText.AtoiOfItoa | backend/internal/backups/schedule.go:100-132 | reading a printed number gives the number |
| CronText.AtoiExactly | backend/internal/backups/schedule.go:62-132 | a text is read as n exactly when it is a sign or none, any zeros and the decimal digits of n, within 64 bits |
| CronText.FieldsOfSpaced | backend/internal/backups/schedule.go:173 | whatever white space stands before, between and after the words, exactly the words are found |
| CronText.JoinOfSplit | backend/internal/backups/schedule.go:96 | joining the parts of a split gives the text back |
| CronText.SplitOfJoin | backend/internal/backups/schedule.go:96 | splitting joined parts gives the parts back |
| CronText.FieldsOfJoin | backend/internal/backups/schedule.go:172-180 | the words of a spaced line are the words |
| Scheduler.ParsedFieldIsProper | backend/internal/backups/schedule.go:47-114 | a parsed field is strictly increasing and within its bounds if and only if no step of its loop leaves 64 bits |
| Scheduler.ParsedExprIsProper | backend/internal/backups/schedule.go:172-195 | all five fields of an accepted expression are so if and only if none of its steps leaves 64 bits |
| Scheduler.LengthTestIsFullness | backend/internal/backups/schedule.go:224-226 | for a parsed field, having full length is the same as holding every value of the range |
| Scheduler.MatchesIsDayRule | backend/internal/backups/schedule.go:205-231 | matching depends on the five value sets only: day-of-month or weekday when both are restricted, otherwise the restricted one alone |
| Scheduler.ParsedExprMatchesByDayRule | backend/internal/backups/schedule.go:172-231 | every accepted expression without such a step fires by the day rule |
| Scheduler.SchedulerState.MaybeFire | backend/internal/backups/schedule.go:323-383 | fires exactly when the instant lies in a later minute that matches while the context is live; the minute it lies in is remembered either way |
| Scheduler.SchedulerState.ReloadCron | backend/internal/backups/service.go:604-639 | a bad expression is refused and the installed one stays |
| Scheduler.SchedulerState.Run | backend/internal/backups/schedule.go:298-309 | the tick loop fires exactly the specified minutes, for any ticks and any reloads between them |
| Scheduler.FiredMinutesIncrease | backend/internal/backups/schedule.go:323-383 | whatever the ticks do, even step back, the fired minutes strictly increase |
| Scheduler.FiresAtFirstTick | backend/internal/backups/schedule.go:323-383 | with time going forward a minute fires if and only if its first tick matches the cron installed then |
| Scheduler.DayFiresMinutesTimesHours | backend/internal/backups/schedule.go:205-383 | with wildcard day and month fields a day of one tick a minute fires once for each listed minute of each listed hour |
| BackupId.EncodeInstant | backend/internal/backups/service.go:850-862 | for every 64-bit instant the encoding has exactly 14 characters, and the truncating branch is never taken |
| BackupId.NewBackupID | backend/internal/backups/service.go:850-867 | the identifier is the prefix, the fixed-width digits and the tail |
| BackupId.NaturalIsFixed | backend/internal/backups/service.go:855-862 | padding the upper-cased text with zeros gives the base-32 digits at fixed width |
| BackupId.IdTellsInstant | backend/internal/backups/service.go:850-867 | read in base 32, the fourteen digits of an identifier are the instant it was made at |
| BackupId.IdsSortByTime | backend/internal/backups/service.go:842-867 | identifiers made at different instants compare exactly as the instants do, whatever the random tails, and differ |
| BackupStore.LocalStore.WriteIndex | backend/internal/backups/store.go:178-191 | the index holds the given rows, oldest first in some order of equal instants; or it is unchanged when the file could not be created; or, the write having stopped after truncation, it decodes no more; or it holds the rows although an error is reported |
| BackupStore.LocalStore.Insert | backend/internal/backups/store.go:194-208 | adds the row, with every way the rewrite can end; an id that is present is refused, and so is everything on an index that does not decode |
| BackupStore.LocalStore.Update | backend/internal/backups/store.go:211-225 | replaces the whole row of that id, with every way the rewrite can end; an absent id is refused |
| BackupStore.UpdateReplacesCreatedAt | backend/internal/backups/store.go:211-225 | the stored creation time becomes the caller's |
| BackupStore.LocalStore.Get | backend/internal/backups/store.go:228-244 | the row of the id, or not-found |
| BackupStore.LocalStore.List | backend/internal/backups/store.go:247-263 | every row once, newest first; rows of one instant in either order |
| BackupStore.LocalStore.Delete | backend/internal/backups/store.go:267-287 | removes the row, with every way the rewrite can end; an absent id is no error and no write |
| BackupStore.CallsAnswer | backend/internal/backups/store.go:194-287 | insert, update and delete in the caller's terms: the error of each case and the table after each end of the rewrite |
| BackupStore.Compact | backend/internal/backups/store.go:274-282 | moving the kept rows down inside the slice leaves exactly the rows of other ids, in order |
| Retention.CutoffIsExactly | backend/internal/backups/service.go:679-681 | the age window is the configured number of days if and only if that is at most 106751 |
| Retention.WrappedWindowDropsEverything | backend/internal/backups/service.go:679-681 | at 106752 days the duration wraps and a pass drops even a backup made this instant |
| Retention.RetentionIsPrefix | backend/internal/backups/service.go:682-694 | the ids dropped are those after a newest-first prefix |
| Retention.DropsWhatIsNotCovered | backend/internal/backups/service.go:679-694 | up to 106751 days the loop drops exactly the rows beyond maxCount or older than the window |
| Retention.KeptWithinCount | backend/internal/backups/service.go:685-688 | the prefix is no longer than maxCount |
| Retention.SecondPassDropsNothing | backend/internal/backups/service.go:668-701 | a list of what stayed, in any order of equal instants, has nothing to drop under the same cutoff |
| BackupVault.DeletedKeeps | backend/internal/backups/service.go:473-508 | Delete, failing at any step, keeps: the index decodes exactly when no rewrite was torn, and then files belong to rows and ok rows are true of the files they have |
| BackupVault.OkRowDescribesBytes | backend/internal/backups/service.go:744-805 | an ok row gives the size and hash of the bytes on disk; they are the whole compressed dump if closing the file handle, which nobody checks, worked |
| BackupVault.UncheckedCloseKeepsOkRow | backend/internal/backups/service.go:759-764 | with nothing on disk when the unchecked handle closes, the row is still ok, of size zero |
| BackupVault.StoredFrame | backend/internal/backups/service.go:302-413 | Create leaves other files alone, and other rows too unless it tears the index |
| BackupVault.RefusedInsert | backend/internal/backups/service.go:311-322 | a Create whose insert is refused touches no file and reports an unreadable index, an id in use or an unwritable index, each exactly then |
| BackupVault.FailedCreateSaysWhy | backend/internal/backups/service.go:336-378 | Create reports the first step that failed, in order, and the failed row says the same when it can be stored |
| BackupVault.FailedUpdateSaysWhy | backend/internal/backups/service.go:385-398 | when only the last update fails its error is reported, and the row records it if the second update lands |
| BackupVault.SuccessfulCreate | backend/internal/backups/service.go:302-413 | a successful Create adds exactly one ok row with size, hash and counts, the dump and its checksum file |
| BackupVault.DeleteReports | backend/internal/backups/service.go:473-508 | what Delete's answer means: gone without an error; a file in the way and the row still there; or the index unreadable, or unwritable once the files are gone |
| BackupVault.InvAfter | backend/internal/backups/service.go:302-508 | after any run of Create, Delete and Cleanup with any failures reported to them (process stops: StopsKeepVaultSound): the index decodes if and only if no rewrite of it was torn, and then no file lacks a row and ok rows describe the files they have |
| BackupVault.TornRewriteLosesEveryRow | backend/internal/backups/store.go:178-191 | deleting one backup with a torn rewrite loses every row while the other backups' files stay |
| BackupVault.TornIndexIsForGood | backend/internal/backups/store.go:162-176 | and no later operation changes anything |
| BackupSafety.CleanupLeavesNewestPrefix | backend/internal/backups/service.go:668-701 | with working deletions a pass leaves exactly the newest-first prefix of rows at positions below maxCount and not older than the window (up to 106751 days), and no file of any other row |
| BackupSafety.SecondPassChangesNothing | backend/internal/backups/service.go:668-701 | a second pass at the same instant changes nothing, however it orders backups of equal age |
| BackupSafety.DeletedAllTable | backend/internal/backups/service.go:695-699 | exactly the rows whose own deletion completes are gone, unless some deletion of a row tears the index: then all are |
| BackupSafety.NewBackupSurvives | backend/internal/backups/service.go:400-405 | a backup newer than every other survives the pass its own Create runs if and only if no deletion of that pass tears the index |
| BackupSafety.DeleteKeepsWholeExactly | backend/internal/backups/service.go:473-508 | Delete leaves the index decodable and every ok row with its files if and only if it neither stops between removing the dump of an ok row and removing the row nor tears the index |
| BackupSafety.BrokenOffDelete | backend/internal/backups/service.go:482-491 | an ok backup whose checksum file cannot be removed keeps its row and has lost its dump |
| BackupSafety.OkRowsAreEarned | backend/internal/backups/service.go:302-413 | in any run with any failures every ok row is the work of one earlier Create whose dump, copy, closes, stat, hash and checksum file all succeeded; its dump, if still there, is what that Create wrote, and the whole compressed dump if the file handle closed |
| BackupSafety.OkBackupsStayRestorable | backend/internal/backups/service.go:302-508 | in any run whose deletions finish what they start and whose index rewrites are not torn, every ok row has a dump and a checksum file matching its hash, both from such a Create |
| BackupSafety.FailedCreateLeavesNoDump | backend/internal/backups/service.go:337-398 | a failed Create whose removals work leaves a dump if and only if only its last index update failed; its failed row, when it can be stored, says so |
| BackupStops.EffectsAreTheOperations | backend/internal/backups/service.go:302-508 | carried out to the end, the listed index rewrites, file writes and removals are exactly what Create (up to its pass) and Delete do |
| BackupStops.CreateStopIsFailure | backend/internal/backups/service.go:302-413 | wherever Create's process stops, between two writes or inside one, some Create that only failed leaves the same index and files, and it checks out only if that Create's dump did |
| BackupStops.DeleteStopIsFailure | backend/internal/backups/service.go:473-508 | the same for Delete |
| BackupStops.DeleteIsWholeOrNotBegun | backend/internal/backups/service.go:473-508 | a process that stops inside the deletion of an ok backup keeps every ok row restorable if and only if it stops before the first removal or after the index rewrite |
| BackupStops.StopsAddNothing | backend/internal/backups/service.go:302-508 | every vault a run with process stops reaches, a run whose operations only fail reaches too, with the same backups created |
| BackupStops.StopsKeepVaultSound | backend/internal/backups/service.go:302-508 | however operations fail and wherever the process stops: the index decodes if and only if no rewrite of it was torn, no file then lacks a row, and each ok row describes its files and comes from one Create whose checks all passed |
| BackupService.Service.RunDumpToFile | backend/internal/backups/service.go:744-805 | succeeds exactly when every checked step did; a failed run removes the partial file |
| BackupService.Service.Create | backend/internal/backups/service.go:302-413 | one at a time; the whole effect on rows and files, including the retention pass whose failure is ignored |
| BackupService.Service.Store | backend/internal/backups/service.go:307-398 | the steps of Create in order, with the failed row and, on each error before the last update, the removed dump |
| BackupService.Service.Delete | backend/internal/backups/service.go:473-508 | dump, then checksum file, then row; each failure stops there; a missing row is no error |
| BackupService.Service.Cleanup | backend/internal/backups/service.go:668-701 | deletes what the policy drops from the list it read; failed deletions are passed over |
| Provisioning.OnlineMeansOneBearer | backend/internal/bootstrap/provisioner.go:328-568 | while calls for one node do not overlap: a node marked online has one bearer in the panel, in agent.env and in the running agent if and only if its agent.env was not last written by a command that reported success without the bearer in place, or by a stray one |
| Provisioning.UnspoiledRunsAgree | backend/internal/bootstrap/provisioner.go:328-568 | hence with failures at any stage, but none of those two, every online node agrees |
| Provisioning.MisreportBreaksAgreement | backend/internal/bootstrap/installer.go:388-401 | whenever the command reports success (agent.env is there and chmod works) without the bearer in the file, one call that otherwise works puts the node online with the panel alone holding the bearer |
| Provisioning.LateWriteBreaksAgreement | backend/internal/bootstrap/ssh.go:582-587 | a command that goes on after its caller stopped waiting breaks a node that is online by then |
| Provisioning.CallStepKeeps | backend/internal/bootstrap/provisioner.go:482-540 | each remote command or row update keeps what is known of how far a call has brought its node |
| Provisioning.OnlineIsLeftAlone | backend/internal/bootstrap/provisioner.go:353-356 | no step of provisioning changes a node that is online |
| Provisioning.OnlyNewAndOfflineAreProvisioned | backend/internal/bootstrap/provisioner.go:353-356 | through any run, however often provisioning is asked for, a node that is neither new nor offline keeps its state and bearer |
| Provisioning.OverlapBreaksAgreement | backend/internal/bootstrap/provisioner.go:328-540 | from a panel at rest, two overlapping calls for one node can both end well and leave it online while the panel holds the other call's bearer |
| Provisioning.SavedStateIsEdgeExactly | backend/internal/bootstrap/state.go:103-148 | the state a call saves is an edge of the transition graph except from offline to online |
| Provisioning.Panel.Install | backend/internal/bootstrap/installer.go:298-358 | succeeds exactly when every stage does; agent.env and what the agent has read in every case; the row is untouched |
| Provisioning.Panel.Provision | backend/internal/bootstrap/provisioner.go:328-568 | a run of the protocol with no step of another call; succeeds exactly from new or offline with every stage working; state, bearer and answer in every case; after success panel, agent.env and agent agree exactly when the bearer got into the file |
| Provisioning.Panel.Record | backend/internal/bootstrap/provisioner.go:501-540 | keeps the bearer of a working install, then saves the state; row and answer in every case: online exactly when the install worked and the bearer was kept |
| JsonText.CredentialJSONString | backend/internal/credentials/admin_handler.go:304-326 | the buffer built rune by rune is the escaped text between quotes |
| JsonText.EscaperRoundTrip | backend/internal/credentials/admin_handler.go:300-326 | the output is always a JSON string by section 7 of RFC 8259, and it decodes to the text less the dropped control characters if and only if every character is in the basic plane |
| JsonText.WideCharacterIsMisread | backend/internal/credentials/admin_handler.go:318-321 | a character of the next fifteen planes decodes to another one followed by a digit |

## Left out

- HTTP handlers, routers, command lines, gRPC, SSH and SFTP sessions, configuration and the frontend: plumbing with easy claims.
- argon2id, JWT, X.509, age, SHA-256 and gzip: functions with round-trip laws where a property needs them. HashRefreshToken is taken to be injective (a token is named by its hash) and NewRefreshToken never to repeat.
- The SQL engine, pools, column widths and timestamp precision: each statement is its effect on the rows. PostgreSQL's microsecond rounding of expiries and the trimming of long user agents are not modelled. Users are enabled and ids well-formed.
- RefreshRevocation.ReuseAlwaysRevokes: assumes that the request's own store calls are answered, because the code ignores an error of RevokeChain.
- RefreshService.Service.Refresh: over the in-memory store only; the interleaved protocol covers both stores and failing calls.
- BatchedRuns.Run: a blocked sender is a stimulus that has no effect; producers during shutdown, and FlushFn retries (there are none), are not modelled.
- ApplyAgent.Agent.FillTemp: the mode bits chmod sets are not modelled.
- ApplyAgent.Agent.ApplyCore: the time of the last apply is recorded by one call at a time; the unsynchronised assignment of concurrent calls is not modelled.
- ApplyAgent.Agent.RunReload: how the service reads and checks its configuration, and a service that stops instead of switching.
- RootCaProtocol.OneRoot: one process only, since the SQL upsert lets a second process overwrite the root. EnsureNodeCerts takes no lock across read and save, so no such claim is made for it.
- AuditList.MemoryStore.Insert: one call at a time; the id order of concurrent inserts into the SQL table is a parameter (the rows may be stored in any order).
- Credentials.MemoryStore.Insert: returns a value, not a reference to the stored row, so a caller changing the returned row is not modelled.
- Scheduler.SchedulerState.Run: the cron installed at each tick is a parameter, in place of a goroutine calling ReloadCron; a backup that fails is still an attempt.
- BackupStore.LocalStore.ReadIndex: an index file that is truncated or cut short does not decode; index files edited by hand, which may repeat an id, are not modelled.
- BackupStore.SortSlice: any arrangement that is sorted, as the library promises no more; the library's algorithm is not modelled.
- BackupVault.InvAfter: Create, Delete and Cleanup one after another; a Delete that overlaps a Create is not modelled, nor is a loss of power after writes the operating system had not stored. The path of a dump is its id with a fixed suffix, so files are named by id.
- BackupService.Service.Create: audit records, webhooks and the contents of the metadata counts.
- Provisioning.Panel.Provision: the panel's SSH key (stored ciphertext, rotation hook) is one step that works or fails; the verify loop's waiting is its outcome; the unit file always names agent.env, so restarting it successfully means that file was read.
- Operators marking a node online by hand: no claim about the bearer could hold.
- The provider registry, capability JSON, scope lists, DSN helpers and the join scanner: easy members.
