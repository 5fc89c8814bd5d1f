# tor-socks5: a Dafny model of its persistence, caching and health logic

The repository is a SOCKS5 proxy over Tor. This project models the parts of it where several threads, processes or
crashes meet shared state, and the health-store and CI algorithms that other decisions rest on, and proves what they
keep over every run or every input.

| file | what it models |
|---|---|
| `TempProtocol.dfy` | writers, reader-side cleanups, crashing processes and the kernel racing over temp files, companions and advisory locks (`packages/persist-lock/src/temp.rs`) |
| `TempNames.dfy`, `TempCleanup.dfy` | the temp-name builder and recogniser, and one cleanup pass over a directory |
| `DnsCache.dfy` | the live DNS cache, the fallback store, cap eviction, flush, merge, query and capture as one thread runs them |
| `DnsFlush.dfy`, `DnsSave.dfy`, `DnsLocks.dfy` | the same operations interleaved: network generations and flushes, numbered saves, and the lock order |
| `Auth.dfy`, `AuthProtocol.dfy` | logins, the success cache and trust-on-first-use, alone and against other processes and registry edits |
| `KillSweep.dfy` | the sweep that kills leaked transport children while pids are reused |
| `TopK.dfy`, `Ranking.dfy`, `Schedule.dfy` | bounded selection, bridge ranking, and circuit-verification scheduling |
| `Observe.dfy` | probe rounds, rate-limited failure counters and pruning |
| `SourceLabels.dfy`, `HealthComment.dfy`, `HealthFile.dfy`, `HealthCodec.dfy` | the text file of the health store and its round trip, and a codec meeting its assumptions |
| `CiGraph.dfy`, `CiPlan.dfy` | the CI planner's dependency graph, worklist closure and plan |
| `Text.dfy`, `Health.dfy` | strings and numbers; the health record |

Concurrent protocols are labelled transition systems over values: a state, one program counter per participant, an
action per access to shared state, and crash or failure actions. A run is a sequence of states and actions; each main
theorem quantifies over all runs. Sequential code that updates things in place is written as classes and loops, each
proved against a function or relation that the lemmas are about.

Four properties that the code or its comments suggest turn out to hold only under a condition. For each there is a
concrete counterexample and an if-and-only-if:

- A live writer keeps its temp file exactly when a guard's drop always runs inside the templock section, or live
  writers never share a (pid, seq) key (`TempProtocol.SafeExactlyUnderSoundPolicies`). `Drop` falls back to unlinking
  without the section when the templock cannot be taken and calls that benign; with a shared key it is not.
- A saved DNS file is never rolled back to older data exactly when a rename that reports an error has not taken
  effect (`DnsSave.NoRollbackExactlyWhenRenameIsAtomic`). `rename_into_target` can rename and then fail the directory
  fsync, which leaves the newer data on disk and the older number recorded; the steps that roll back are exactly those
  of `DnsSave.RollsBackExactlyAfterUnreportedRename`.
- A refused login, from its beginning on, leaves the registry file alone exactly under the same condition on the save
  (`AuthProtocol.RefusalsAreCleanExactlyWhenSaveIsAtomic`); the comment in `resolve_init` promises it for every failure.
  It never writes a cache, but one that lost the race has synced its process's user list with the registry
  (`AuthProtocol.RefusedLoginStepByStep`).
- A flush leaves the best known answer for a host at least as recent exactly when the newest stamp known for it is
  inside the 24-hour window (`DnsCache.FlushKeepsBestKnownExactlyInWindow`): a live answer's window runs from its
  expiry, a stored one's from its stamp.

Two smaller ones: `parse_temp_name` accepts `+7` and `007` as well as `7`, so it recognises more than the builder
makes (`TempNames.PlusSignIsAccepted`, `TempNames.CanonicalExactlyWhenBuilt`); and an entry whose latency does not fit
64 bits of milliseconds loses its whole history on reload (`HealthFile.HistorySurvivesExactly`). Where code and
documentation differ, the model follows the code.

## Model

| member | source | states |
|---|---|---|
| TempProtocol.StepKeepsInv | packages/persist-lock/src/temp.rs:422-604 | every enabled system call of a writer, cleanup, crash or kernel release keeps the invariant tying companion name, inode and lock holder together |
| TempProtocol.RunKeepsInv | packages/persist-lock/src/temp.rs:422-672 | the invariant holds in every state of every run from any leftover directory |
| TempProtocol.LiveWriterKeepsItsFiles | packages/persist-lock/src/temp.rs:422-494 | from temp creation until its rename a live writer's temp name maps to its own inode and its companion name to the inode it holds locked |
| TempProtocol.NobodyElseTouchesALiveTemp | packages/persist-lock/src/temp.rs:548-604 | no step of any other participant removes or replaces the temp of a live writer |
| TempProtocol.CleanupRemovesOnlyOwnerlessTemps | packages/persist-lock/src/temp.rs:582-672 | when a cleanup unlinks a temp, no live writer owns it |
| TempProtocol.PublishedBytesNeverChange | packages/persist-lock/src/temp.rs:466-480 | once an inode has been published no later step of anybody changes its contents |
| TempProtocol.LogListsTheRenames | packages/persist-lock/src/temp.rs:502-545 | the publication history is exactly the renames of the run, each once and in order, with the concatenated chunks of its guard's writes between opening its temp and the rename, read off the actions |
| TempProtocol.TargetHoldsOneGuardsBytes | packages/persist-lock/src/temp.rs:502-545 | at every point the target is as it was initially or holds exactly the chunks that the guard of the last rename wrote since opening its temp, read off the actions |
| TempProtocol.SoloWriterPublishes | packages/persist-lock/src/temp.rs:422-565 | from any reachable state a writer that meets no obstacle can publish any bytes, after which the target holds exactly those and neither temp, companion nor lock is left |
| TempProtocol.SoloCleanupRemoves | packages/persist-lock/src/temp.rs:582-604 | from any reachable state a cleanup that meets nobody removes an unowned temp and its companion, present or not, and changes no other name, file or lock |
| TempProtocol.OrphanPassSparesTemps | packages/persist-lock/src/temp.rs:652-671 | in no run does the pass over orphan companions unlink a temp |
| TempProtocol.BadRun | packages/persist-lock/src/temp.rs:548-565 | a concrete run in which a drop outside the section and a shared key cost a live writer its temp |
| TempProtocol.SafeExactlyUnderSoundPolicies | packages/persist-lock/src/temp.rs:548-565 | live temps are safe in every run if and only if drops run in the section or live writers never share a key |
| TempNames.BuiltNameParses | packages/persist-lock/src/temp.rs:339-362 | a built name parses back to its pid and seq for its own target |
| TempNames.RecognisesExactlySpelledNames | packages/persist-lock/src/temp.rs:349-362 | a name is recognised exactly when it is a dot, the target, two numbers in some accepted spelling within 32 and 64 bits, and the suffix |
| TempNames.RecognisedForOneTarget | packages/persist-lock/src/temp.rs:349-362 | no name is recognised for two different targets |
| TempNames.BuiltNameBelongsToOneTarget | packages/persist-lock/src/temp.rs:339-362 | a built name is recognised for its own target and for no other |
| TempNames.PlusSignIsAccepted | packages/persist-lock/src/temp.rs:349-362 | a name with a plus sign is recognised although no builder call makes it |
| TempNames.CanonicalExactlyWhenBuilt | packages/persist-lock/src/temp.rs:339-362 | a recognised name is the built one exactly when both numbers are spelled without sign or superfluous zeros |
| TempCleanup.Directory.RemoveTempIfUnlocked | packages/persist-lock/src/temp.rs:582-604 | with nobody else active, removes temp and companion exactly when no live writer holds the companion locked |
| TempCleanup.Directory.SweepCandidates | packages/persist-lock/src/temp.rs:621-651 | the first loop removes every recognised temp without a live owner, with its companion |
| TempCleanup.Directory.SweepOrphans | packages/persist-lock/src/temp.rs:652-671 | the second loop removes companions whose temp is gone and whose owner is not alive |
| TempCleanup.Directory.CleanupTempFilesWith | packages/persist-lock/src/temp.rs:621-672 | a pass alone removes exactly the doomed names, nothing else and never the templock |
| TempCleanup.OwnershipIsStable | packages/persist-lock/src/temp.rs:582-604 | removing ownerless names changes nobody's ownership |
| TempCleanup.PassLeaves | packages/persist-lock/src/temp.rs:621-672 | what both loops leave is the directory without the doomed names |
| DnsCache.MergeKeepsGreatestStamp | packages/bridge-probe/src/dns.rs:554-569 | after any merges a host's entry carries the greatest stamp ever offered and is one of the answers offered |
| DnsCache.GreatestStampIs | packages/bridge-probe/src/dns.rs:554-569 | that stamp bounds all offers and is attained, whatever their order |
| DnsCache.MergeOrderIsIrrelevant | packages/bridge-probe/src/dns_hint.rs:143-161 | any two orders of the same offers leave the same stamp for every host |
| DnsCache.MakesRoomLeaves | packages/bridge-probe/src/dns.rs:317-341 | cap handling leaves room, changes nothing it keeps or below 2048 answers, and drops only answers at least 24 hours past expiry or, when 2048 others remain, exactly 512 of those, none expiring later than any kept |
| DnsCache.ShedClosest | packages/bridge-probe/src/dns.rs:327-338 | sorting by expiry and removing a quarter of the cap drops exactly that many, soonest expiry first |
| DnsCache.MakeRoom | packages/bridge-probe/src/dns.rs:317-341 | the cap check as code meets its relation |
| DnsCache.Resolver.InsertCapped | packages/bridge-probe/src/dns.rs:317-341 | the answer goes in stamped with the current generation and a new version, within the cap, and no other answer is changed or added |
| DnsCache.Resolver.RememberAnswerIfGeneration | packages/bridge-probe/src/dns.rs:249-267 | an answer is stored exactly when the captured generation is current, for the time asked but at least 60 seconds and at most 30 minutes, and its identity is returned |
| DnsCache.Resolver.RememberFailureIfGeneration | packages/bridge-probe/src/dns.rs:269-303 | a failure is stored, for 120 seconds, exactly when the generation is current and no unexpired positive answer is there |
| DnsCache.Resolver.InvalidateIfCurrent | packages/bridge-probe/src/probe/dns_invalidation.rs:83-110 | an entry is dropped exactly when it is the observed one and holds every tried address |
| DnsCache.Resolver.MergeDiskFallbackEntry | packages/bridge-probe/src/dns.rs:559-569 | a strictly newer stamp replaces the stored entry |
| DnsCache.Resolver.SeedDiskFallback | packages/bridge-probe/src/dns_hint.rs:151-161 | the loop merges every hint in order |
| DnsCache.Resolver.FlushDnsCache | packages/bridge-probe/src/dns.rs:405-457 | a flush bumps the generation and empties the live cache; the store gains exactly the answers with addresses that expired at most 24 hours ago, each replacing only an older one, and so never an empty answer |
| DnsCache.MergeListing | packages/bridge-probe/src/dns.rs:428-452 | merging the preserved answers one by one in any order equals the host-by-host migration |
| DnsCache.Resolver.BestKnownAnswer | packages/bridge-probe/src/dns_hint.rs:116-142 | returns the live answer exactly when it has addresses and expired at most 24 hours ago, else the stored one exactly when stamped at most 24 hours ago |
| DnsCache.Resolver.CaptureSnapshots | packages/bridge-probe/src/dns.rs:749-788 | the live part lists exactly the live answers with addresses that expired at most 24 hours ago, the store part exactly the other hosts' answers stamped at most 24 hours ago, and together each host once with the answer the query would give |
| DnsCache.SnapshotIsBestKnown | packages/bridge-probe/src/dns.rs:749-788 | the capture's filters and the query agree for every host, in both directions |
| DnsCache.FlushKeepsBestKnownExactlyInWindow | packages/bridge-probe/src/dns.rs:426-452 | a flush leaves the best known answer at least as recent exactly when the newest stamp is in the window or nothing was known |
| DnsCache.FlushCanLoseAnAnswer | packages/bridge-probe/src/dns.rs:196-198 | an answer servable before a flush and gone after it |
| DnsFlush.StepKeepsInv | packages/bridge-probe/src/dns.rs:272-457 | every section of every thread keeps current generations, gate ownership and the safety of moving answers |
| DnsFlush.RunKeepsInv | packages/bridge-probe/src/dns.rs:272-457 | in every state of every run each live entry belongs to the current network generation, with the rest of the invariant |
| DnsFlush.GenerationOnlyGrows | packages/bridge-probe/src/dns.rs:372-373 | the generation never goes back and every flush moves it on |
| DnsFlush.StaleLookupPublishesNothing | packages/bridge-probe/src/dns.rs:342-362 | a lookup that began before a flush publishes nothing after it |
| DnsFlush.FailureNeverReplacesFreshPositive | packages/bridge-probe/src/dns.rs:272-303 | a failed lookup never replaces an unexpired positive answer for the same host |
| DnsFlush.CapturesExcludeFlushes | packages/bridge-probe/src/dns.rs:391-457 | while a capture is under way no flush clears or merges |
| DnsFlush.LiveListingIsCurrent | packages/bridge-probe/src/dns.rs:751-764 | what a capture lists from the live cache is of the generation it records |
| DnsFlush.CaptureMissesNothingMoved | packages/bridge-probe/src/dns.rs:740-788 | every capture reads one generation and lists each host once; any in-window answer a flush has moved is listed from the store at least as recent, or its host is listed with a live answer of a later generation |
| DnsFlush.NothingMovedIsLost | packages/bridge-probe/src/dns.rs:426-452 | outside a flush every answer ever moved is in the store or overtaken there by one as recent |
| DnsFlush.FlushMovesExactly | packages/bridge-probe/src/dns.rs:426-436 | a step moves an answer out of the live cache exactly when it is a flush and the answer has addresses and expired at most 24 hours ago |
| DnsFlush.CaptureListsExactly | packages/bridge-probe/src/dns.rs:751-764 | a capture lists from the live cache exactly the answers a flush would move at that moment |
| DnsFlush.DiskCaptureListsExactly | packages/bridge-probe/src/dns.rs:765-788 | and from the store exactly the answers of hosts not yet listed that were stamped at most 24 hours ago |
| DnsFlush.StoreHoldsOnlyOffered | packages/bridge-probe/src/dns.rs:554-569 | every stored answer was stored at the start, was merged from outside or was moved by a flush of the run |
| DnsFlush.StoreStaysPositive | packages/bridge-probe/src/dns.rs:426-452 | no remembered failure ever reaches the store, however flushes and failed lookups interleave |
| DnsFlush.PublishAnswerSteps | packages/bridge-probe/src/dns.rs:249-267 | storing an answer through the object is exactly the protocol's publication step |
| DnsFlush.PublishFailureSteps | packages/bridge-probe/src/dns.rs:269-303 | so is remembering a failure |
| DnsFlush.InvalidateSteps | packages/bridge-probe/src/probe/dns_invalidation.rs:83-110 | so is an invalidation |
| DnsFlush.MergeSteps | packages/bridge-probe/src/dns.rs:559-569 | so is a merge from outside |
| DnsFlush.FlushSteps | packages/bridge-probe/src/dns.rs:405-457 | a flush of the object leaves what the protocol's sections of an uninterrupted flush leave, for any order in which the answers are listed |
| DnsFlush.RunIsOldOrNewer | packages/bridge-probe/src/dns.rs:317-320 | between any two points of a run every live answer is unchanged or has a version not given out before |
| DnsFlush.InvalidationSparesNewerAnswers | packages/bridge-probe/src/probe/dns_invalidation.rs:83-110 | invalidating an answer seen earlier removes that very answer or nothing, never a newer one or one of another generation |
| DnsSave.StepKeepsInv | packages/bridge-probe/src/dns.rs:668-796 | every step of every save to every path, and a process restart, keeps capture order, lock ownership and publication order |
| DnsSave.RunKeepsInv | packages/bridge-probe/src/dns.rs:668-796 | the same in every state of every run |
| DnsSave.CaptureNumbersFollowTheData | packages/bridge-probe/src/dns.rs:740-796 | of two captures of a path one has the smaller number exactly when it read both stores before the other read either |
| DnsSave.PublishedGenerationsIncrease | packages/bridge-probe/src/dns.rs:702-722 | the generations recorded as published strictly increase |
| DnsSave.OkMeansPublished | packages/bridge-probe/src/dns.rs:704-724 | a save that returned Ok left a published generation at least its own |
| DnsSave.TurnedAwayExactlyBehindASuccess | packages/bridge-probe/src/dns.rs:694-715 | a job is turned away exactly when a save at least as new has succeeded, so failed newer saves never veto it |
| DnsSave.RunKeepsFiles | packages/bridge-probe/src/dns.rs:716-722 | with an all-or-nothing rename every file holds the data of its last recorded or just renamed generation |
| DnsSave.RollbackHappens | packages/persist-lock/src/temp.rs:531-545 | a run in which a rename reported as failed lets older data replace newer |
| DnsSave.NoRollbackExactlyWhenRenameIsAtomic | packages/bridge-probe/src/dns.rs:694-722 | files are never rolled back if and only if a failed rename leaves the target alone |
| DnsSave.RollsBackExactlyAfterUnreportedRename | packages/bridge-probe/src/dns.rs:694-722 | in any run a step rolls a path back exactly when it is an effective rename and the last effective rename before it was of a newer generation and reported an error |
| DnsSave.PersistPathState.AllocateGeneration | packages/bridge-probe/src/dns.rs:789-796 | the section does what the protocol action does, and the number is above that of every capture of the path so far |
| DnsSave.PersistPathState.PublishSection | packages/bridge-probe/src/dns.rs:702-724 | the section does what the job's protocol actions do one after another, never takes the recorded generation back, and returns Ok only at or below it |
| DnsLocks.CallClimbs | packages/bridge-probe/src/dns.rs:375-394 | flush with any number of answers, capture, publication, merges, query and lookup acquire locks only in rising rank and release all |
| DnsLocks.SomebodyCanStep | packages/bridge-probe/src/dns.rs:375-394 | in any state of rank-respecting threads with work left, some thread can step |
| DnsLocks.NoDeadlock | packages/bridge-probe/src/dns.rs:405-457 | however many threads make whatever calls, no reachable state with an unfinished thread is stuck |
| DnsLocks.EveryCallCompletes | packages/bridge-probe/src/dns.rs:798-845 | a run that cannot continue has finished every call, and no run is longer than its operations |
| Auth.HitVerifies | packages/auth/src/state.rs:266-284 | a cache hit against a hash is a password that verifies against that hash |
| Auth.AuthState.VerifyWithCache | packages/auth/src/state.rs:266-314 | fast path or slow, the answer is the slow verifier's, and only successes are cached |
| Auth.SoundCryptoExists | packages/auth/src/compute_hash.rs:21-53 | the laws assumed of hashing and HMAC can be met together |
| Auth.AuthState.ResolveInit | packages/auth/src/state.rs:338-456 | with or without a registry file, for each failure, lost race and success: the answer, and the registry, memory and cache left behind |
| Auth.AuthState.Verify | packages/auth/src/state.rs:229-258 | a login is accepted exactly when memory shows the account enabled and the password verifies against its hash, or memory shows `init`, the password is not empty and either nothing is persisted or lock and load succeed and the file shows the account enabled, still `init` and the save succeeding or with a hash the password meets |
| Auth.SetHashStanding | packages/auth/src/users_config.rs:103-113 | provisioning changes only the first record of that name, and only its hash |
| AuthProtocol.StepKeepsInv | packages/auth/src/state.rs:229-456 | every access of every login, edit or restart keeps lock ownership, loaded snapshots, caches and history |
| AuthProtocol.RunKeepsInv | packages/auth/src/state.rs:229-456 | the same in every state of every run |
| AuthProtocol.RegistryIsSerial | packages/persist-lock/src/path_lock.rs:76-107 | the registry on disk is the initial one with the edits applied one after another in lock order |
| AuthProtocol.FirstUseClaimsOneAccount | packages/auth/src/state.rs:390-440 | a first-use save changes only the hash of one account that is enabled and `init` on disk at that moment |
| AuthProtocol.AcceptedMeansVerified | packages/auth/src/state.rs:419-456 | an accepted password verifies against the hash it was checked against, and a first use is on disk before acceptance |
| AuthProtocol.CacheAgreesWithArgon | packages/auth/src/state.rs:266-314 | in every reachable state of every process a cache hit agrees with the slow verifier, across rotations and late publishes |
| AuthProtocol.RefusalHasAReason | packages/auth/src/state.rs:229-456 | in any run a login is refused only because memory or the file shows no enabled account, the password is empty or cannot be hashed, lock, load or save failed, or the password does not verify against a hash that memory or the file showed it |
| AuthProtocol.AcceptanceHasAReason | packages/auth/src/state.rs:229-456 | and accepted only because it verifies against a hash that memory or the file showed, or memory and file showed `init`, the save succeeded and the password's own hash was adopted |
| AuthProtocol.AcceptingSteps | packages/auth/src/state.rs:438-456 | a first use leaves memory equal to the file and both locks free before it is cached, and what is cached hits for the same password and hash |
| AuthProtocol.RestartForgets | packages/auth/src/state.rs:119-140 | a restarted process has the registry of the file, an empty cache and no login under way |
| AuthProtocol.FirstConnectionWins | packages/auth/src/state.rs:395-418 | between two first uses of one name some tool has edited the registry: an account is never claimed twice in a row |
| AuthProtocol.RefusedLoginStepByStep | packages/auth/src/state.rs:229-456 | from its beginning to its refusal a login replaces the file exactly by a save that took effect and reported an error, writes no cache, and changes memory only by syncing it with the registry after a lost race |
| AuthProtocol.RefusalCanClaim | packages/persist-lock/src/temp.rs:531-545 | a run in which a refused first login has already claimed the account on disk |
| AuthProtocol.RefusalsAreCleanExactlyWhenSaveIsAtomic | packages/auth/src/state.rs:425-437 | no refused login has replaced the registry file at any of its steps if and only if a failed save cannot have replaced it |
| KillSweep.StateLocationIsTheFirstEntry | packages/bridge-verify-core/src/pt_reap.rs:171-177 | the token is the value of the first entry with the key, split at its first `=` |
| KillSweep.EntryValueIs | packages/bridge-verify-core/src/pt_reap.rs:171-177 | an entry carries a value exactly when it is the key, `=` and that value |
| KillSweep.TargetsAreTheOwned | packages/bridge-verify-core/src/pt_reap.rs:198-216 | targets are exactly the own direct children, not the process itself nor pid 0, with exactly the non-empty token |
| KillSweep.TargetsKeepOrder | packages/bridge-verify-core/src/pt_reap.rs:198-216 | targets keep the order of the children |
| KillSweep.SweepOne | packages/android-ffi/src/pt_reap.rs:104-135 | one target is opened, revalidated and signalled, and counted once |
| KillSweep.SweepOwnedChildren | packages/android-ffi/src/pt_reap.rs:97-138 | the report is the tally of the visited targets' outcomes, and handles are asked for exactly those targets in order |
| KillSweep.SweepWithPidfdGate | packages/android-ffi/src/pt_reap.rs:350-365 | without pidfd support no handle is asked for and the report says why; with it, no more kills are counted than handles asked for |
| KillSweep.PidIsStable | packages/android-ffi/src/pt_reap.rs:90-95 | a process that still has a pid has had that pid all along, over any events |
| KillSweep.KilledExactlyWhenOwned | packages/android-ffi/src/pt_reap.rs:104-135 | a process is killed exactly when no call failed and it held pid and token at open, revalidation and kill as required |
| KillSweep.OtherwiseExactly | packages/android-ffi/src/pt_reap.rs:104-135 | a target is gone, skipped or failed exactly when no process had the pid or the one that had it was reaped in time, when nobody with that pid shows the token, or when a call failed, and with that call's error |
| KillSweep.SweepKillsExactlyTheOwned | packages/android-ffi/src/pt_reap.rs:97-138 | the same for every target of a whole sweep under any interleaving of exits, reaps, execs and spawns |
| KillSweep.AllVisitedUnlessUnsupported | packages/android-ffi/src/pt_reap.rs:110-121 | every target is visited unless an earlier one found no pidfd support |
| KillSweep.EachVisitCountedOnce | packages/android-ffi/src/pt_reap.rs:129-135 | killed, gone, failed and skipped add up to the targets visited |
| KillSweep.TallyCounts | packages/android-ffi/src/pt_reap.rs:129-135 | killed, gone and failed are the numbers of such outcomes, and the failures are those of the failed ones |
| TopK.KeepBest | packages/bridge-store/src/stats.rs:472-490 | the bounded heap holds the best `limit` items after every push |
| TopK.TakeBest | packages/bridge-store/src/stats.rs:472-490 | the bounded heap equals the first `limit` elements of the full sort |
| TopK.PlacedSortIsStableSort | packages/bridge-store/src/stats.rs:370-396 | ranking with the position as tie-break is the stable sort |
| TopK.RankAndTake | packages/bridge-store/src/stats.rs:339-359 | selection equals the stable ranking cut at the limit |
| TopK.SmallerLimitIsPrefix | packages/bridge-store/src/stats.rs:472-490 | a smaller limit gives a prefix of a larger one |
| TopK.FilterSort | packages/bridge-store/src/stats.rs:304-317 | filtering and ranking commute |
| TopK.BestThatPass | packages/bridge-store/src/stats.rs:339-359 | a filtered, ranked and cut list holds only entries that pass, best first, and every entry that passes unless `limit` others rank at least as well |
| Ranking.RankIsRanking | packages/bridge-store/src/stats.rs:361-369 | the health comparison is total and transitive |
| Ranking.OtherRankings | packages/bridge-store/src/stats.rs:404-440 | so are the channel and last-attempt comparisons |
| Ranking.HealthiestBridges | packages/bridge-store/src/stats.rs:281-295 | returns only bridges without failures, reached before and not retired, in ranking order, and leaves one out only for `limit` that rank at least as well |
| Ranking.HealthiestAmong | packages/bridge-store/src/stats.rs:304-317 | the same for the entries whose bridge is among the candidates: the full ranking filtered to them and only then cut |
| Ranking.ChannelProvenBridges | packages/bridge-store/src/stats.rs:24-36 | returns only bridges with a proven channel and not retired, the most recent channel first and then more channels, and leaves one out only for `limit` that come no later |
| Ranking.RankingTiers | packages/bridge-store/src/stats.rs:361-369 | more verified circuits rank first, then the more recently verified, then more and then more recent proven channels, then more successes and lower latency |
| Ranking.RankFieldByField | packages/bridge-store/src/stats.rs:361-369 | the ranking is exactly that lexicographic order of the fields, with no time before any time |
| Ranking.ChannelFieldByField | packages/bridge-store/src/stats.rs:429-435 | the channel ranking is exactly the later channel, then the greater number of channels |
| Schedule.NeedingCircuitVerification | packages/bridge-store/src/stats.rs:217-239 | returns only entries of the pool with a proven channel, not retired, never verified or verified at least `maxAge` ago, the longest untried first, and every such entry unless `limit` others were tried no later |
| Schedule.QueueIsOrdered | packages/bridge-store/src/stats.rs:404-427 | the queue lists each due bridge once, in order |
| Schedule.PickedIsTheFront | packages/bridge-store/src/stats.rs:217-239 | a tick picks as many due positions as the limit allows and none behind one left out |
| Schedule.TickPicks | packages/bridge-store/src/stats.rs:217-239 | the same by bridge identity, with ties in map order |
| Schedule.OneTickCloser | packages/bridge-store/src/observe.rs:232-245 | while a bridge waits, each tick takes a full limit of bridges out of those ahead of it for good |
| Schedule.NoStarvation | packages/bridge-store/src/stats.rs:404-427 | with N due bridges and limit k a bridge that stays due is returned within ceil(N/k) ticks, whatever other bridges enter or leave the store |
| Observe.BridgeStore.RecordAt | packages/bridge-store/src/observe.rs:16-40 | after a success the bridge has no failures, one success more, its latency and time recorded, and is proven alive unless retired; no failure counts until a window later, and no other entry changes |
| Observe.BridgeStore.NoteFailureAt | packages/bridge-store/src/observe.rs:249-291 | a failure counts exactly for an unknown bridge or a window after the last counted attempt, grows the counter by one and records the time, and then nothing counts until another window has passed |
| Observe.BridgeStore.NoteCircuitFailureAt | packages/bridge-store/src/observe.rs:84-122 | the same for the circuit counter, which grows by one, and its own clock, and a retired bridge stays retired |
| Observe.BridgeStore.NotePermanentFailureAt | packages/bridge-store/src/observe.rs:136-156 | the bridge is retired and not proven alive, whatever its TCP record |
| Observe.BridgeStore.NoteSourceAt | packages/bridge-store/src/observe.rs:165-183 | credit is additive: the source is credited and no other loses its credit |
| Observe.BridgeStore.NoteCircuitSuccessAt | packages/bridge-store/src/observe.rs:209-214 | a built circuit clears the circuit failures of a tracked bridge, so ends its retirement, and leaves an untracked one unknown |
| Observe.BridgeStore.NoteChannelSuccessAt | packages/bridge-store/src/observe.rs:220-225 | a tracked bridge has one proven channel more, at that time |
| Observe.BridgeStore.NoteCircuitVerifiedAt | packages/bridge-store/src/observe.rs:232-238 | a verified bridge has one verification more, at that time, and goes behind every bridge last tried before in the order of the verification queue |
| Observe.BridgeStore.NoteVerificationAttemptAt | packages/bridge-store/src/observe.rs:241-245 | a failed attempt does the same without counting as a verification |
| Observe.LayersAreSeparate | packages/bridge-store/src/observe.rs:16-291 | an observation touches no other bridge's entry and no counter or time of another layer, and only successes forget failures |
| Observe.RetirementLasts | packages/bridge-store/src/observe.rs:136-156 | a retired bridge stays retired, and not proven alive, through any observations until a circuit is built through it |
| Observe.BridgeStore.Prune | packages/bridge-store/src/observe.rs:295-305 | removes and returns exactly the bridges with at least `maxFails` failures or at least `maxCircuitFails` circuit failures |
| Observe.BridgeStore.NoteProbeRound | packages/bridge-store/src/observe.rs:53-76 | after a round survivors are below both limits, survivors plus removed are exactly the old, probed and alive bridges, an alive survivor has no failures, one probed too soon or not at all is as before, and any other has one failure more |
| Observe.RoundKeys | packages/bridge-store/src/observe.rs:53-76 | before pruning a round holds exactly the old, probed and alive bridges |
| Observe.RoundProbes | packages/bridge-store/src/observe.rs:53-76 | what a round makes of each bridge before pruning, by whether it is alive, probed and due |
| Observe.RunKeepsExplained | packages/bridge-store/src/observe.rs:16-291 | after any events a tracked counter is the number of failures counted since the last success, a window apart |
| Observe.CountedFailuresSpanWindows | packages/bridge-store/src/observe.rs:249-291 | k counted failures span at least k - 1 windows, whatever the clock reads |
| Observe.PrunedOnlyAfterTheSpan | packages/bridge-store/src/observe.rs:249-305 | the failure limit is reached only after that many counted failures spanning one window less than the limit |
| Observe.NewEntriesAreTracked | packages/bridge-store/src/observe.rs:16-291 | every entry created within the run is tracked |
| SourceLabels.EncodeSource | packages/bridge-store/src/persistence.rs:68-89 | the encoding loop computes the character-wise encoding |
| SourceLabels.DecodeSource | packages/bridge-store/src/persistence.rs:94-112 | the byte loop computes the decoding |
| SourceLabels.SourceRoundTrip | packages/bridge-store/src/persistence.rs:68-112 | decoding undoes encoding for every label, through UTF-8 |
| SourceLabels.EncodedIsClean | packages/bridge-store/src/persistence.rs:68-89 | an encoded label has no comma or white space and is empty only for the empty label |
| SourceLabels.OrdinaryLabelsStay | packages/bridge-store/src/persistence.rs:68-89 | a label is stored as it is exactly when it has no comma, percent sign or white space |
| SourceLabels.MalformedEscapeStays | packages/bridge-store/src/persistence.rs:94-112 | a percent sign without two hex digits behind it decodes to itself |
| SourceLabels.Utf8RoundTrip | packages/bridge-store/src/persistence.rs:111-111 | strict decoding undoes UTF-8 encoding of every string |
| HealthComment.ParseMetaComment | packages/bridge-store/src/persistence.rs:114-212 | the token loop computes the parse, with its early exits |
| HealthComment.MetaRoundTrip | packages/bridge-store/src/persistence.rs:114-186 | parsing a written comment gives back every field but an empty label; nothing if the latency is too long |
| HealthComment.CommentWords | packages/bridge-store/src/persistence.rs:329-380 | the words of an entry's comment, key by key and field by field |
| HealthComment.LegacyCommentLoads | packages/bridge-store/src/persistence.rs:188-211 | the oldest comment loads as one success at its time with its latency and nothing else, or not at all if the latency is too long |
| HealthComment.ShortCommentLoads | packages/bridge-store/src/persistence.rs:115-186 | a comment without channel and circuit fields loads without such observations |
| HealthComment.OldSourcesLoad | packages/bridge-store/src/persistence.rs:170-182 | the older source field loads its non-empty labels as they stand |
| HealthComment.UnknownTokenIsIgnored | packages/bridge-store/src/persistence.rs:117-120 | a token with none of the known keys changes nothing |
| HealthComment.TrimTakesTheEnds | packages/bridge-store/src/persistence.rs:239-298 | trimming a line takes all white space from both ends and nothing else |
| HealthFile.LoadText | packages/bridge-store/src/persistence.rs:239-298 | the line loop with its pending metadata computes the load |
| HealthFile.LineEffects | packages/bridge-store/src/persistence.rs:239-298 | a bridge line uses up the pending metadata, usable or not; blank lines and other comments change nothing, and no comment touches an entry |
| HealthFile.OlderEntryLoads | packages/bridge-store/src/persistence.rs:188-298 | a bridge under the oldest comment loads as reached once at that time |
| HealthFile.BareLineLoads | packages/bridge-store/src/persistence.rs:239-298 | a bridge line without a comment loads without history |
| HealthFile.SaveText | packages/bridge-store/src/persistence.rs:314-394 | the text written is header, then each entry's comment and line, healthiest and most recently successful first |
| HealthFile.SavedStoreLoads | packages/bridge-store/src/persistence.rs:239-394 | loading a saved store gives back exactly the usable entries, each as it was up to milliseconds and empty labels |
| HealthFile.Reload | packages/bridge-store/src/persistence.rs:239-394 | saving and then loading through the two loops gives that store |
| HealthCodec.InvertibleCodecExists | packages/bridge-store/src/persistence.rs:214-217 | the laws assumed of bridge-line and timestamp printing can be met together |
| HealthFile.HistorySurvivesExactly | packages/bridge-store/src/persistence.rs:133-135 | an entry keeps its history exactly when its latency fits 64 bits of milliseconds |
| HealthFile.LongLatencyLosesHistory | packages/bridge-store/src/persistence.rs:133-135 | an entry that reloads without its failures |
| CiGraph.Graph.Build | scripts/testing/ci_planner.py:129-155 | construction succeeds exactly on complete metadata, and then reverse edges are the transpose of the direct dependencies |
| CiGraph.Graph.Closure | scripts/testing/ci_planner.py:165-173 | the worklist terminates and returns exactly what is reached from the seeds |
| CiGraph.Graph.Affected | scripts/testing/ci_planner.py:165-173 | over reverse edges that is exactly the packages from which a seed is reachable along dependencies |
| CiGraph.ReachesReversed | scripts/testing/ci_planner.py:153-154 | reachability along reverse edges is reachability along dependencies backwards |
| CiPlan.CollectPaths | scripts/testing/ci_planner.py:391-515 | the loop fails exactly on an unmapped path and otherwise accumulates what every path yields |
| CiPlan.MakePlan | scripts/testing/ci_planner.py:363-584 | the plan fails exactly on an unmapped path or when required workspace packages are missing, and otherwise is the planned members with exactly the segments and native targets that paths, mode and members ask for |
| CiPlan.PlanRunsExactly | scripts/testing/ci_planner.py:516-574 | a plan runs each segment exactly when some path yields it, the mode is sprint-full, or the condition of that segment holds of the paths, the configuration and the planned packages |
| CiPlan.PlanBuildsExactly | scripts/testing/ci_planner.py:516-587 | a plan builds each native target exactly when a path names it, the mode or a condition on the proxy asks for it, or the portability segment has no other target |
| CiPlan.PlanListsTheAffected | scripts/testing/ci_planner.py:516-574 | an affected plan lists exactly the workspace members from which a seed is reachable along dependencies |
| CiPlan.MorePathsNeverRemove | scripts/testing/ci_planner.py:363-574 | adding changed paths never removes a package or a segment |

## Left out

- Concurrency in the protocol files is modelled on values, one action per access to shared state; update in place and aliasing are only in the class files.
- Argon2id, HMAC-SHA256, salts and constant-time comparison are parameters with the stated laws (a computed hash verifies its password and is not `init`; HMAC is injective per name).
- Clocks, hash-map iteration order, network answers and the outcomes of system calls are parameters or action arguments.
- HealthFile.SavedStoreLoads: bridge-line and timestamp printing are assumed invertible; the replacement of ill-formed UTF-8 on decoding is a parameter.
- CiPlan.MakePlan: what each path yields (Git, TOML and workflow text, `Graph.owner`) is an input; command lists, runner rows and reasons are not modelled.
- TempProtocol.SafeExactlyUnderSoundPolicies: names of the legacy format, which current writers never make, are outside the claim; Unix unlink semantics are assumed.
- DnsSave.RunKeepsInv: several processes saving to one path, each with its own counters, are not modelled.
- DnsCache.Resolver.RememberAnswerIfGeneration: counters are unbounded numbers, without 64-bit wrap-around.
- `PathLock::acquire_bounded` appears as taking the lock or giving up; its polling loop is not modelled.
- `register_kill_marker`, its bounded first-in-first-out list of marker names, and `kill_targets`, the older selection by those names.
- Line formats of the persisted DNS file and of hints, provider scores, lookup coalescing and DoH networking.
- The counts per source and per transport, `alive_count`, `health_snapshot`, `failed_today` and the single-field getters of the health store.
- SOCKS5 framing, configuration parsing, bridge fetching, the Android engine and the command line.
