# Control plane and client core: a verified model

This project models the stateful core of the control plane (package `netalloc`, the peer service, the
stores' refresh tokens, the session handlers, the rate limiter) and the client's SHA-256 and certificate
pin, and proves what they keep over whole runs. `dafny verify dfyconfig.toml` checks everything.

| file | models | main results |
|---|---|---|
| `Netalloc.dfy`, `NetallocRuns.dfy` | the address allocator of one pool | shape of every reachable pool, failure exactly when full, equivalence with a stack and a counter |
| `Leases.dfy` | Connect and Revoke, one locked call per step, any number in flight | every held address has exactly one backer; quiescent allocators and store agree; exactly which releases keep this; device limit |
| `LeaseRuns.dfy` | runs at the edge of those guarantees | two overlapping Revokes of one peer give two users one address; the device limit is met |
| `PeerCalls.dfy` | Connect and Revoke as uninterrupted calls | failure atomicity, idempotence, distinct addresses, exhaustion needs 85 users |
| `PeerAnswers.dfy` | what those calls answer | exactly when each answer is given, and exactly what has then changed |
| `PeerService.dfy`, `Store.dfy` | the classes themselves, with their loops and branches | each method is one call of `PeerCalls` |
| `Tokens.dfy` | refresh-token rows and the one-step store operations | single use, family burns, non-interference |
| `PostgresTokens.dfy` | the three SQL statements of a consume, interleaved | linearizes to the one-step operations |
| `Sessions.dfy` | login, refresh, logout | live tokens are the tails of one chain per login; exactly when a burn is final |
| `PostgresSessions.dfy` | the session handlers over the three SQL statements | every interleaving of statements is one of whole store calls |
| `RateLimit.dfy` | the fixed-window limiter and its collection of old windows | admission decided by arrival times alone; collection changes no decision; fewer than twice the limit |
| `Primes.dfy`, `Fips180.dfy`, `Fips180Laws.dfy`, `Fips180Example.dfy`, `Sha256.dfy` | SHA-256 by the standard, and the client's masked 64-bit loop | the loop computes the standard's digest; the definition follows every trace of the standard and gives its published example |
| `Pinning.dfy` | hexadecimal rendering and the pin comparison | a pin passes exactly when it is the digest's lower-case form |

## How to read the model

- **Classes and steps.** `Allocator`, `Memory`, `Postgres`, `Service`, `SessionHandlers` and `RateLimiter`
  are classes with the source's fields; each method is proved equal to a function of the old state, and the
  run theorems are about those functions. Mutexes and single SQL statements are taken to be atomic, so an
  interleaving is a sequence of steps, and `Leases`, `PostgresTokens` and `Sessions` quantify over all of
  them. A legal step is one the predicate `Enabled` admits.
- **Hypotheses that `Enabled` states.** Identifiers made by `newID` and `newJTI` are fresh. In `Leases` one
  Revoke finds a given peer at a time. The service does not enforce this, because leases belong to users and
  not to peers: `LeaseRuns.TwoRevokesShareAnAddress` is the run that goes wrong without it. For all runs,
  with any number of Revokes, agreement holds throughout if and only if each release is `SafeToFree` at its
  moment. The device limit does not need the hypothesis. In `PostgresTokens` no token is saved while a
  consume of it is between its statements; `SaveDuringConsumeFitsExactlyWhen` says exactly which such saves
  do no harm. Saving a token again is allowed. In `Sessions` only tokens that were handed out verify, and in
  `PostgresSessions` the hypothesis on saves then follows.
- **Inputs.** Identifiers, times and the outcome of saving a peer are parameters. `Memory.SavePeer` never
  fails, but the interface allows it, so `saveFails` lets Connect take its rollback branch. Base64 decoding
  of a public key is the parameter `decodedLength`.
- **One method in several.** `Connect` is written as `Connect`, `FindDevice`, `Provision`, `StorePeer`,
  `TakeLease` and `GiveBack`, and the single Dart function as one method per loop. The branches and their
  order are the source's. Walking a Go map is a loop over its keys in any order.
- **Dart integers** are `bv64`: they wrap, and a right shift copies the sign bit. The bit length is an
  unbounded natural, so its 64-bit field holds it modulo 2^64, as the code's masks do. The table of round
  constants is one definition for both sides; that it is the right table is proved against the standard's
  description of it, the fractional parts of cube roots of the first 64 primes, and that the primes used are
  the first 64 is proved too.
- **The schedule's initializer.** The function that generates `w` in
  `client/lib/services/api_client.dart:138-145` reads `w` inside the initializer of `w`, which Dart does not
  allow for a local variable. The model follows the evident intent, an array filled in index order.
- **The rate limiter's first visit.** `api/internal/api/middleware.go:65` reads `w.count`, and `w` is nil
  when the key has no window yet, so the request panics while holding the lock. `WrittenStep` keeps this:
  the code as written does what was intended exactly when the key already has a window, and from a new
  limiter it admits nothing. The bounds and the simulation are about the evident intent, in which a first
  visit opens a window and is admitted. All routes share the limiter and use one window length, one minute,
  so the length is a constant of a run while the limit belongs to the request.
- **Where documentation and code differ.** The comment on `ConsumeRefreshToken` in
  `api/internal/store/store.go:52-54` calls a consume atomic; the Postgres one is three statements, and is
  equivalent to an atomic one under the hypotheses above. The bound of the limiter is 2 * max - 1 in a closed
  interval of one window length, and it is reached for every limit. The comment at
  `api/internal/api/router.go:176-177` says that a replay burns every outstanding session. Under interleaved
  handlers a refresh that consumed its token before the burn still saves a live successor afterwards
  (`RotationOutlivesBurn`); a burn is final if and only if no refresh of that user is between its two store
  calls. So the exact session count holds for whole handlers and an upper bound for interleaved ones. The
  limit of three devices in `api/internal/peer/service.go:27` holds when a user has at most one Connect in
  flight; with n in flight a user can get 2 + n.

## Model

| member | source | states |
|---|---|---|
| `Netalloc.Search` | `api/internal/netalloc/allocator.go:86-104` | the sweep's result: every earlier probe is taken and the one it stops at is not |
| `Netalloc.Allocator.New` | `api/internal/netalloc/allocator.go:56-63` | an allocator exists exactly for the ids of the node table, and starts empty with its cursor at .2 |
| `Netalloc.Allocator.Allocate` | `api/internal/netalloc/allocator.go:74-105` | pops the newest released address, or sweeps 253 octets from the cursor; answer and all four fields |
| `Netalloc.Allocator.Release` | `api/internal/netalloc/allocator.go:108-119` | frees a lease only for its owner, else changes nothing and says so |
| `Netalloc.SearchIsFirst` | `api/internal/netalloc/allocator.go:86-104` | the loop and the recursive search agree: there is only one first free probe |
| `NetallocRuns.SweepVisitsEachOctetOnce` | `api/internal/netalloc/allocator.go:87-92` | from any cursor, 253 probes meet every octet of .2 to .254 exactly once |
| `NetallocRuns.CursorIsModular` | `api/internal/netalloc/allocator.go:88-92` | the wrapping cursor is addition modulo 253, and a full sweep restores it |
| `NetallocRuns.SearchInSoundPool` | `api/internal/netalloc/allocator.go:86-104` | in reachable pools a sweep stops at its first probe or the pool is full |
| `NetallocRuns.AllocateSound` | `api/internal/netalloc/allocator.go:74-105` | Allocate keeps the pool invariant, hands out an address nobody holds, and extends only when nothing was released |
| `NetallocRuns.ReleaseSound` | `api/internal/netalloc/allocator.go:108-119` | Release keeps the pool invariant and the number of known addresses |
| `NetallocRuns.ExhaustedExactlyWhenFull` | `api/internal/netalloc/allocator.go:86-105` | Allocate fails exactly when all 253 addresses are held, and then changes nothing |
| `NetallocRuns.RunInvariant` | `api/internal/netalloc/allocator.go:47-119` | over any run, held and free are disjoint, duplicate-free and together the first n hosts, n being the peak of InUse, and the cursor is 2 + n mod 253 |
| `NetallocRuns.StepRefinesStack` | `api/internal/netalloc/allocator.go:74-119` | one operation answers as the stack-and-counter allocator does and keeps the correspondence |
| `NetallocRuns.RunRefinesStack` | `api/internal/netalloc/allocator.go:74-119` | a stack and a counter give the code's answers on every operation sequence |
| `NetallocRuns.ReuseIsLastInFirstOut` | `api/internal/netalloc/allocator.go:78-84` | k releases then k allocations return the released addresses in reverse, from any state |
| `Store.Memory.SavePeer` | `api/internal/store/memory.go:69-74` | stores the peer under its id and touches nothing else |
| `Store.Memory.PeersByUser` | `api/internal/store/memory.go:76-86` | exactly the user's active peers, each once |
| `Store.Memory.RevokePeer` | `api/internal/store/memory.go:88-96` | deactivates the user's own peer, or reports that there is none and changes nothing |
| `Store.Memory.GetSubscription` | `api/internal/store/memory.go:105-113` | the stored subscription, or not found |
| `Store.Memory.SaveRefreshToken` | `api/internal/store/memory.go:120-124` | the token's row is the user's and live |
| `Store.Memory.ConsumeRefreshToken` | `api/internal/store/memory.go:126-143` | first use accepts and spends; a replay burns the family; unknown tokens change nothing |
| `Store.Memory.RevokeAllRefreshTokens` | `api/internal/store/memory.go:145-153` | every token of the user is spent and no other row changes |
| `Store.Memory.BurnFamily` | `api/internal/store/memory.go:135-139` | the loop over the rows spends exactly the user's |
| `PeerService.Service.constructor` | `api/internal/peer/service.go:41-58` | one pair of new allocators for each known node that has a key |
| `PeerService.Service.MakeEntries` | `api/internal/peer/service.go:43-56` | the loop over the two node ids: nodes without a key are skipped, no allocator is shared |
| `PeerService.Service.StartsInitial` | `api/internal/peer/service.go:41-58` | a service over a store without peers is in the initial state of the run theorems |
| `PeerService.Service.Connect` | `api/internal/peer/service.go:62-118` | the whole call with all its error branches in order, as a relation on allocators and store |
| `PeerService.Service.FindDevice` | `api/internal/peer/service.go:81-89` | finds a peer with the same node, protocol and key exactly when the user has one |
| `PeerService.Service.Provision` | `api/internal/peer/service.go:94-117` | a lease and a stored peer, or an error with the lease given back |
| `PeerService.Service.TakeLease` | `api/internal/peer/service.go:94-98` | changes the pool of this node and protocol and no other |
| `PeerService.Service.GiveBack` | `api/internal/peer/service.go:146-152` | releases in the pool of this node and protocol and no other |
| `PeerService.Service.Revoke` | `api/internal/peer/service.go:130-154` | the whole call: own active peer only, lease released, peer deactivated |
| `PeerService.Service.FindPeer` | `api/internal/peer/service.go:135-144` | finds the user's own active peer, never another user's |
| `Leases.StepKeepsConsistency` | `api/internal/peer/service.go:62-154` | every locked call of every Connect and Revoke keeps lease and peer agreement |
| `Leases.TakeKeepsBacking` | `api/internal/peer/service.go:98-101` | a lease taken is backed by its Connect alone |
| `Leases.SaveKeepsBacking` | `api/internal/peer/service.go:103-117` | saving the peer passes the claim from the call to the peer |
| `Leases.UndoKeepsBacking` | `api/internal/peer/service.go:113-116` | the rollback frees an address that no peer backs |
| `Leases.FreeKeepsBacking` | `api/internal/peer/service.go:146-152` | Revoke's release frees exactly its peer's address |
| `Leases.DeactivateKeepsBacking` | `api/internal/peer/service.go:153` | deactivation moves no claim |
| `Leases.EveryHeldAddressHasOneBacker` | `api/internal/peer/service.go:62-154` | in every interleaving each held address backs exactly one active peer or one Connect in flight, and conversely |
| `Leases.QuiescentStatesAgree` | `api/internal/peer/service.go:62-154` | with no call in flight, held of each pool is the address-to-user map of its active peers |
| `Leases.FreeKeepsBackingExactlyWhenSafe` | `api/internal/peer/service.go:146-152` | a release by any Revoke keeps agreement if and only if its peer still claims the lease or nobody of that user holds the address |
| `Leases.StepKeepsBackingExactlyWhenSafe` | `api/internal/peer/service.go:62-154` | without any hypothesis on Revokes, every other step keeps agreement |
| `Leases.RunAgreesExactlyWhenReleasesAreSafe` | `api/internal/peer/service.go:62-154` | any run, with overlapping Revokes of one peer, agrees throughout if and only if each of its releases is safe |
| `LeaseRuns.TwoRevokesShareAnAddress` | `api/internal/peer/service.go:130-154` | from every start, two overlapping Revokes of one peer can end in a quiescent state where active peers of two users hold one address |
| `Leases.DeviceLimit` | `api/internal/peer/service.go:81-116` | with at most k Connects of a user in flight, never more than MAX_PEERS_PER_USER - 1 + k active peers |
| `LeaseRuns.DeviceLimitIsMet` | `api/internal/peer/service.go:81-116` | with n Connects in flight a run ends with exactly MAX_PEERS_PER_USER - 1 + n active peers, for every n the pool has room for |
| `PeerCalls.ConnectIsSerialRun` | `api/internal/peer/service.go:62-118` | a whole Connect is the result of its own steps, run to their end with nothing in between |
| `PeerCalls.RevokeIsSerialRun` | `api/internal/peer/service.go:130-154` | so is a whole Revoke |
| `PeerCalls.CallsStaySteady` | `api/internal/peer/service.go:62-154` | over every run of whole calls: agreement, at most three devices a user, one peer a device |
| `PeerCalls.ConnectIsDeterministic` | `api/internal/peer/service.go:81-89` | the answer does not depend on the order in which the store lists peers |
| `PeerCalls.FailedConnectChangesNothing` | `api/internal/peer/service.go:94-116` | an error, also after the rollback, leaves every held map and all peers as they were |
| `PeerCalls.ExhaustionNeeds85Users` | `api/internal/peer/service.go:90-101` | exhaustion is reported only with 253 active peers on the pool, of at least 85 users |
| `PeerCalls.AddressesDistinct` | `api/internal/netalloc/allocator.go:34-37` | active peers have distinct addresses across all pools, never .0, .1 or .255 |
| `PeerCalls.PeerStaysUntilRevoked` | `api/internal/peer/service.go:103-154` | no sequence of other calls changes a stored peer |
| `PeerCalls.ConnectIsIdempotent` | `api/internal/peer/service.go:81-89` | a repeated Connect, after any other calls, returns the same peer and changes nothing |
| `PeerAnswers.ConnectAnswersExactly` | `api/internal/peer/service.go:62-118` | exactly when each error is given, when an existing peer is returned and when a new one is stored |
| `PeerAnswers.NewPeerHoldsFreshAddress` | `api/internal/peer/service.go:94-117` | a new peer is the requested device on an address that was free and is now held for its user; nothing else changes |
| `PeerAnswers.PeerAddressNamesPool` | `api/internal/netalloc/allocator.go:34-37` | an active peer's address is 10.20 or 10.21 by node and 0 or 1 in the third octet by protocol |
| `PeerAnswers.RevokeAnswersExactly` | `api/internal/peer/service.go:130-154` | a Revoke succeeds exactly on the user's own active peer; that peer is then inactive, its address free, and nothing else changed |
| `PeerAnswers.RevokedAddressIsNext` | `api/internal/peer/service.go:146-152` | the next lease on the pool, for anyone, is the revoked peer's address |
| `Tokens.AcceptedAtMostOncePerSave` | `api/internal/store/store.go:52-57` | in every run acceptances of a token never outnumber its saves, and are fewer while it is live |
| `Tokens.SpentStays` | `api/internal/store/memory.go:126-153` | a spent token stays spent until saved again |
| `Tokens.BurnedFamilyNeverAccepted` | `api/internal/store/memory.go:131-140` | after a replay or revoke-all, every earlier token of the user is answered as a replay |
| `Tokens.ConsumeDecidedByRun` | `api/internal/store/store.go:52-57` | the answer to a consume from the run alone: unknown if never saved, accepted if nothing since its last save presented it or burned its family, else a replay |
| `Tokens.StepOnOwnRows` | `api/internal/store/memory.go:120-153` | an operation sees and changes the rows of one user only |
| `Tokens.OtherUsersDoNotInterfere` | `api/internal/store/memory.go:126-153` | deleting all operations on other users' tokens changes no answer and no row of this user |
| `PostgresTokens.Postgres.SaveRefreshToken` | `api/internal/store/postgres.go:159-166` | the upsert is Memory's save |
| `PostgresTokens.Postgres.ConsumeRefreshToken` | `api/internal/store/postgres.go:171-199` | run alone, the three statements are Memory's one step |
| `PostgresTokens.BurnIsReplayExactlyWhenSpent` | `api/internal/store/postgres.go:196-198` | the last statement is a one-step replay if and only if the row is still the user's and consumed |
| `PostgresTokens.StatementLinearizes` | `api/internal/store/postgres.go:171-199` | each statement is one one-step operation with its answer, or changes nothing |
| `PostgresTokens.PostgresLinearizes` | `api/internal/store/postgres.go:159-205` | every interleaving has the rows and the answers of its one-step history |
| `PostgresTokens.EveryConsumeLinearizesOnce` | `api/internal/store/postgres.go:171-199` | for every call and token, the starts equal the finishes in the history, but for a consume still between its statements |
| `PostgresTokens.AcceptedAtMostOnce` | `api/internal/store/postgres.go:168-170` | in no interleaving is a token accepted more often than it was saved |
| `PostgresTokens.SaveKeepsCallsExactlyWhenNotPresented` | `api/internal/store/postgres.go:159-199` | a save leaves every consume in flight current if and only if none of them presents the saved token |
| `PostgresTokens.SaveDuringConsumeFitsExactlyWhen` | `api/internal/store/postgres.go:173-199` | a save in the middle of a consume of the same token fits before or after it if and only if the owner has been read and the save is for another user |
| `PostgresTokens.SaveDuringConsumeIsNotLinearizable` | `api/internal/store/postgres.go:173-199` | a save between update and select gives an answer that neither order of the two operations gives |
| `Sessions.SessionHandlers.IssueTokenPair` | `api/internal/api/router.go:138-150` | the token that leaves is saved first |
| `Sessions.SessionHandlers.Login` | `api/internal/api/router.go:152-170` | one new live token for the user |
| `Sessions.SessionHandlers.Refresh` | `api/internal/api/router.go:178-200` | consumes, then issues only on acceptance for the user in the claims |
| `Sessions.SessionHandlers.Logout` | `api/internal/api/router.go:404-410` | spends every token of the caller |
| `Sessions.RefreshHandsOutLiveToken` | `api/internal/api/router.go:189-199` | a token is handed out exactly for a live token of the named user; it is new, live, that user's and accepted next, and the old one is a replay |
| `Sessions.RefusedRefreshSavesNothing` | `api/internal/api/router.go:189-193` | what each kind of refused refresh does to the rows |
| `Sessions.HonestClientStaysLoggedIn` | `api/internal/api/router.go:178-200` | a client that presents its newest token each time stays logged in through any number of refreshes |
| `Sessions.ActionKeepsChains` | `api/internal/api/router.go:138-200` | every store call of every handler keeps the chains |
| `Sessions.LiveTokensAreChainTails` | `api/internal/api/router.go:138-200` | in every interleaving saved tokens form disjoint chains and live ones are their tails |
| `Sessions.OneChainPerLogin` | `api/internal/api/router.go:152-170` | a user has exactly one chain for each login |
| `Sessions.SessionsNeverExceedLogins` | `api/internal/api/router.go:138-200` | live tokens plus rotations in flight never outnumber logins, under interleaving and failing saves |
| `Sessions.IssuedTokenNamesItsOwner` | `api/internal/api/router.go:189-193` | with genuine tokens the user-mismatch branch is never taken |
| `Sessions.RefreshIsTwoStoreCalls` | `api/internal/api/router.go:189-194` | the two store calls without interference are the whole handler |
| `Sessions.LiveTokensAreLoginsSinceBurn` | `api/internal/api/router.go:152-200` | with whole handlers, live tokens number exactly the logins since the last replay or logout |
| `Sessions.StaysOutExactlyWhenNotRotating` | `api/internal/api/router.go:189-194` | a user without live tokens gets none before the next login, whatever happens, if and only if no refresh of that user is between its store calls |
| `Sessions.LogoutIsFinalExactlyWhenNotRotating` | `api/internal/api/router.go:404-410` | a logout ends every session for good exactly when no refresh of the user is in flight |
| `Sessions.ReplayIsFinalExactlyWhenNotRotating` | `api/internal/api/router.go:176-193` | so does the burn by a replayed token |
| `Sessions.RotationOutlivesBurn` | `api/internal/api/router.go:189-194` | an interleaving in which a successor token survives a family burn |
| `PostgresSessions.StatementSimulates` | `api/internal/store/postgres.go:159-205` | each SQL statement of a handler is one store call of the session system, or changes no session |
| `PostgresSessions.RunSimulates` | `api/internal/api/router.go:138-200` | every interleaving of statements reaches the sessions of a legal interleaving of whole store calls |
| `PostgresSessions.SessionsNeverExceedLoginsOverPostgres` | `api/internal/api/router.go:138-200` | over the three-statement consume, live tokens plus rotations in flight never outnumber logins |
| `RateLimit.RateLimiter.Admit` | `api/internal/api/middleware.go:48-71` | window decision, count and collection for one request, on the intended first visit |
| `RateLimit.RateLimiter.Prune` | `api/internal/api/middleware.go:53-57` | deletes exactly the expired windows |
| `RateLimit.CollectionChangesNoDecision` | `api/internal/api/middleware.go:50-58` | with times in order, a limiter that never deletes windows admits the same requests |
| `RateLimit.CollectionDropsExactlyExpired` | `api/internal/api/middleware.go:50-58` | a collection happens exactly above ten thousand windows, leaves no expired one and drops no other |
| `RateLimit.WindowCountsArrivals` | `api/internal/api/middleware.go:49-65` | a window counts every arrival since its opening, rejected ones included, and none came later than its length after it |
| `RateLimit.AdmittedByArrivals` | `api/internal/api/middleware.go:49-71` | admission decided by arrival times alone |
| `RateLimit.FewerThanTwiceTheLimit` | `api/internal/api/middleware.go:44-73` | at most 2 * max - 1 admissions of a key in any interval of one window length |
| `RateLimit.BoundIsReached` | `api/internal/api/middleware.go:44-73` | for every limit and window length, a run with 2 * max - 1 admissions in one interval |
| `RateLimit.WrittenIsIntendedExactlyWhenSeen` | `api/internal/api/middleware.go:49-65` | the code as written does what was intended if and only if the key has a window |
| `RateLimit.WrittenAdmitsNothing` | `api/internal/api/middleware.go:48-66` | as written, the first request crashes under the lock and every later one blocks |
| `Fips180.ZeroBitsLeast` | `client/lib/services/api_client.dart:129-131` | the padding of section 5.1.1 of FIPS 180-4: the least number of zero bits |
| `Fips180.PaddedLength` | `client/lib/services/api_client.dart:127-134` | padding gives the least multiple of 64 bytes that is at least length + 9 |
| `Fips180.PaddingIsInjective` | `client/lib/services/api_client.dart:127-134` | different messages have different paddings |
| `Primes.TableHoldsFirstPrimes` | `client/lib/services/api_client.dart:116-126` | the numbers the constants are derived from are exactly the first 64 primes |
| `Fips180.RoundConstantsAreCubeRoots` | `client/lib/services/api_client.dart:116-125` | each of the 64 constants is the first 32 bits of the fractional part of the cube root of one of the first 64 primes, in order |
| `Fips180.InitialHashIsSquareRoots` | `client/lib/services/api_client.dart:126` | the initial words are the fractional parts of square roots of the first eight primes |
| `Fips180Laws.HashFollowsTrace` | `client/lib/services/api_client.dart:137-167` | in every trace of section 6.2.2, from the initial value through 64 rounds a block, the hash value after n blocks is the trace's |
| `Fips180Laws.ScheduleFollowsRecurrence` | `client/lib/services/api_client.dart:138-145` | only the standard's schedule starts with the block's words and follows the recurrence |
| `Fips180Laws.DigestReadBack` | `client/lib/services/api_client.dart:168-172` | the digest read as eight big-endian words is the last hash value |
| `Fips180Laws.ChooseSelects` | `client/lib/services/api_client.dart:149` | Ch takes its second argument where the first has ones and its third elsewhere |
| `Fips180Laws.MajoritySelects` | `client/lib/services/api_client.dart:152` | Maj takes the value two arguments agree on, and the third where they differ |
| `Fips180Example.DigestOfAbc` | `client/lib/services/api_client.dart:115-173` | the digest of "abc" is the published one, derived through all 64 rounds |
| `Sha256.PadMessage` | `client/lib/services/api_client.dart:127-134` | the two padding loops produce the standard's padding |
| `Sha256.FillBlock` | `client/lib/services/api_client.dart:128-131` | the fill loop ends, after (55 - length) mod 64 zero bytes |
| `Sha256.BigEndianByte` | `client/lib/services/api_client.dart:132-134` | shifting and masking the bit length gives its big-endian bytes |
| `Sha256.RotrWide` | `client/lib/services/api_client.dart:135` | the masked rotation of a 64-bit integer is the 32-bit rotation |
| `Sha256.FillSchedule` | `client/lib/services/api_client.dart:138-145` | the array filled in index order is the message schedule |
| `Sha256.NextWordWide` | `client/lib/services/api_client.dart:142-144` | a later schedule word computed with masks is the 32-bit word |
| `Sha256.RoundWide` | `client/lib/services/api_client.dart:148-161` | one pass of the inner loop is one round of section 6.2.2 |
| `Sha256.WordsBelow2To32` | `client/lib/services/api_client.dart:146-166` | the working variables and the hash stay below 2^32 |
| `Sha256.CompressBlock` | `client/lib/services/api_client.dart:146-166` | 64 rounds and the update of the hash are the standard's block step |
| `Sha256.HashBlocks` | `client/lib/services/api_client.dart:137-167` | after all blocks the eight integers are the standard's hash value |
| `Sha256.OutputBytes` | `client/lib/services/api_client.dart:168-172` | the output bytes are the hash words in order, most significant byte first |
| `Sha256.Sha256` | `client/lib/services/api_client.dart:115-173` | for every byte list the result is the digest of FIPS 180-4 |
| `Pinning.HexByteIsTwoDigits` | `client/lib/services/api_client.dart:111` | radix conversion and padding give exactly two lower-case digits |
| `Pinning.HexDigitsInOrder` | `client/lib/services/api_client.dart:111` | the sixteen digits are 0 to 9 and a to f, the high one first |
| `Pinning.DecodeOfHex` | `client/lib/services/api_client.dart:111` | decoding the rendering of a byte list gives it back |
| `Pinning.HexOfDecode` | `client/lib/services/api_client.dart:111` | a string that decodes is the rendering of what it decodes to |
| `Pinning.HexExactlyWhenDecodes` | `client/lib/services/api_client.dart:111` | so the rendering is injective, and the only string with its meaning |
| `Pinning.ConstTimeEquals` | `client/lib/services/api_client.dart:90-97` | the accumulation loop decides equality of strings |
| `Pinning.Sha256Hex` | `client/lib/services/api_client.dart:88` | 64 code units that decode to the digest |
| `Pinning.AcceptCertificate` | `client/lib/services/api_client.dart:29-33` | a certificate passes exactly when the pin decodes, in lower case, to its digest |

## Left out

- HTTP and Gin plumbing, JSON binding, bodies, status codes, configuration, TLS: library code and I/O.
- When the platform consults the certificate callback, and a null pin: only the callback's decision is modelled.
- Users, e-mail lookup, passwords and sign-up: only easy members.
- Argon2, RSA/JWT, HMAC and MD5: a verified refresh token is its (user, jti) claims, a password is accepted or not.
- Checkout tokens and payment webhooks: base64, JSON and HMAC libraries around a subscription update.
- Peers, users and subscriptions in Postgres: schema constraints make saving a peer differ from Memory.
- Failing or partly applied SQL statements, and transactions: each statement is atomic and succeeds.
- Store failures other than that of saving a peer or a refresh token: Memory has none.
- Expiry fields of tokens and subscriptions: no modelled code reads them.
- A service started over a store that already has peers: its allocators start empty, so the run theorems start from an empty store.
- Aliasing of stored records: the stores hand out copies, so the model uses values.
- Integers of Dart compiled to JavaScript, which are not 64 bits wide.
- Rendering of client configurations, the client's connection state, keychain and user interface: formatting and platform calls.
- Time leaks: nothing about running time is stated, also not for the constant-time comparison.
- Request times that go backwards: the limiter's theorems assume times in order, although the clock is read before the lock is taken.
- `itoa`, infrastructure, scripts and documentation.
