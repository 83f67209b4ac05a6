# OpenMentor: what its protocols keep

A Dafny model of the parts of OpenMentor whose guarantees span several functions or
several transactions at once, with proofs for every input and every run.

- **Usernames** (`Usernames`, `UsernameHistory`, `RenameProtocol`, `RenameSafety`,
  `RenameDeadlock`, `UsernameRepository`). Live slugs and redirects as tables. Each
  operation is given once as an atomic change; then renames, registrations, deletions,
  restores and purges are interleaved statement by statement under Read Committed
  (PostgreSQL manual, section 13.2.1), with row locks, advisory locks on a hash of the
  slug, and waits on uncommitted rows and index entries. Every run is shown equivalent
  to its commits in order, so the results about atomic histories hold of every
  interleaving. The repository and service methods are classes proved against the same
  atomic functions.
- **Source maps** (`SourceMaps`, `SourceMapLookup`, `SourceMapFilter`). The filter on
  decoded segments, its composition law, what lookups find afterwards, and the one-pass
  renumbering that computes it.
- **Rate limiting** (`TokenBuckets`, `BucketWindows`, `SplitCalls`,
  `SplitGrants`, `RateLimiter`). Token buckets over real
  time in a capped, evicting map, against one bucket per key forever; calls taken whole,
  then as the two steps they are. Accrual is any function of time that never goes
  backwards; the grant bound is stated for the constant rate.
- **Reviews** (`Reviews`, `ReviewProtocol`, `ReviewSafety`, `ReviewDeletion`,
  `ReviewRepository`). Token and legacy submissions, profile deletions and all other
  writes, interleaved. A deletion's revoking UPDATE works row by row on its snapshot and
  re-judges each row.
- **Mentor rows** (`Lifecycle`, `LoginLinks`, `Confirmations`, `MentorRecords`). Every
  guarded UPDATE of the mentors table as a WHERE and a SET, in any order, so callers may
  act on arbitrarily stale reads; login links and sessions; confirmation tokens.
  Services take what others commit between their read and their write as a parameter.
- **Requests** (`Requests`). The compare-and-set workflow with admin overrides.
- **Purge** (`ProfilePurge`). The cascading erasure and the nightly sweep.
- **Prices** (`Prices`). The legacy price grammar, with exact arithmetic.

## Where a guarantee ends, and exactly when

- Sorting slugs before locking avoids deadlock only if the hash keeps string order
  together: `RenameDeadlock.DeadlockFreeIffConvex` gives the exact condition and
  `RenameDeadlock.DeadlockIsReachable` a deadlocked run when it fails.
- A once-activated mentor can become draft again, exactly through the worker's release
  of a failed duplicate notice, which does not look at `activated_at`:
  `Lifecycle.DraftedAgainIff`, `Lifecycle.ActivatedMentorDrafted`.
- A deletion leaves an invitation spendable exactly when one minted after its revoking
  statement is unspent at its commit: `ReviewDeletion.DeletionClosesUnlessMinted`,
  reached by `ReviewDeletion.OpenInvitationIsReachable`.
- Purge counts are taken one statement before the deletes. They are right exactly when no
  review or invitation for the profile is committed in between, and never too high:
  `ProfilePurge.CountsRightIffUndisturbed`, and for the sweep's totals
  `ProfilePurge.Store.PurgeDeletedProfiles`.
- A rate limiter call looks its bucket up under the lock and spends outside it. A key's
  first call to complete on an evicted bucket is answered wrongly exactly when the key has
  no token at that moment: `SplitCalls.FirstBrokenCall`, `SplitCalls.SplitAnswersIff`,
  shown on the objects by `RateLimiter.SplitCallRace`. Each such call can cost one grant
  beyond what burst and rate allow, and no more: `SplitGrants.SplitGrantsAreBounded`,
  `SplitGrants.GrantsAreUnbounded`.
- Positions of removed vendor code are blamed on preceding application code:
  `SourceMapLookup.DroppedPositionsResolve` says when a position becomes unmapped and
  `SourceMapLookup.DroppedPositionMayBeMisattributed` gives an example. A null source
  leaves a map unfiltered: `SourceMapLookup.UploadsAreApplicationOnly`.
- `price-mapping.js` lines 53-57 say that currency is decided before any amount is read
  as dollars. With a decimal part it is not: `1000.00 руб` is priced at $1000, at any
  rate (`Prices.RoublesReadAsDollars`, and in general `Prices.DecimalsLoseTheCurrency`).
- `$1,000.00 / hour` is left to the mentor where `$1000.00 / hour` is $1000:
  `Prices.DecimalsWithSeparators`. `1,000 000 руб` is $1000 where `1000 000 руб` is a
  million roubles: `Prices.SpellingsAgreeIff`.

Run `dafny verify dfyconfig.toml` in this directory.

## Model

| member | source | states |
|---|---|---|
| `Usernames.RenameKeepsWellKept` | api/internal/repository/slug_history_repository.go:168-298 | A granted rename (reclaim, retire, trim, update) leaves every live name unique and no name both live and a redirect. |
| `Usernames.LegalKeepsWellKept` | api/internal/repository/slug_history_repository.go:168-298 | The same after any sequence of renames, registrations, deletions, restores and purges, each allowed where it commits. |
| `Usernames.FreeNamesStayFree` | api/internal/repository/slug_history_repository.go:258-271 | Trims, purges and deletions, which hold no lock on the redirects they drop, never make a free name taken. |
| `Usernames.OthersUntouched` | api/internal/repository/slug_history_repository.go:258-271 | No operation on one mentor changes another mentor's redirects. |
| `UsernameHistory.OneOwnerOneHop` | api/internal/repository/mentor_repository.go:94-115 | A name leads to at most one mentor, directly or through one redirect to a live name that is not itself a redirect. |
| `UsernameHistory.TrimKeepsTwo` | api/internal/repository/slug_history_repository.go:258-271 | What survives the trim is the freshly retired name and the most recent other one. |
| `UsernameHistory.RedirectsAreTheTwoNewest` | api/internal/repository/slug_history_repository.go:231-271 | After any commits a mentor's redirects are the first two of the untrimmed most-recently-retired list without the live name. |
| `UsernameHistory.SelfRenamesAreFourteenDaysApart` | api/internal/repository/slug_history_repository.go:204-211 | Two mentor-initiated renames of one mentor are at least the cooldown apart, whatever admin renames and trims come between. |
| `UsernameHistory.CooldownIsSinceLastSelfRename` | api/internal/repository/slug_history_repository.go:201-211 | After any history a mentor is told to wait if and only if their last self-rename in the log (or the stored one, if none) is less than fourteen days old, and exactly until those are over; admin renames neither start nor prolong it and never wait. |
| `UsernameHistory.OnlySelfRenamesCount` | api/internal/repository/slug_history_repository.go:273-285 | Two histories that differ in admin renames but hold the same self-renames of a mentor give that mentor the same waiting times. |
| `UsernameHistory.RefusedIffOwnedByAnother` | api/internal/repository/slug_history_repository.go:213-241 | Past the wait a name is refused if and only if another mentor owns it, live or as a redirect; a mentor can take back their own. |
| `UsernameHistory.RenameMovesNames` | api/internal/repository/slug_history_repository.go:236-285 | A rename makes the new name live and the old one a stamped redirect of the same mentor, and leaves every other mentor's row and names as they were. |
| `UsernameHistory.DeletedProfilesKeepTheirNames` | api/internal/repository/slug_history_repository.go:179-187 | A deleted profile cannot be renamed or deleted again but keeps all its names; a restore undoes the deletion and a purge frees exactly those names. |
| `UsernameHistory.AvailabilityPredictsAdminRename` | api/internal/services/username_service.go:91-126 | In unchanged tables a name is reported free exactly when an admin rename of that mentor to it would go through or be a no-op. |
| `RenameProtocol.CommitIsAtomic` | api/internal/repository/slug_history_repository.go:168-298 | What a transaction has written statement by statement under Read Committed amounts, when it commits, to the one atomic operation on the tables as they then are. |
| `RenameProtocol.Undisturbed` | api/internal/repository/slug_history_repository.go:191-229 | A commit by anybody who shares none of its locks leaves every check a transaction has made still true. |
| `RenameSafety.RunsAreSerial` | api/internal/repository/slug_history_repository.go:168-298 | Serializability: in every reachable state of any interleaving the committed tables are the commits replayed one by one. |
| `RenameSafety.EveryNameHasOneOwner` | api/internal/repository/slug_history_repository.go:39-75 | In every reachable state no name is live for two mentors or both live and a redirect; slugs sharing a hash are allowed. |
| `RenameSafety.InterleavedHistory` | api/internal/repository/slug_history_repository.go:231-285 | The two-newest-redirects and fourteen-days results for every interleaved run. |
| `RenameSafety.InterleavedCooldown` | api/internal/repository/slug_history_repository.go:168-298 | The cooldown result for every interleaved run. |
| `RenameSafety.PurgeSparesTheRecent` | api/internal/worker/repository_purge.go:108-124 | An interleaved purge goes ahead exactly when the profile was deleted before its cutoff, and that stays so until it commits. |
| `RenameSafety.RefusalIsAtomic` | api/internal/repository/slug_history_repository.go:204-229 | A rename is refused by its in-transaction checks exactly when the atomic verdict on the tables at that moment refuses it. |
| `RenameSafety.BackstopsNeverFire` | api/internal/repository/slug_history_repository.go:239-290 | Past its check no rename or API registration is ever turned away: the history-conflict and unique-violation branches are dead. |
| `RenameDeadlock.CandidatesAscend` | api/internal/repository/mentor_repository.go:468-482 | The names a registration locks in turn, base, base-2 to base-6, ascend in string order. |
| `RenameDeadlock.WaitsAreForLocks` | api/internal/repository/slug_history_repository.go:52-75 | Past its slug locks a rename waits for nobody; a registration's INSERT only for a purge about to commit. |
| `RenameDeadlock.SomebodyRuns` | api/internal/repository/slug_history_repository.go:52-75 | In any state the protocol can be in, waits for locks ascend in the names asked for, so if the names sharing a lock are neighbours in string order (`Convex`) no group of transactions all wait for one another. |
| `RenameDeadlock.DeadlockIsReachable` | api/internal/repository/slug_history_repository.go:62-73 | Sorting by slug while locking by hash deadlocks: three slugs a < b < c with hash(a) = hash(c) only give a reachable stuck state. |
| `RenameDeadlock.DeadlockFreeIffConvex` | api/internal/repository/slug_history_repository.go:52-75 | The protocol is deadlock-free if and only if slugs sharing a lock key are neighbours in string order; an injective key always is. |
| `UsernameRepository.LockSlugs` | api/internal/repository/slug_history_repository.go:52-75 | Takes each non-empty slug once, in ascending string order. |
| `UsernameRepository.LockOrderIsLockSlugs` | api/internal/repository/slug_history_repository.go:52-75 | For the two names of a rename that is the order the interleaved protocol uses. |
| `UsernameRepository.RenameNeverConflicts` | api/internal/repository/slug_history_repository.go:249-254 | In well-kept tables no caller is ever told of a history conflict, and every request leaves the tables well kept. |
| `UsernameRepository.MentorRepository.ChangeSlug` | api/internal/repository/slug_history_repository.go:168-298 | Alone, the transaction's statements give exactly the atomic verdict and the atomic change, and roll back to nothing on a refusal. |
| `UsernameRepository.MentorRepository.CreateMentor` | api/internal/repository/mentor_repository.go:429-483 | A chosen name is taken as it is or refused; a generated one becomes the first free of base, base-2 to base-6. |
| `UsernameRepository.FirstFreeIsFirst` | api/internal/repository/mentor_repository.go:434-489 | The name a registration gets is the first of its list that leads to nobody; it gets none if and only if all lead to somebody. |
| `UsernameRepository.TakenIffTwoOwners` | api/internal/repository/mentor_repository.go:434-447 | A name is reported taken exactly when registering it would give it two owners. |
| `UsernameRepository.MentorRepository.GetBySlug` | api/internal/repository/mentor_repository.go:94-115 | Finds exactly the mentor who owns the name, directly or by redirect, if the read's deletion, status and visibility filters show the profile. |
| `UsernameRepository.UsernameService.CheckAvailability` | api/internal/services/username_service.go:91-126 | Reports a well-formed name free exactly when an admin rename to it would be granted or a no-op. |
| `UsernameRepository.UsernameService.Status` | api/internal/services/username_service.go:130-149 | Shows a next change date exactly when the transaction would answer a rename to any other name with that date. |
| `UsernameRepository.UsernameService.Change` | api/internal/services/username_service.go:155-212 | The pre-checks only shortcut: outcome and tables are the transaction's own. |
| `SourceMaps.FilterTwice` | web/scripts/filter-sourcemaps.js:55-116 | Filtering by one index list and then another equals filtering once by the composed list, in segments, sources, contents, ignoreList and name numbering. |
| `SourceMaps.FirstUsesRenumbered` | web/scripts/filter-sourcemaps.js:84-91 | First-use name order commutes with an earlier renumbering. |
| `SourceMapLookup.LookupSkipsDroppedSources` | web/scripts/filter-sourcemaps.js:65-96 | Every generated position resolves to what the last segment before it that has no source, or a kept one, meant: same source text, content, third-party mark, line, column and name. |
| `SourceMapLookup.ColumnsAreKept` | web/scripts/filter-sourcemaps.js:67-96 | Line by line the output segments stand at exactly the columns of the segments without a source and of those with a kept one, in their order; other fields are carried over. |
| `SourceMapLookup.KeptPositionsResolveAlike` | web/scripts/filter-sourcemaps.js:68-94 | A position that hit a kept or source-less segment yields the same source, line, column and name as before. |
| `SourceMapLookup.DroppedPositionsResolve` | web/scripts/filter-sourcemaps.js:76-77 | A position in the filtered map is unmapped exactly when no survivor precedes it or the last one has no source. |
| `SourceMapLookup.DroppedPositionMayBeMisattributed` | web/scripts/filter-sourcemaps.js:76-77 | A concrete map in which a removed vendor position resolves to the application code before it. |
| `SourceMapLookup.FilteredMapIsClosed` | web/scripts/filter-sourcemaps.js:57-113 | Every output source, name and ignoreList index is in range and every output name is used. |
| `SourceMapLookup.AppIndices` | web/scripts/filter-sourcemaps.js:148-151 | The indices kept are exactly the application sources, strictly increasing. |
| `SourceMapLookup.FateOfAFile` | web/scripts/filter-sourcemaps.js:146-177 | A readable map is removed if and only if it has no application source, left alone if and only if it has one and all are, and otherwise stripped to exactly its application sources. |
| `SourceMapLookup.UploadsStayInsideTheProject` | web/scripts/filter-sourcemaps.js:36-42 | No source outside the project is uploaded, and none of node_modules except below the project's src. |
| `SourceMapLookup.UploadsAreApplicationOnly` | web/scripts/filter-sourcemaps.js:144-178 | What is left for upload names application sources only, if and only if the map has no null source (one makes the classification throw and the file stay as it is). |
| `SourceMapFilter.FilterMap` | web/scripts/filter-sourcemaps.js:55-116 | The stateful pass computes the declarative filter. |
| `SourceMapFilter.RemapAll` | web/scripts/filter-sourcemaps.js:62-94 | One numbering running through all lines numbers names by first surviving use and leaves earlier segments right. |
| `SourceMapFilter.FilterLine` | web/scripts/filter-sourcemaps.js:68-94 | One line's reduction extends the numbering and the remapped segments consistently. |
| `SourceMapFilter.KeepIgnores` | web/scripts/filter-sourcemaps.js:107-113 | ignoreList is renumbered and loses what was dropped. |
| `TokenBuckets.CapHolds` | api/internal/middleware/rate_limit.go:57-86 | However many keys call, the map never exceeds maxVisitors, and every bucket stays between 0 and burst. |
| `TokenBuckets.EvictionInvisible` | api/internal/middleware/rate_limit.go:80-86 | Dropping buckets that are back to full changes nobody's tokens, now or later. |
| `TokenBuckets.IdleIsEvicted` | api/internal/middleware/rate_limit.go:80-86 | An idle bucket that has refilled is dropped at the next eviction. |
| `TokenBuckets.SharedIffFullOfSpenders` | api/internal/middleware/rate_limit.go:57-76 | A call falls back on the shared bucket if and only if its key has none and at least 50000 others have tokens outstanding. |
| `BucketWindows.GrantedIffEveryWindowHasRoom` | api/internal/middleware/rate_limit.go:126-128 | Given a bucket of its own, a key's call is granted if and only if no window from an earlier grant to it until now would then hold more grants than burst plus what has flowed in; said without buckets. |
| `TokenBuckets.CallsAgree` | api/internal/middleware/rate_limit.go:57-76 | One call off the shared bucket answers as the key's own everlasting bucket and stays in step with it. |
| `TokenBuckets.CappedIsIdeal` | api/internal/middleware/rate_limit.go:57-103 | Any run that never falls back on the shared bucket answers exactly like an unbounded map of one bucket per key, whenever evictions happen. |
| `TokenBuckets.GrantsAreBounded` | api/internal/middleware/rate_limit.go:57-86 | For calls taken whole, lookup and spend in one step: in a window of length T a key gets at most b + rT from its own bucket however often it is rebuilt, all keys together at most b + rT from the shared one, so any key at most 2(b + rT). |
| `RateLimiter.RateLimiter.EvictIdle` | api/internal/middleware/rate_limit.go:80-86 | Removes exactly the visitors back to full tokens and touches no other bucket. |
| `RateLimiter.RateLimiter.GetVisitor` | api/internal/middleware/rate_limit.go:57-76 | Hands out the key's own bucket, a fresh full one if there is room after eviction, else the shared one. |
| `RateLimiter.RateLimiter.Allow` | api/internal/middleware/rate_limit.go:126-128 | Lookup and spend together make exactly the value-level step. |
| `SplitCalls.SplitCallsAreIdeal` | api/internal/middleware/rate_limit.go:57-76 | Lookup and spend taken as two steps, interleaved with anything: a key whose own calls all complete on its live bucket is answered exactly as if it had one everlasting bucket, whatever becomes of other keys and their calls. |
| `SplitCalls.SplitAnswersIff` | api/internal/middleware/rate_limit.go:126-128 | A call holding its key's bucket, evicted or not, answers like the key's everlasting bucket if and only if the bucket is still the key's, the key has a token at that moment, or burst is 0. |
| `SplitCalls.FirstBrokenCall` | api/internal/middleware/rate_limit.go:126-128 | The same condition, exact for the first call of a key, in any run, to complete on an evicted bucket, whatever becomes of other keys. |
| `SplitCalls.DetachedIffEvicted` | api/internal/middleware/rate_limit.go:57-86 | A call loses its bucket exactly when a cleanup, or another key asking for room in a full map, finds that bucket full. |
| `SplitGrants.SplitGrantsAreBounded` | api/internal/middleware/rate_limit.go:57-128 | For calls as the two steps they are, however interleaved: in a window of length T the buckets a key has grant it at most b + rT, the shared one at most b + rT to everybody; in all a key gets at most 2(b + rT) and one grant for each of its calls that completes on an evicted bucket. |
| `SplitGrants.GrantsAreUnbounded` | api/internal/middleware/rate_limit.go:88-128 | The broken calls must be counted: at any rate and burst, and with cleanups at any times, some run grants a key any number of times at one instant. |
| `RateLimiter.SplitCallRace` | api/internal/middleware/rate_limit.go:126-128 | The failing case on the objects: with a cleanup between lookup and spend a key with burst 1 is granted twice at one instant; two whole calls are not. |
| `Reviews.HistoryKeepsWellKept` | api/internal/repository/review_repository.go:217-303 | After any commits: one review per request; at most one consumed invitation per request and only beside a review; none consumed and revoked. |
| `Reviews.OnlySubmissionsSpend` | api/internal/repository/review_repository.go:217-246 | Reviews are exactly those submitted, consumed tokens exactly those spent by a submission that stored one. |
| `Reviews.SpentStaysSpent` | api/internal/repository/review_repository.go:224-229 | No later operation makes a consumed or revoked invitation spendable again. |
| `ReviewProtocol.CommitIsAtomic` | api/internal/repository/review_repository.go:217-246 | What a submission or deletion wrote statement by statement is, at its commit, one operation the tables still allow. |
| `ReviewProtocol.NextKeepsInv` | api/internal/repository/review_repository.go:217-303 | Every statement of every interleaved transaction keeps locks exclusive and every check already made valid. |
| `ReviewSafety.RunsAreSerial` | api/internal/repository/review_repository.go:217-303 | Serializability of any interleaving of token and legacy submissions, deletions and single-statement writes. |
| `ReviewSafety.OneReviewOneToken` | api/internal/repository/review_repository.go:217-303 | In every reachable state the review guarantees and the exact accounting hold. |
| `ReviewSafety.RefusalCostsNothing` | api/internal/repository/review_repository.go:204-216 | A refused submission changes no table, and the invitation it had claimed is spendable as before with nobody holding it. |
| `ReviewSafety.ClaimedRowIsFrozen` | api/internal/repository/review_repository.go:204-216 | While a submission holds its invitation nobody else changes that row. |
| `ReviewSafety.EveryReviewWasEligible` | api/internal/repository/review_repository.go:273-283 | Every review about to be stored was, earlier in its own transaction, judged done, unreviewed and of a mentor not deleted. |
| `ReviewDeletion.DeletionRevokesItsSnapshot` | api/internal/repository/mentor_deletion.go:89-108 | A deletion revokes exactly those invitations of its snapshot that no submission consumed first. |
| `ReviewDeletion.DeadLinksStayDead` | api/internal/repository/mentor_deletion.go:117-119 | A link once consumed or revoked never opens again, restores included. |
| `ReviewDeletion.DeletionClosesIff` | api/internal/repository/mentor_deletion.go:89-108 | A committing deletion leaves no spendable invitation of the mentor if and only if its snapshot held all that are outstanding. |
| `ReviewDeletion.DeletionClosesUnlessMinted` | api/internal/repository/mentor_deletion.go:89-108 | Over any run: it leaves none if and only if every invitation minted for the mentor between the revoking statement and the commit has been spent by the commit. |
| `ReviewDeletion.OpenInvitationIsReachable` | api/internal/repository/mentor_deletion.go:89-108 | A concrete run in which an invitation minted during the deletion is spendable after it, exactly until it expires. |
| `ReviewSafety.NoDeadlock` | api/internal/repository/review_repository.go:217-303 | In no reachable state does every member of a group of submissions and deletions wait for a member, whoever else may run. |
| `ReviewRepository.StoredOrUntouched` | api/internal/repository/review_repository.go:204-246 | A token submission stores a review exactly when the token is live and its request eligible; the token is then dead for good. |
| `ReviewRepository.StoredIffDoneAndUnreviewed` | api/internal/repository/review_repository.go:204-246 | A token stores a review if and only if it is neither spent nor revoked nor expired, its request is done and has no review, and the mentor exists undeleted; it is invalid if and only if the token or the mentor fails. |
| `ReviewRepository.LegacyStoredIffDoneAndUnreviewed` | api/internal/repository/review_repository.go:273-283 | The same for the legacy link, which counts until revoked. |
| `ReviewRepository.StatusDecides` | api/internal/repository/review_repository.go:118-120 | No link of a request stores a review while the request is anything but done; once done every live link of an unreviewed one does; other requests' links do not notice. |
| `ReviewRepository.LegacyRevocationSparesTokens` | api/internal/repository/review_repository.go:270-283 | Revoking a request's legacy link makes that link invalid and changes no token's answer. |
| `ReviewRepository.OneReviewIsAll` | api/internal/repository/review_repository.go:285-300 | The stored review is the one submitted, and no link to its request, used or unused, stores another. |
| `ReviewRepository.MintedLinkAnswers` | api/internal/repository/review_repository.go:131-145 | A minted link gets, until it expires, the answer its request deserves, and changes no other link's answer. |
| `ReviewRepository.ReviewRepository.CheckCanSubmitReviewByToken` | api/internal/repository/review_repository.go:152-180 | Predicts, without spending, whether submitting with the token would store a review. |
| `ReviewRepository.ReviewRepository.SubmitReviewWithToken` | api/internal/repository/review_repository.go:217-246 | Claims and inserts together or rolls both back. |
| `ReviewRepository.ReviewRepository.SubmitReviewForRequest` | api/internal/repository/review_repository.go:253-268 | The legacy path stores a review exactly for an eligible request whose legacy link is not revoked. |
| `ReviewRepository.ReviewRepository.SoftDeleteMentor` | api/internal/repository/mentor_deletion.go:42-109 | Deletes once, revokes every outstanding invitation of the mentor and counts them; tells a missing mentor from one already deleted. |
| `ReviewRepository.DeleteThenRestore` | api/internal/repository/mentor_deletion.go:111-142 | Deleting and restoring a profile kills every link mailed for it for good, and every other link and every legacy link answers as if nothing had happened. |
| `Lifecycle.ExecKeeps` | api/internal/repository/mentor_repository.go:835-896 | No guarded write makes a deleted profile anything but inactive, moves a set activation stamp or lowers a session version. |
| `Lifecycle.GuardsHold` | api/internal/repository/mentor_deletion.go:55-65 | With arbitrarily stale callers a deleted profile is inactive after every run of writes. |
| `Lifecycle.DeletedUntilRestored` | api/internal/repository/mentor_deletion.go:55-65 | In every run, from a deletion that applied until the next restore, the row carries that deletion's stamp or has been purged: no second deletion, status write, approval, return to draft or login link, however new, matches it, and a restore does. |
| `Lifecycle.StampsAndVersionsHold` | api/internal/repository/mentor_repository.go:856-865 | Over any run activated_at never changes once set and session_version never falls. |
| `Lifecycle.DraftedAgainIff` | api/internal/worker/repository.go:416-437 | A once-activated profile goes back to draft if and only if a release of the worker's own declined finalization matches its row. |
| `Lifecycle.ActivatedStayOutOfDraft` | api/internal/repository/mentor_repository.go:829-841 | In every run without such a late release, once-activated profiles are never draft. |
| `Lifecycle.ActivatedMentorDrafted` | api/internal/worker/repository.go:416-437 | A concrete run in which the hard guard fails: decline as duplicate, approve, decline, release. |
| `LoginLinks.OneSessionPerLink` | api/internal/services/mentor_auth_service.go:196-264 | Any number of concurrent verifications of one link mint at most one session. |
| `LoginLinks.LinkOpensIffGood` | api/internal/repository/session.go:53-83 | A verification reaches signing exactly when its link is stored, unexpired, on a profile not deleted whose status may log in; the link is then gone. |
| `LoginLinks.ReplacedLinkIsGone` | api/internal/repository/mentor_repository.go:619-628 | A newer link, or the deletion, takes the old one out of the table. |
| `LoginLinks.DeadLinkStaysDead` | api/internal/repository/session.go:53-83 | A link that left the table never yields a session again in any continuation. |
| `LoginLinks.SessionLivesUntilRevoked` | api/internal/middleware/mentor_session.go:105-146 | The session of a consumed link passes a live check at any later moment if and only if its mentor exists, is neither deleted nor declined, and has neither logged out nor been deleted since. |
| `LoginLinks.RevokedStaysRevoked` | api/internal/repository/session.go:85-127 | After a logout bump or deletion commits, no session whose link was consumed before it passes a live check again, even if signed later or after a restore. |
| `Confirmations.MailedLinksWereStored` | api/internal/services/mentor_confirmation_service.go:193-222 | Every mailed confirmation link had its token in a row first, in any race of clicks, resends and finalizations. |
| `Confirmations.TriggersMatchConfirmations` | api/internal/services/mentor_confirmation_service.go:125-148 | Applied confirmations are exactly those announced, on their way or lost with their process; no token is both consumed and rotated. |
| `Confirmations.ClickConfirmsIffGood` | api/internal/repository/session.go:165-182 | A click applies exactly when a draft holds the token in its window; it then moves that one row to pending. |
| `Confirmations.ResendMailsIffStillDraft` | api/internal/services/mentor_confirmation_service.go:193-222 | A resend stores its fresh token and then mails it if and only if a draft still carries the old one; otherwise it stores and mails nothing. |
| `Confirmations.RaceHasOneWinner` | api/internal/repository/session.go:165-210 | Of a click and a resend racing on one good token exactly one applies, whichever writes first. |
| `Confirmations.OpenWindowIsKept` | api/internal/worker/job_new_mentor_watcher.go:205-235 | A link in its window leaves its row only by click, resend, the failed send of its own job, or with the row. |
| `MentorRecords.MentorRepository.ConsumeLoginToken` | api/internal/repository/session.go:53-83 | Returns a row exactly when one matches, with the version read in the same statement that clears the link. |
| `MentorRecords.MentorRepository.ConsumeConfirmationToken` | api/internal/repository/session.go:165-182 | Applied exactly when a row matched; the table is the one UPDATE. |
| `MentorRecords.MentorRepository.RotateConfirmationToken` | api/internal/repository/session.go:192-210 | Applied exactly when a draft held the old token; the fresh one replaces it in the same write. |
| `MentorRecords.MentorRepository.SoftDeleteMentor` | api/internal/repository/mentor_deletion.go:55-65 | Deletes once, with the stamp; afterwards only a restore or purge matches, and every login link and session is dead. |
| `MentorRecords.ApprovalIsFinal` | api/internal/repository/mentor_repository.go:856-873 | After an approval the first stamp stays, approving again changes nothing, and no moderation write can make the mentor a draft. |
| `MentorRecords.ClaimIsExclusive` | api/internal/worker/repository.go:344-402 | After a claim nobody who read what the claimer read can claim the row, nobody at all while the new window lasts, and an old login link is dead. |
| `MentorRecords.ReleaseUndoesTheClaim` | api/internal/worker/repository.go:405-437 | A claim and its release leave a draft without token, sort order or login link, which the next pass claims again. |
| `MentorRecords.RestoredIsLoggedOut` | api/internal/repository/mentor_deletion.go:111-142 | A profile deleted and restored is hidden, with every earlier login link and session dead and its activation stamp as it was. |
| `MentorRecords.MentorRepository.DeactivateMentor` | api/internal/worker/repository.go:809-821 | Hides exactly an active profile; a second pass applies to nobody. |
| `MentorRecords.MentorSessionStillValid` | api/internal/middleware/mentor_session.go:105-146 | The middleware's answer is the live check the session results are about. |
| `MentorRecords.MentorAuthService.VerifyLogin` | api/internal/services/mentor_auth_service.go:196-294 | Spends the link first and signs only from the row it opened; an ineligible account's link stays spent. |
| `MentorRecords.MentorAuthService.RevokeSession` | api/internal/services/mentor_auth_service.go:304-320 | After logout the session no longer passes the live check. |
| `MentorRecords.ConfirmationService.ConfirmEmail` | api/internal/services/mentor_confirmation_service.go:101-154 | With any writes between read and compare-and-set: confirmed, expired or already exactly when it should be; the worker is told once per confirmation that applied, of the mentor whose row it moved, and never otherwise. |
| `MentorRecords.ConfirmationService.ResendConfirmation` | api/internal/services/mentor_confirmation_service.go:159-231 | Resent exactly for a draft both at the read and at the write, if the limiter allows; a fresh token is mailed exactly when the rotation stored it. |
| `MentorRecords.ConfirmationService.FinalizeNewMentor` | api/internal/worker/job_new_mentor_watcher.go:141-274 | Mails only what its claim stored; a failed send hands the row back if it is still the job's own. |
| `Requests.EveryWriteIsALegalEdge` | api/internal/models/mentor_client_request.go:61-92 | With any number of stale readers and overrides, every applied write is accepted for the status its request had at commit, and statuses are where the writes lead. |
| `Requests.EdgesAreTheWorkflow` | api/internal/models/mentor_client_request.go:75-92 | The allowed transitions are one step towards done, or declined from pending, contacted or working. |
| `Requests.AtMostThreeMoves` | api/internal/models/mentor_client_request.go:60-92 | From any moment of any run, with stale writers in flight but no override from then on, a request makes at most as many moves as its status allows, never more than three; done, declined and unavailable absorb. |
| `Requests.OnlyOwnRequestsAreWritten` | api/internal/services/mentor_requests_service.go:141-218 | In every run every write under way or applied is on a request of the mentor it was asked for, and no request changes its mentor. |
| `Requests.TriggersMatchWrites` | api/internal/services/mentor_requests_service.go:141-297 | Of all applied writes exactly mentors' moves to done and declines through the decline path trigger, each once. |
| `Requests.RequestService.UpdateStatus` | api/internal/services/mentor_requests_service.go:141-218 | Goes through exactly for a legal transition of an owned request that has not moved since it was read. |
| `Requests.RequestService.DeclineRequest` | api/internal/services/mentor_requests_service.go:221-297 | Declines exactly a non-terminal owned request that has not moved since it was read, and triggers once. |
| `Requests.RequestService.OverrideStatus` | api/internal/services/admin_requests_service.go:133-198 | Any other status, but only on the status the admin was shown, and without a trigger. |
| `ProfilePurge.PurgeErasesTheReach` | api/internal/worker/repository_purge.go:67-81 | Deleting requests first and then the mentor removes exactly what is reachable from the mentor and orphans nothing. |
| `ProfilePurge.OthersUntouched` | api/internal/worker/repository_purge.go:95-153 | No other mentor's rows of any kind change. |
| `ProfilePurge.CountsAreRowsRemoved` | api/internal/worker/repository_purge.go:126-137 | What is counted before the deletes is what they remove from the same tables. |
| `ProfilePurge.CountsRightIffUndisturbed` | api/internal/worker/repository_purge.go:121-137 | Counting before the deletes never counts too much, and counts right if and only if no review or invitation for the profile was committed in between. |
| `ProfilePurge.Store.PurgeProfile` | api/internal/worker/repository_purge.go:95-153 | Erases only a profile deleted more than the retention before, exactly what it reaches when the deletes run; its counts equal the rows removed if and only if nothing came in between. |
| `ProfilePurge.Store.ListPurgeableProfiles` | api/internal/worker/repository_purge.go:36-65 | Exactly the profiles deleted more than the retention before, each once, oldest deletion first; a non-positive window is refused. |
| `ProfilePurge.Store.PurgeDeletedProfiles` | api/internal/worker/job_purge_deleted_profiles.go:53-155 | Erases, oldest deletion first, exactly the profiles deleted more than the retention before that neither failed nor were restored since listing; matched = purged + skipped + failed; whatever others commit during the turns, totals never exceed the rows removed and equal them if and only if no review or invitation came in between a count and its deletes. |
| `Prices.ResultIsCanonical` | infra/migration/price-mapping.js:8-15 | Any text and rate give Free, Negotiable or $N with N from 1 to 1000. |
| `Prices.CanonicalIsFixed` | infra/migration/price-mapping.js:22-95 | A canonical price maps to itself at any rate and without a note. |
| `Prices.FreeIff` | infra/migration/price-mapping.js:22-27 | A price is free if and only if the text is blank, mentions бесплатно, or is the word free. |
| `Prices.NumberlessIsNeverPriced` | infra/migration/price-mapping.js:66-92 | A text that does not begin with a number is free by name or left to the mentor; no amount is made up for it. |
| `Prices.UnnotedIff` | infra/migration/price-mapping.js:22-95 | The operator gets no note if and only if the text names free or negotiable or is already in its final form. |
| `Prices.MappingTwiceIsMappingOnce` | infra/migration/price-mapping.js:22-95 | Mapping is idempotent, even with different rates. |
| `Prices.RoublesIsTheMatch` | infra/migration/price-mapping.js:58-60 | The rouble amount read is the one number every match of the pattern denotes. |
| `Prices.DollarsAreNear` | infra/migration/price-mapping.js:61 | The converted price is a multiple of 5, at least 5, and within $2.50 of an exact conversion worth at least $2.50. |
| `Prices.RoublePrice` | infra/migration/price-mapping.js:44-63 | A rouble text gets the converted price, or Negotiable exactly when that exceeds the cap; it is never clamped. |
| `Prices.RoublePricesGrow` | infra/migration/price-mapping.js:58-63 | A larger rouble amount never gets a lower price. |
| `Prices.HeadPrice` | infra/migration/price-mapping.js:58-86 | The price of a text headed by a plain or grouped number depends only on the number's value and on what follows it. |
| `Prices.SeparatorsAreIrrelevant` | infra/migration/price-mapping.js:53-79 | Well-formed thousands separators change nothing, in dollars or roubles, when the text after the number does not carry it on. |
| `Prices.SpellingsAgreeIff` | infra/migration/price-mapping.js:53-90 | For any text after a number of more than three digits: the spellings with and without separators get the same price if and only if a keyword decides, white space does not let the rouble pattern carry the number on, or both readings cost the same. |
| `Prices.DecimalsWithSeparators` | infra/migration/price-mapping.js:74-90 | With a .00 part separators do matter, whatever stands around the number: the two spellings agree if and only if a keyword decides or the amount is out of range. |
| `Prices.DecimalsLoseTheCurrency` | infra/migration/price-mapping.js:53-86 | A .00 part makes an amount in roubles be read as dollars: it leaves the price as it is if and only if a keyword decides, the conversion changes nothing, or neither amount is in range. |
| `Prices.RoublesReadAsDollars` | infra/migration/price-mapping.js:53-86 | Any in-range amount with a .00 part before the rouble word is priced at that many dollars, at any rate. |

## Left out

- Hashing of slugs to lock keys: `key` is any function; collisions are allowed everywhere.
- Clocks: a service's clock read is not later than its transaction's NOW(), and
  clock_timestamp() advances between two retirements.
- Ids and one-time tokens are fresh when generated and hashes of tokens are injective; plaintext tokens stored before hashing was introduced are not modelled.
- Name validation and the text of a generated base slug are parameters.
- The migration's own slug writer checks redirects only and relies on the unique
  constraint for live names; it is the `checksLive == false` registration of `RenameProtocol`. Its fallback before the history table existed is omitted.
- SourceMapFilter.FilterMap: VLQ encoding and decoding are taken as inverse, and segments at equal generated columns are looked up as the last of them.
- RateLimiter.RateLimiter.Allow: lookup and spend are one step here; `SplitCalls` and `SplitGrants` take them apart. An infinite rate is left out.
- The live check's scope by HTTP method, cookie handling and token signing.
- Generic profile updates: their column list would admit `status`, but no caller passes it.
- Review tables under a purge of the mentor: requests are never deleted in `Reviews`.
- ProfilePurge.Store.PurgeDeletedProfiles: other deleted profiles change during a turn only by being restored before their own turn.
- Requests are created in any state of their mentor, without the contactable gate; the worker's claim of a fresh request does not change its status and is omitted.
- Prices.MapPrice: amounts are exact; JavaScript numbers lose precision beyond 2^53.
- ProfilePurge.Store.PurgeProfile: a day is 24 hours; clock changes of the database's time zone are not modelled.
- HTTP handlers, mail, analytics, metrics, storage, captcha, the tags cache and the cron lease: input and output or single branches.
