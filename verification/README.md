# Verified model of the git-platform SDK

This project models the stateful core of the SDK in Dafny and proves what that core promises: the pure-Go merge
and rebase, the transport pipeline (conditional requests, rate limiter, retry loops), the provider cache with its janitor,
and the automation helpers (batch, commit-status wait, desired-state convergence, fetch result).

`dafny verify dfyconfig.toml` checks everything.

## How the model is laid out

| file | what it models |
|---|---|
| `Basics.dfy` | optional values, bytes and other shared basics |
| `Trees.dfy`, `History.dfy` | flat file trees and their difference; the commit store, ancestry, merge base, log walk |
| `Repository.dfy` | one repository and the relation of each git operation between the states before and after it |
| `GoGitBackend.dfy` | the backend as a class that changes refs, index, working tree and rebase files in place |
| `MergeTheorems.dfy` | what merges do to a branch |
| `RebaseProgress.dfy` | what every rebase in progress has recorded, after any faults and any edits |
| `RebaseOutcomes.dfy` | when the rebase calls do nothing, refuse or fail |
| `RebaseTheorems.dfy`, `RebaseAbort.dfy`, `ReplayOrder.dfy` | interruption and resumption, abort, and what a rebased branch contains |
| `RebaseExample.dfy` | a concrete interrupted and resumed rebase, so that the theorems about such runs are not empty |
| `Lru.dfy`, `Separators.dfy` | the contract of the LRU library; keys joined by separators |
| `ETag.dfy`, `ETagPolicy.dfy`, `ETagTransparency.dfy`, `ETagConcurrency.dfy` | the validator cache: what it keeps, sequential runs, concurrent runs |
| `RateLimit.dfy` | slot reservation of the rate limiter |
| `Retry.dfy`, `RetryTheorems.dfy` | the retry policy and the two loops that implement it |
| `Manager.dfy`, `ManagerRuns.dfy`, `ManagerHits.dfy`, `ManagerRecency.dfy`, `Janitor.dfy` | the provider cache, its interleavings, its hits and its recency, the janitor protocol |
| `Batch.dfy` | the bounded-concurrency batch |
| `CommitStatus.dfy` | the status fold and the polling loop |
| `Ensure.dfy` | convergence of webhooks and deploy keys |
| `FetchRefs.dfy` | the before/after diff of a fetch in both backends |

Code that changes state in place is a class or a method with loops, proved against a relation or function; the theorems are
about that relation or function. Protocols between goroutines (`ManagerRuns`, `Janitor`, `Batch`, `ETagConcurrency`, the waiters of
`RateLimit`) are step machines with one step per critical section, and the theorems hold for every schedule.

## What the proofs found

- A file that `applyChangesToWorktree` fails to delete is not reported. `MergeGivesBothSides` and `StepIsExact` hold exactly
  when no deletion is lost this way (`MergeCanLoseADeletion` is such a merge).
- A fast-forward moves the ref only. The index keeps the old tree, and a commit of that index undoes the branch
  (`FastForwardLeavesOldIndex`).
- Rebase replays newest first. When two replayed commits touch one path, the older version ends up on the branch
  (`OldestTouchDecides`, `RebaseCanKeepTheOlderEdit`); `RebasedTreeIsNetChangeIff` says exactly when the result is still the net change.
- A continue on a clean tree drops the stopped commit's change without an error, and only then (`CleanContinueSkips`).
- A replay step, or a merge, that changes nothing is refused as an empty commit, so a rebase stops there
  (`UndisturbedRebaseCompletes`, `MergeCommitsOnce`).
- Slots of the rate limiter go backwards once the tracked quota is used up, exactly when the next waiter arrives
  in the last second before the reset (`SlotGoesBackIff`, `SlotsCanGoBack`).
- `Stop` can return while the janitor it signalled still runs, exactly for a janitor that was launched while another `Stop` was
  in flight (`StopWaitsForExit`, `OverlapLetsStopReturnEarly`).
- The two retry loops differ exactly when the attempts ran out after both an answer and a network error: `RetryConfig.Do` then
  returns the old error with the response, the round tripper does not (`LoopsAgree`, `LoopsCanDisagree`).
- A request whose GetBody returns other bytes is retried with those by the round tripper, and with the buffered bytes by
  `RetryConfig.Do` (`BothLoopsAreDisciplined`).
- Commit states outside the vocabulary do not vote: one unknown state beside a success is a success (`UnknownDoesNotVote`).
- `EnsureDeployKey` decides by the first key with the title; other mismatching keys can remain behind it
  (`UnchangedCanLeaveDuplicates`), and each updating run replaces exactly one.

## Assumptions about the surroundings

- go-git: `DiffTree` is the difference of path maps; the log is a preorder walk that shows each commit once; the first merge
  base is the newest common ancestor (commits are numbered so that parents are older); `Worktree.Commit` refuses an index equal to the
  first parent's tree; a hard reset aligns index and working tree and moves HEAD's branch.
- Trees are flat: no path is a directory prefix of another, an entry is content and mode together. Files the merge does not touch
  are not part of `work`.
- The LRU library is a bounded map with a recency order. Clocks do not run backwards. A provider is the value `NewProvider` returned.
- An origin's validator determines the body for one key (section 8.8.3 of RFC 9110), and it answers 304 only to a
  conditional request (section 15.4.5 of RFC 9110).

## Model

| member | source | states |
|---|---|---|
| Trees.OverlayOfBase | gitbackend/gogit_commit.go:107-144 | replaying a change on the tree it starts from gives the tree it leads to |
| Trees.OverlayCommutes | gitbackend/gogit_commit.go:225-246 | two changes of one base without a common path can be replayed in either order |
| History.GetCommitsBetween | gitbackend/gogit_commit.go:22-60 | the loop collects the log, newest first, up to but not including `from` |
| History.BetweenIsExact | gitbackend/gogit_commit.go:22-60 | on a single-parent history with an ancestor `from` the list is exactly the commits reachable from `to` and not from `from` |
| History.ChainMembers | gitbackend/gogit_commit.go:37-55 | the same membership for the explicit first-parent chain, in both directions |
| History.MergeBaseIsBest | gitbackend/gogit_status.go:170-199 | the merge base is a common ancestor and no common ancestor is newer; none is reported only if there is none |
| History.MergeBaseSymmetric | gitbackend/gogit_status.go:170-199 | the merge base does not depend on the order of the sides |
| History.MergeBaseOfAncestor | gitbackend/gogit_status.go:170-199 | an ancestor of the other side is the merge base |
| History.PlanStable | gitbackend/gogit_commit.go:528-538 | new commits in the store change neither the merge base nor the list to replay |
| GoGitBackends.DiffTree | gitbackend/gogit_commit.go:110-113 | the change list holds exactly the paths where the trees differ |
| GoGitBackends.BothChanged | gitbackend/gogit_commit.go:225-234 | the two loops find a conflict exactly when the change lists share a path |
| GoGitBackends.GoGitBackend.StageChange | gitbackend/gogit_commit.go:121-141 | one change writes and stages its file, or removes it; what each fault leaves in index and working tree, and that only write faults are reported |
| GoGitBackends.GoGitBackend.ApplyChangesToWorktree | gitbackend/gogit_commit.go:107-144 | in any order of changes index and working tree become the overlay of base to source, except where a deletion failed; on a reported fault every path is as before or as wanted |
| GoGitBackends.GoGitBackend.Commit | gitbackend/gogit_commit.go:258-266 | an index that differs from the first parent's tree becomes one new commit at HEAD's branch; an equal one is refused |
| GoGitBackends.GoGitBackend.HardReset | gitbackend/gogit_commit.go:492-494 | branch, index and working tree all move to the commit |
| GoGitBackends.GoGitBackend.Merge | gitbackend/gogit_commit.go:146-272 | every branch of Merge with its error and its whole new state: up to date, fast-forward, refused, conflict, no-commit, squash, merge commit |
| GoGitBackends.GoGitBackend.ApplyRebaseCommit | gitbackend/gogit_commit.go:343-383 | replays parent to commit on HEAD and commits it with message and author, or stops with the right error and no new commit |
| GoGitBackends.GoGitBackend.ReplayFrom | gitbackend/gogit_commit.go:443-457 | the replay loop runs to `end` or the first stopping step, with `msgnum` at the step reached; a position past the list is an index out of range |
| GoGitBackends.GoGitBackend.Rebase | gitbackend/gogit_commit.go:385-458 | every branch of Rebase, the recorded state files included |
| GoGitBackends.GoGitBackend.RebaseContinue | gitbackend/gogit_commit.go:500-582 | commits a dirty resolution under the stopped commit's message, then replays the recomputed list from `msgnum` + 1 to `end`, for every recorded `end` |
| GoGitBackends.GoGitBackend.RebaseAbort | gitbackend/gogit_commit.go:460-498 | restores the recorded branch and hard-resets to the original commit, or says why not |
| MergeTheorems.MergeKeepsRepo | gitbackend/gogit_commit.go:146-272 | Merge moves no other ref, loses no commit, and an error leaves store and refs alone |
| MergeTheorems.MergeRefusals | gitbackend/gogit_commit.go:157-188 | which merges are refused, by branch, ancestry and options alone: unknown branch, not a fast-forward, no common ancestor; a refused merge touches nothing, and a fast-forward-only one never does more than move HEAD's branch to a descendant |
| MergeTheorems.MergeKinds | gitbackend/gogit_commit.go:162-175 | HEAD itself is merged by doing nothing, a descendant by moving HEAD's branch only, the rest is attempted as a three-way merge |
| MergeTheorems.BaseIsNewestCommon | gitbackend/gogit_commit.go:182-213 | the base tree is that of the newest common ancestor, and empty for unrelated histories |
| MergeTheorems.ApplyFailsExactlyWhen | gitbackend/gogit_commit.go:115-141 | a three-way merge fails while writing exactly when a changed or added file cannot be written or staged |
| MergeTheorems.MergedFiles | gitbackend/gogit_commit.go:115-143 | what each path of the working tree holds afterwards, and of the index after a failure |
| MergeTheorems.MergeGivesBothSides | gitbackend/gogit_commit.go:146-272 | a successful merge of any kind from a clean repository gives each path the branch's entry where it differs from the base and HEAD's elsewhere, if and only if no deletion was lost |
| MergeTheorems.ConflictExactlyWhenBothChanged | gitbackend/gogit_commit.go:225-234 | a conflict is reported exactly when some path changed on both sides, and then nothing was touched |
| MergeTheorems.MergeIsSymmetric | gitbackend/gogit_commit.go:182-246 | with the sides swapped the conflict verdict and the merged tree are the same |
| MergeTheorems.SwappedVerdict | gitbackend/gogit_commit.go:169-234 | on diverged branches the whole verdict of the swapped merge mirrors the original's |
| MergeTheorems.MergeCommitsOnce | gitbackend/gogit_commit.go:248-271 | a fault-free three-way merge adds one commit with one or two parents, and is refused as empty exactly when the branch changed nothing since the base |
| MergeTheorems.MergeLeavesCleanTree | gitbackend/gogit_commit.go:244-271 | a fault-free three-way merge leaves index, working tree and commit equal, under the given or default message; with no-commit only the staged tree |
| MergeTheorems.FastForwardLeavesOldIndex | gitbackend/gogit_commit.go:169-175 | after a fast-forward the repository is dirty unless the trees agree, and committing the index undoes the branch |
| MergeTheorems.MergeCanLoseADeletion | gitbackend/gogit_commit.go:137-140 | a concrete merge reports success, of any kind, although the file the branch deleted stays |
| RebaseTheorems.StepIsExact | gitbackend/gogit_commit.go:343-383 | a replay step stages the intended tree exactly when no deletion of a present file was lost |
| RebaseTheorems.StepKeeps | gitbackend/gogit_commit.go:443-453 | each replayed commit adds exactly the next planned log entry with the next planned tree |
| RebaseTheorems.StopKeeps | gitbackend/gogit_commit.go:443-453 | a stopped step leaves a resumable state whose branch holds exactly the steps before it |
| RebaseTheorems.RoundKeeps | gitbackend/gogit_commit.go:443-453 | one round of an honest replay stops in a resumable state at its step, or goes on with the next planned tree and log |
| RebaseTheorems.ReplaysKeeps | gitbackend/gogit_commit.go:443-457 | the replay loop from position i completes the plan or stops in such a state at a step not before i |
| RebaseTheorems.StartKeeps | gitbackend/gogit_commit.go:385-458 | a started rebase is completed or interrupted at the step `msgnum` names |
| RebaseProgress.StartRecords | gitbackend/gogit_commit.go:420-455 | whatever fails at the start, the rebase finishes or its original commit, target, branch and length are recorded |
| RebaseProgress.RebaseHasOutcome | gitbackend/gogit_commit.go:385-458 | a planned rebase has an outcome for every script of faults |
| RebaseProgress.ContinueHasOutcome | gitbackend/gogit_commit.go:500-582 | so does a continue, from every state |
| RebaseProgress.ContinueKeepsStarted | gitbackend/gogit_commit.go:500-582 | with whatever is staged and whatever faults, a continue keeps that record, finishes or stops at a later step, or refuses an empty resolution and changes nothing; it never indexes past the list |
| RebaseProgress.EditedRunKeepsStarted | gitbackend/gogit_commit.go:500-582 | the same over any number of edits and continues |
| RebaseProgress.RecomputedPlanIsThePlan | gitbackend/gogit_commit.go:525-571 | in every in-progress state after any faults, edits and continues the recomputed list is the planned one, `end` is its length and a written `msgnum` indexes it; no call indexes past it |
| RebaseProgress.ReplayAddsChanges | gitbackend/gogit_commit.go:375-382 | a replay only adds commits, and the first one it adds differs from the tree it lands on |
| RebaseProgress.CleanContinueSkips | gitbackend/gogit_commit.go:549-568 | a continue goes past the stopped commit without its change if and only if index and working tree equal HEAD's tree; unstaged edits alone make it refuse |
| RebaseOutcomes.SomethingToReplayIff | gitbackend/gogit_commit.go:405-418 | there are commits to replay exactly when HEAD has a commit that the target has not; HEAD's tip comes first |
| RebaseOutcomes.RebaseWithoutCommits | gitbackend/gogit_commit.go:396-418 | a branch the target already contains is rebased by doing nothing at all; an unknown revision and an unrelated history are refused and touch nothing |
| RebaseOutcomes.RebaseTouchesIff | gitbackend/gogit_commit.go:385-458 | with no rebase in progress, Rebase leaves a trace if and only if the histories are related and HEAD has a commit the target has not |
| RebaseOutcomes.FailedSetups | gitbackend/gogit_commit.go:420-441 | what a failed ref update or reset leaves: the written state files, an old `msgnum` among them, and at most the moved branch |
| RebaseOutcomes.ConflictLeavesMixture | gitbackend/gogit_commit.go:371-373 | a step that cannot write leaves each path of the index as it was or as the commit has it, and nothing else changed |
| RebaseOutcomes.NothingInProgress | gitbackend/gogit_commit.go:460-519 | exactly without a recorded rebase continue and abort refuse, exactly without a recorded step continue does, and touch nothing |
| RebaseOutcomes.AbortCanBeRepeated | gitbackend/gogit_commit.go:478-497 | an abort that fails keeps the rebase in progress, and repeated it ends as it would have at once |
| RebaseTheorems.ContinueKeeps | gitbackend/gogit_commit.go:500-582 | resolving and continuing completes the plan or stops at a strictly later step, still resumable |
| RebaseTheorems.RunKeeps | gitbackend/gogit_commit.go:385-582 | the invariant over any number of interruptions and continues, each of which moves on by at least one step |
| RebaseTheorems.ResumedRunsEnd | gitbackend/gogit_commit.go:385-582 | until the rebase has finished another continue is possible, and at most as many are as commits were planned |
| RebaseTheorems.InterruptionsDoNotMatter | gitbackend/gogit_commit.go:385-582 | a rebase interrupted anywhere any number of times ends with the branch tree, messages, authors, index and refs of an uninterrupted one |
| RebaseTheorems.UndisturbedRebaseCompletes | gitbackend/gogit_commit.go:443-457 | without faults one call completes exactly when every step changes the tree it lands on |
| RebaseAbortTheorems.AbortRestores | gitbackend/gogit_commit.go:385-498 | start with any faults, any edits and continues, then abort: every ref, index and tracked tree are as before and the state is cleared |
| RebaseExample.FirstCallStops | gitbackend/gogit_commit.go:420-450 | a file that cannot be written stops a concrete rebase at its first step with a conflict and `msgnum` 0 |
| RebaseExample.SecondCallCompletes | gitbackend/gogit_commit.go:540-581 | continuing it with the resolved tree commits the resolution and clears the state |
| RebaseExample.AnInterruptedRunExists | gitbackend/gogit_commit.go:385-582 | the premises of the interruption theorem are met by a run with an interruption |
| RebaseExample.AnAbortedRunExists | gitbackend/gogit_commit.go:385-498 | aborting it gives back the whole state before the rebase |
| ReplayOrder.LastTouchDecides | gitbackend/gogit_commit.go:443-453 | whatever was there, the last replayed commit that touches a path decides it |
| ReplayOrder.UntouchedInHistory | gitbackend/gogit_commit.go:357-364 | along a linear history a path changes only where a commit touches it |
| ReplayOrder.NewestTouchAtTip | gitbackend/gogit_commit.go:411-412 | the newest commit that touches a path decides the branch's entry |
| ReplayOrder.OldestTouchAtBase | gitbackend/gogit_commit.go:357-364 | the oldest commit that touches a path changes it from the base's entry |
| ReplayOrder.DisjointReplayIsNetChange | gitbackend/gogit_commit.go:411-453 | for path-disjoint commits every replay order ends in `onto` overlaid with the net change, so no other file of `onto` is lost |
| ReplayOrder.OldestTouchDecides | gitbackend/gogit_commit.go:37-55 | in the order the code uses, the oldest commit that touches a path decides it |
| ReplayOrder.RebasedTreeIsNetChangeIff | gitbackend/gogit_commit.go:411-453 | the replayed tree is the net change on `onto` if and only if every touched path's oldest version agrees with the wanted one |
| ReplayOrder.RebaseKeepsNetChange | gitbackend/gogit_commit.go:385-458 | the same for a completed Rebase call, and unconditionally for path-disjoint commits |
| ReplayOrder.ReplayOnBaseIsTheBranch | gitbackend/gogit_commit.go:443-453 | replayed onto its own base, a path-disjoint branch gives its own tree back |
| ReplayOrder.RebaseCanKeepTheOlderEdit | gitbackend/gogit_commit.go:385-458 | a fault-free Rebase call on a concrete history of two edits to one file plans them newest first, completes, and leaves the first edit |
| Lru.OperationsKeepValid | transport/etag.go:69-70 | the assumed LRU operations keep the bound and the key order, and touch no other entry |
| Lru.OrderCounts | transport/etag.go:74-74 | the recency order has one place for each entry |
| Lru.AddDropsOnlyTheOldest | transport/etag.go:69-70 | an addition drops only the least recently used entry, and only when the cache is full and the key new |
| ETag.ETagCache.constructor | transport/etag.go:64-71 | a new cache is empty and holds maxEntries responses, or the default number for a limit that is not positive |
| ETag.ETagCache.ApplyConditional | transport/etag.go:91-98 | only a GET without a validator gets the stored one, and its entry becomes the most recent |
| ETag.ETagCache.Store | transport/etag.go:130-142 | only a cacheable response within the body limit is stored, and the bounds hold |
| ETag.ETagCache.Process | transport/etag.go:169-184 | a 304 becomes the cached 200 or the "entry is gone" error, a 200 is stored, the rest passes |
| ETag.ETagCache.ProcessRT | transport/etag.go:193-235 | the same while streaming: oversized bodies pass byte for byte, a failure within the read prefix is an error |
| ETag.ReadUpTo | transport/etag.go:213-221 | prefix plus remainder is the body, and a failure is reported exactly when it lies within the prefix |
| ETag.KeyIsInjective | transport/etag.go:80-85 | on newline-free values two keys are equal exactly for equal method, URL, Accept, Authorization and PRIVATE-TOKEN |
| ETagPolicy.OthersAreNotKept | transport/etag.go:105-133 | anything but a 200 to a GET with an ETag, no Accept-Encoding and no no-store leaves every entry alone, on both paths |
| ETagPolicy.PartialBodiesAreNotKept | transport/etag.go:130-133 | nor is a body over the limit or cut off kept |
| ETagPolicy.WholeResponsesAreKept | transport/etag.go:91-142 | every other response is kept with exactly its ETag and body, and the next bare GET for the key carries that ETag |
| ETagPolicy.OtherRequestsAreSentAsTheyAre | transport/etag.go:91-98 | only a GET without a validator and with an entry is changed |
| ETagPolicy.BodiesAreTheOrigins | transport/etag.go:193-235 | status, ETag and body reach the caller as the origin sent them, breaks included; a failure is reported exactly when it lies within what is read |
| ETagPolicy.NotModifiedReplaysTheEntry | transport/etag.go:146-179 | a 304 changes no entry and is answered with the whole cached 200, or reported exactly when there is no entry |
| ETagPolicy.LookedUpIsMostRecent | transport/etag.go:95-97 | a looked-up entry becomes the most recently used |
| ETagTransparency.StoredFaithful | transport/etag.go:130-142 | storing a response keeps every entry equal to what its validator stands for |
| ETagTransparency.ExchangeIsTransparent | transport/etag.go:169-235 | one exchange shows the caller the status and body of an unconditional one, on both paths |
| ETagTransparency.EarlierLeaveNoTrace | transport/client.go:503-528 | retried attempts leave a faithful cache and the request unchanged but for a current validator |
| ETagTransparency.FetchIsTransparent | transport/client.go:222-303 | a whole call, retries included, shows what an uncached call shows |
| ETagTransparency.CachedRunIsUncachedRun | transport/etag.go:91-235 | over every sequential run of requests, origin changes and evictions the cached client observes exactly what the uncached one does |
| ETagTransparency.EmptyIsFaithful | transport/etag.go:64-71 | a new cache satisfies the premise of that run |
| ETagConcurrency.HandlingKeeps | transport/etag.go:169-235 | handling one response keeps bounds and origin of every entry, whatever happened in between |
| ETagConcurrency.StepKeepsInv | transport/etag.go:91-235 | every step of every request keeps the invariant |
| ETagConcurrency.RunKeepsInv | transport/etag.go:91-235 | so does every interleaving |
| ETagConcurrency.NotModifiedNeverInvents | transport/etag.go:162-205 | a 304 ends in the "entry is gone" error or in a body the origin served as a cacheable 200 for the same method, URL and credentials; entry and size bounds hold |
| RateLimit.RateLimiter.constructor | transport/ratelimit.go:60-73 | a new limiter has no slot reserved and knows no reset |
| RateLimit.RateLimiter.Reserve | transport/ratelimit.go:100-137 | the critical section returns the delay and reserves exactly the slot it stands for |
| RateLimit.RateLimiter.UpdateFromResponse | transport/ratelimit.go:164-183 | headers that parse replace remaining and reset, each on its own |
| RateLimit.HeldBackExactlyWhen | transport/ratelimit.go:113-130 | without a minimum delay a waiter is held back exactly when the quota is at or below the threshold and more than a second per request is left, for its equal share, and only then uses up a request |
| RateLimit.SpacedFromTheLast | transport/ratelimit.go:103-136 | with a minimum delay the slot is that far from the last and no later than needed |
| RateLimit.HeadersAreRemembered | transport/ratelimit.go:164-183 | parsed headers decide later slots, others do not; with nothing left the next waiter is sent to the reset |
| RateLimit.HeadersReachTheNextWaiter | transport/ratelimit.go:100-183 | headers that arrive between two waiters count for the second |
| RateLimit.ThrottledSlotBeforeReset | transport/ratelimit.go:120-130 | a throttled slot is more than a second ahead and not after the reset |
| RateLimit.NextSlotNotEarlier | transport/ratelimit.go:120-136 | while quota is left the next waiter gets no earlier slot, across threshold, gate and truncation |
| RateLimit.SlotGoesBackIff | transport/ratelimit.go:120-136 | with the quota used up the next slot is earlier if and only if the waiter arrives in the last second before the reset |
| RateLimit.SlotsCanGoBack | transport/ratelimit.go:120-136 | a concrete pair of waiters whose slots go backwards |
| RateLimit.SlotsNeverGoBack | transport/ratelimit.go:113-136 | the slots of any number of successive waiters are ordered while quota is left |
| RateLimit.QuotaPaysForItsSize | transport/ratelimit.go:116-127 | a quota of n lasts for n + 1 waiters |
| RateLimit.EventKeeps | transport/ratelimit.go:91-160 | an arrival, an armed timer, a wake-up, a cancellation or a header update keeps the spacing and keeps every caller behind its slot |
| RateLimit.TrafficKeeps | transport/ratelimit.go:91-160 | so does every sequence of them |
| RateLimit.SpacedApart | transport/ratelimit.go:103-111 | slots i and j are at least j - i times the minimum delay apart |
| RateLimit.WaitersKeepTheirDistance | transport/ratelimit.go:91-160 | for any concurrent, possibly cancelled callers reservations keep the minimum delay, no two share a slot, and nobody returns before its slot although the timer is armed outside the lock |
| Manager.ProviderCache.constructor | provider/manager.go:90-97 | a new cache is empty |
| Manager.ProviderCache.Lookup | provider/manager.go:140-154 | it hits exactly when there is an entry and the TTL is 0 or not over; anything else counts one miss and changes nothing more |
| Manager.ProviderCache.Refresh | provider/manager.go:144-151 | a hit moves its key to the end of the order if it is still there |
| Manager.ProviderCache.Insert | provider/manager.go:160-184 | the recheck returns a racing caller's fresh provider; otherwise eviction, order, map and counters change together |
| Manager.ProviderCache.Get | provider/manager.go:137-185 | an entry within its time to live, or any with TTL 0, is returned and counted as a hit; otherwise one miss, and a failed construction or an insertion, with the whole new state |
| Manager.ProviderCache.Remove | provider/manager.go:188-196 | the key leaves map and order |
| Manager.ProviderCache.Purge | provider/manager.go:199-206 | map and order become empty |
| Manager.ProviderCache.Cleanup | provider/manager.go:239-255 | in any visiting order exactly the stale keys leave map and order, each counted once |
| Manager.EvictionDropsOldest | provider/manager.go:168-178 | the eviction loop drops at most one key, the least recently used |
| Manager.InsertKeepsInv | provider/manager.go:160-184 | insertion keeps order and map equal, the size within the limit and the counters balanced |
| Manager.OthersKeepInv | provider/manager.go:144-255 | so do refresh, miss, Remove, Purge and Cleanup |
| Manager.KeysAreDistinct | provider/manager.go:332-336 | keys are equal exactly for equal configurations when platform and hash hold no colon, although base URLs do |
| Manager.HashWithSeparatorCollides | provider/manager.go:332-336 | a hasher that returns a colon can make two configurations share a key |
| ManagerRuns.InsertStepKeeps | provider/manager.go:160-184 | the insert step keeps the invariant after any steps of others since the lookup |
| ManagerRuns.StepKeeps | provider/manager.go:137-255 | every critical section keeps the invariant |
| ManagerRuns.RunKeeps | provider/manager.go:137-255 | so does every interleaving, and TTL and limit never change |
| ManagerRuns.CacheStaysConsistent | provider/manager.go:137-255 | under every interleaving order and map agree, size is bounded, insertions equal size plus evictions plus removals, no hit was stale, and every caller got a provider made for its key |
| ManagerRuns.CleanupRespectsTTL | provider/manager.go:239-255 | Cleanup drops exactly the entries older than the TTL and none that a lookup would hit |
| ManagerRuns.InsertEvictsOnlyTheOldest | provider/manager.go:168-180 | another key is lost to an insertion if and only if the cache is full and it is the least recently used |
| ManagerHits.LookupHitsIff | provider/manager.go:140-154 | in every system a lookup hits if and only if there is an entry under the key and the TTL is 0 or not over |
| ManagerHits.SparedEntryStays | provider/manager.go:137-255 | a step that is no Remove of the key, Purge, Cleanup or eviction keeps its entry while it is alive |
| ManagerHits.InsertedIsCached | provider/manager.go:160-184 | the provider an insertion returns is the one under the key afterwards |
| ManagerHits.SecondGetShares | provider/manager.go:137-185 | a second Get of a key within the TTL, after any steps that spare it, returns the first one's provider and constructs nothing |
| ManagerHits.RacingGetShares | provider/manager.go:161-166 | of two racing Gets that both constructed, the later returns the earlier one's provider |
| ManagerHits.ConstructionsAreCounted | provider/manager.go:154-158 | only a Get that missed constructs, and constructs one provider |
| ManagerRecency.TrackKeeps | provider/manager.go:144-179 | every step keeps the recency order sorted by the last hit or insertion |
| ManagerRecency.EvictedKeyIsLeastRecentlyUsed | provider/manager.go:167-180 | under every interleaving a key evicted for room was hit or inserted longer ago than every other cached key |
| Janitor.StepKeepsInv | provider/manager.go:264-326 | every step keeps the channel and field invariant |
| Janitor.RunKeepsInv | provider/manager.go:264-326 | so does every interleaving of StartJanitor, Stop, cancellation and exit |
| Janitor.AtMostOneJanitor | provider/manager.go:264-326 | no channel is closed twice, and at most one janitor is neither signalled nor exiting |
| Janitor.RelaunchExactlyWhenNoneIsLive | provider/manager.go:270-293 | StartJanitor launches exactly when every earlier janitor was signalled or has reset the state |
| Janitor.StopWaitsForExit | provider/manager.go:310-326 | a Stop that found a janitor returns after it exited, unless it was launched during another Stop |
| Janitor.WaitingStopProgresses | provider/manager.go:277-326 | a waiting Stop is never stuck |
| Janitor.NobodyQuitsUnasked | provider/manager.go:296-305 | no janitor ends unless it was cancelled or signalled |
| Janitor.CanEndAndBeReplaced | provider/manager.go:277-305 | a cancelled or signalled janitor can end by its own steps from every state, and if no newer one runs StartJanitor launches another |
| Janitor.WhatStopDoes | provider/manager.go:310-322 | a Stop without a janitor returns and touches nothing, one with a janitor signals it and waits if its done channel is known |
| Janitor.OverlapLetsStopReturnEarly | provider/manager.go:310-326 | the exception is real: from every reachable such launch some continuation returns early |
| Retry.Do | transport/retry.go:231-312 | the first loop yields the specified attempts, waits, response and error |
| Retry.RoundTrip | transport/client.go:558-656 | the second loop does so too, with a body of its own or the request's GetBody, which may fail or return other bytes |
| RetryTheorems.BothLoopsAreDisciplined | transport/retry.go:241-306 | at most MaxAttempts attempts, each but the last with an outcome the policy retries; the first loop sends the same bytes each time, the second exactly when GetBody returns them or there is one attempt |
| RetryTheorems.PolicyIs | transport/retry.go:69-165 | by method, status and headers: which outcomes allow another attempt |
| RetryTheorems.EndsTheLoop | transport/retry.go:112-134 | an answer ends the loop for a write, and a bare 403 for any method |
| RetryTheorems.BodiesSent | transport/client.go:563-603 | the first loop always sends the request's bytes, the second those of GetBody after the first attempt |
| RetryTheorems.WritesReachTheServerOnce | transport/retry.go:98-145 | a POST, PATCH or other non-idempotent method with RetryWrite off reaches the server at most once in both loops: all attempts but the last failed in DNS or dial |
| RetryTheorems.LoopsReport | transport/retry.go:241-312 | for every script the first outcome that may not be retried is what the caller gets; out of attempts, cancelled or without a body to replay, exactly which answer and which error each loop returns |
| RetryTheorems.AttemptsAreMadeExactlyWhen | transport/retry.go:245-306 | attempt n is made if and only if it is allowed and the loop goes on after each one before it |
| RetryTheorems.GoesOnMeans | transport/client.go:577-646 | what going on means, by method, status, headers, cancellation and body |
| RetryTheorems.WithoutRetries | transport/retry.go:232-239 | without retries there is one attempt and its outcome |
| RetryTheorems.AttemptsAgreeFrom | transport/client.go:577-646 | from any common position both loops make as many attempts with the same Backoff arguments |
| RetryTheorems.LoopsAgree | transport/client.go:577-655 | the loops make as many attempts with the same Backoff arguments, send the same bytes unless GetBody returns others, and return the same result exactly unless the attempts ran out after both an answer and a network error |
| RetryTheorems.LoopsCanDisagree | transport/retry.go:308-311 | a concrete script on which the first loop returns an error beside the answer and the second does not |
| RetryTheorems.BackoffBounded | transport/retry.go:200-223 | one wait lies between 0 and 1.25 times the resolved maximum, and a parseable Retry-After is capped at the maximum |
| RetryTheorems.BackoffDoubles | transport/retry.go:200-223 | without a usable Retry-After the waits start at the base and double up to the maximum, defaults included, times the jitter |
| RetryTheorems.RetryAfterIsHonoured | transport/retry.go:179-211 | a Retry-After in seconds or as a date is waited out exactly, up to the maximum |
| RetryTheorems.TotalWaitBounded | transport/retry.go:200-223 | n waits add up to at most n times the longest |
| RetryTheorems.WaitingIsBounded | transport/retry.go:245-258 | either loop sleeps at most (MaxAttempts - 1) * 1.25 times the resolved maximum in all |
| Batch.Normalized | provider/batch.go:26-34 | the limit is the caller's between 1 and 16, 4 when unset and 16 above |
| Batch.StepKeepsCounters | provider/batch.go:61-87 | semaphore and wait group count exactly the goroutines they should, and each step but a cancellation is progress |
| Batch.StepKeeps | provider/batch.go:55-89 | every step keeps the invariant on items, counters and late starts |
| Batch.RunKeeps | provider/batch.go:55-89 | so does every schedule, whose steps are paid for by the measure |
| Batch.EveryScheduleIsSafe | provider/batch.go:55-89 | at most the limit is in flight, no slot is written twice, at most one item starts after cancellation, no schedule has more than 6n + 3 steps |
| Batch.ReturnedResultsAreComplete | provider/batch.go:55-89 | on return each item has one outcome at its own index under its own key, its own call's result or the context's error after a cancellation, and no goroutine is left |
| Batch.RemainingItemsFailFast | provider/batch.go:60-77 | an item the loop has not begun with at the cancellation never runs and ends with the context's error |
| Batch.NeverStuck | provider/batch.go:72-88 | before the return some step is possible if every call of fn returns |
| Batch.CancelledLoopNeverBlocks | provider/batch.go:65-77 | after a cancellation the loop waits for no goroutine before it waits for the group |
| Batch.EveryStateCanReturn | provider/batch.go:55-89 | every state of every schedule can be brought to the return |
| CommitStatus.LatestCommitStatuses | provider/wait.go:133-144 | the loop keeps the first status of each context in order |
| CommitStatus.CollapsedIsFirstPerContext | provider/wait.go:124-144 | the kept list holds each context once, with its newest state |
| CommitStatus.CombineCommitStatusStates | provider/commitstatus.go:81-111 | the flags loop gives the combined state of the set of states |
| CommitStatus.CountIsCoverage | provider/wait.go:198-200 | the `reported` counter test is the test that every wanted context has reported |
| CommitStatus.FoldTerminalStates | provider/wait.go:183-203 | the fold is a function of the newest state of each wanted context |
| CommitStatus.FoldIgnoresOlderReports | provider/wait.go:124-144 | a report with a newer one of its context, or of an unwanted context, is ignored |
| CommitStatus.FoldIgnoresOrder | provider/wait.go:178-203 | reports of different contexts may come in either order |
| CommitStatus.DoneExactlyWhen | provider/wait.go:178-203 | the verdict is final if and only if all wanted contexts reported and some vote failed, or some succeeded and none waits; and is success only without failures |
| CommitStatus.WorstVoteWins | provider/commitstatus.go:75-111 | error beats failure beats cancellation beats waiting beats success, and nothing counts before all wanted contexts reported |
| CommitStatus.NormalizedDoneExactlyWhen | provider/commitstatus.go:75-111 | on normalized states: some vote failed, or the votes are all success and not empty |
| CommitStatus.UnknownDoesNotVote | provider/commitstatus.go:83-96 | a state outside the vocabulary beside a success leaves the verdict at success |
| CommitStatus.WaitForCommitStatus | provider/wait.go:58-108 | the loop returns at the first conclusive round with exactly its terminal state, definite miss, cancellation or timeout, and a timeout never carries a terminal state |
| CommitStatus.WaitEndsBecause | provider/wait.go:82-107 | the last round says which of miss, final verdict, cancellation and timeout ended the loop |
| CommitStatus.LastVerdictIsNewest | provider/wait.go:98-104 | the verdict a timeout carries is that of the last successful listing |
| Ensure.EqualEventsIsSameMultiset | provider/ensure.go:86-90 | comparing sorted clones compares multisets |
| Ensure.Registry.Add | provider/ensure.go:73-79 | the platform's add: one new entry at a place of its choice, or nothing |
| Ensure.Registry.Delete | provider/ensure.go:68-72 | the platform's delete: exactly the entry with the id, or nothing |
| Ensure.CreateWebhook | provider/ensure.go:73-79 | a new hook for the URL with the asked events in some order |
| Ensure.EnsureWebhook | provider/ensure.go:43-84 | success leaves exactly one hook for the URL with the desired event multiset and every other hook in place; the action says what happened; on a converged platform nothing is written; failure only deletes leading hooks of the URL |
| Ensure.EnsureDeployKey | provider/ensure.go:135-161 | the first key with the title decides: kept, replaced, or one added; what a failed call can leave |
| Ensure.KeyRunLowersMismatches | provider/ensure.go:140-160 | an updating run lowers the mismatching keys by exactly one, a creating run leaves none, other titles stay |
| Ensure.KeysConverge | provider/ensure.go:128-161 | at most as many changing runs as mismatching keys, or one creating run; then unchanged for good |
| Ensure.UnchangedCanLeaveDuplicates | provider/ensure.go:140-146 | unchanged can be reported with a mismatching key behind the first |
| FetchRefs.CollectFetchRefs | gitbackend/gogit_core.go:108-137 | the two passes collect exactly the remote's tracking refs and the tags |
| FetchRefs.CollectPruned | gitbackend/native_core.go:124-130 | the second loop lists exactly the pruned tracking refs, once each |
| FetchRefs.DiffFetchRefs | gitbackend/native_core.go:97-133 | for every iteration order each list holds exactly the short names it should, once each |
| FetchRefs.Fetch | gitbackend/gogit_core.go:31-103 | the go-git backend meets the same description on its own snapshots |
| FetchRefs.PrefixesAreDisjoint | gitbackend/native_core.go:98-99 | no ref is both a tracking ref and a tag |
| FetchRefs.ShortNames | gitbackend/native_core.go:97-110 | the short name is what follows the prefix, and a remote whose name only starts alike has no branch here |
| FetchRefs.SnapshotHolds | gitbackend/gogit_core.go:108-137 | a snapshot holds exactly the remote's tracking refs and the tags |
| FetchRefs.ResultsAgree | gitbackend/native_core.go:97-133 | any two results for the same refs, from either backend and any order, hold the same names |
| FetchRefs.EachFetchedBranchIsInOneList | gitbackend/native_core.go:103-122 | a tracking ref was fetched exactly when it is new or updated, never both, and a deleted one was not |
| FetchRefs.ListsAccountForEveryRef | gitbackend/native_core.go:103-130 | the tracking refs after the fetch are those before without the deleted and with the new |
| FetchRefs.PrefixedIs | gitbackend/native_core.go:90-96 | re-adding the prefix recovers the refs without duplicates |

## Left out

- GoGitBackends.GoGitBackend.ApplyChangesToWorktree: directory/file clashes, renames, symlinks and file modes are not modelled; trees are flat.
- GoGitBackends.GoGitBackend.Rebase: failed writes of the state files, which the code ignores, are not modelled; a rebase started over an old one keeps the old `msgnum`, as the code does.
- GoGitBackends.GoGitBackend.RebaseContinue: state files that do not parse, or were edited to negative numbers, are not modelled.
- RebaseTheorems.InterruptionsDoNotMatter: assumes that no deletion fails unnoticed during the replay; `StepIsExact` says what such a failure does.
- ETag.ETagCache.ProcessRT: response headers other than ETag, Cache-Control and Content-Length, and body closing, are not modelled; the nil cache, which passes everything through, is left out.
- RateLimit.RateLimiter.Reserve: the token bucket that waits before the lock is an opaque wait, and the two clock reads of the critical section are one.
- Retry.Do: the request body is read without error, and int64 overflow of a huge Retry-After is not modelled; the jitter is any factor from 0.75 to 1.25.
- Manager.ProviderCache.Get: DetectPlatform, hashing and NewProvider are values; ResetStats, which would break the counter balance by design, is left out.
- Batch.EveryScheduleIsSafe: goroutine steps are atomic; the data race freedom of the shared slice is the index discipline proved here, not a memory model. A panicking `fn` is left out.
- CommitStatus.WaitForCommitStatus: poll interval, timeout and timer are reduced to which channel ends each wait; the clamping in initWait and the check that the provider supports statuses are left out.
- CommitStatus.NormalizedDoneExactlyWhen: the table of platform verbs in NormalizeCommitStatusState is left out; its result is never outside the vocabulary.
- Ensure.EnsureWebhook: nil entries of a listing, which the code skips, are left out; secrets are not comparable and not modelled.
- Ensure.EnsureDeployKey: nil entries of a listing are left out, as is EnsureBranchProtection, a single branch without loops.
- FetchRefs.Fetch: the network fetch itself and parsing of `for-each-ref` output are not part of this model.
- Cherry-pick, commit queries, worktree and status commands, the native git subprocess, webhooks, app tokens, page iteration and the platform backends are thin wrappers or parsing and would only add easy members.
