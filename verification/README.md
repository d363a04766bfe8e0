# The reorg-fence protocol of rpc-proxy

rpc-proxy serves JSON-RPC reads from several providers of one chain and promises *consistent data or an
error*. Coordinators follow the providers, agree on one accepted head per commitment level and write it
to a shared, lease-guarded store. When a coordinator sees the accepted EVM head diverge, it first raises
a fence in the store (a new reorg epoch, pending), then validates the fork, then publishes. Gateways pin
every batch to a snapshot, load the results, and read the store once more before they let anything out.

This project models one chain's slice of that system in Dafny and proves what the promise rests on.

## How it is built

- **Headers and ancestry** (`Headers.dfy`, `Runtime.dfy`). What a block hash stands for is fixed; which
  provider answers, and whether, is decided anew at each call. Ancestry is a function of the header
  contents that stops at a missing header or at a link that does not step by one, so nothing is assumed
  about the tree: every height check of the program is needed.
- **The fenced store** (`HeadStore.dfy`, `RedisStore.dfy`, `RedisRuns.dfy`). `MemoryStore` is the class with its
  four fields. The Lua scripts are a second set of atomic steps. Both are related operation by operation, at
  equal clock readings up to expiry instants and at suitable readings without exception.
- **The protocol** (`Protocol.dfy`, `Safety.dfy`). A run interleaves store operations of any number of
  coordinators with acquisitions, renewals, expiry (an arbitrary clock reading per step) and releases.
  Header walks touch no shared state; what they establish is the enabling condition of the next store
  operation. The invariant and the theorems about all runs are here.
- **The program between the store operations** (`Cluster.dfy`, `Coordinator.dfy`). `SharedStore` couples
  a `MemoryStore` with the run that produced it. `Consider` and `ValidateEVMTransition` are the
  program's methods, with the other participants free to act between any two store operations; they are
  proved to take only steps that the protocol allows.
- **Gateways** (`Gateway.dfy`, `Receipts.dfy`, `ReceiptCache.dfy`, `Router.dfy`). Target selection, the
  in-place fence over a batch, bounded inclusion proofs, retained receipts, attempt-once failover.
- **Response cache** (`RequestCache.dfy`, `Flights.dfy`, `ReceiptFlights.dfy`). The LRU with its map and
  list, and the machine of hits, shared flights and evictions.
- **Streams** (`Stream.dfy`, `WebSocket.dfy`, `NewHeads.dfy`). Paging and retention of accepted-head events,
  the newHeads pump that fills gaps by parent links, and the session that feeds the one to the other.
- **Quantities** (`EvmUtils.dfy`). Canonical EVM quantities.

`dafny verify dfyconfig.toml` checks everything.

## Assumptions

Providers do not misstate the contents of a block they name (`BlockSource.Honest`); the repository
assumes the same. Clocks need not agree or advance, except in the comparison of the two stores, where
operations are ordered in time. Hash strings are in lower case, so equality is the program's
case-insensitive comparison. A pump alone assumes that its stream delivers no absent head; on the shared store
this is proved.

## What differs from the documentation or the intuition

- *The two stores are not interchangeable at one instant.* The memory store lets a lease renew and publish at
  the exact instant it expires, but neither raise a fence nor keep others from acquiring. The Redis scripts
  know only whether the key is still there, and the program does not say whether a server still shows a key
  at that instant, so both readings are modelled. `RedisStore.OperationAgrees` gives the exact condition for
  both: where the key is gone, renewals and publications differ (`DroppedKeyDisagrees`); where it is still
  there, acquisitions and fences do (`LingeringKeyDisagrees`).
- *The fence's generation and number/hash comparisons never decide anything* once the epochs agree and
  the heads come from one run (`Gateway.ChangedMeansNewEpoch`).
- *A consumer that starts on an empty Redis stream uses the ID "0-0", for which no retention check is
  made.* It misses exactly the entries trimmed before its first non-empty read, so some if and only if there
  are any (`Stream.RedisStream.Consume`); `Stream.TrimmedStartMissesAnEntry` is such an input.
- *One branch per epoch is not a property of the store.* `Publish` accepts any head that acknowledges
  the epoch, two forks after one another included (`Protocol.StoreAcceptsForks`). An accepted publication
  keeps the branch if and only if it ends a fence or its block extends the current head's branch
  (`Protocol.BranchKeptExactly`); the coordinators' validation and the lease together ensure that.
- *A lagging observation can raise a fence.* A candidate below the accepted head is known to be its ancestor
  only if it lies inside the reorg window and the headers down to it are available; otherwise the walk reports
  divergence. `Coordinator.Coordinator.ValidateEVMTransition` ensures that a fence is raised only in these cases
  or for blocks of different branches (`Divergent`).

## Model

| member | source | states |
|---|---|---|
| `Safety.RunKeepsInv` | internal/coordinator/coordinator.go:327-423 | In every reachable world: stamps, tokens and event IDs are in order, the accepted heads form one history in which heads of an epoch lie on one branch, and a session whose token still holds the lease sees the store as it read it. |
| `Protocol.StepKeepsInv` | internal/coordinator/coordinator.go:327-423 | Each single protocol step keeps that invariant. |
| `Protocol.StoreAcceptsForks` | internal/head/types.go:151-183 | Without the coordinators' validation the store accepts any two different blocks after one another under one epoch. |
| `Protocol.BranchKeptExactly` | internal/head/types.go:159-166 | An accepted EVM publication keeps the epochs on one branch each if and only if it ends a fence or its block is on a branch with the current head. |
| `Protocol.PublishKeepsInv` | internal/head/types.go:151-183 | A publication of anything a coordinator may offer keeps it, whether or not the lease still stands. |
| `Protocol.DivergeKeepsInv` | internal/head/types.go:186-203 | So does BeginReorg, whichever session calls it. |
| `Protocol.LeaseKeepsInv` | internal/head/types.go:114-148 | So do acquiring, renewing, releasing, reading and giving up. |
| `Protocol.OfferIsSafe` | internal/coordinator/coordinator.go:349-405 | While the lease stands, an offered EVM head acknowledges the current epoch and extends the accepted branch unless a fence is up; an offered slot is not below the accepted one. |
| `Protocol.ChronicleExtends` | internal/coordinator/coordinator.go:401-404 | A history of heads ordered epoch by epoch, branch by branch stays so when its last head is fenced, recovered from, or extended. |
| `Safety.OneBranchPerEpoch` | internal/coordinator/coordinator.go:349-405 | Over every run epoch and generation never decrease, a head is pending only before its epoch's first usable head, and usable heads of one epoch succeed each other on one branch. |
| `Safety.NoFenceBetween` | internal/gateway/reorg.go:49-54 | Equal epochs at two moments mean no fence was up in between, even on A to B to A. |
| `Safety.HistoryGrows` | internal/head/types.go:28-45 | The history of accepted heads is append-only over every run. |
| `Safety.LogGrows` | internal/head/types.go:172-178 | So is the event log. |
| `Safety.AcceptedHeadsAreLogged` | internal/head/types.go:172-178 | In every world the newest event is of the accepted EVM block, and every event is of a block that was accepted. |
| `Safety.LostTokenStaysLost` | internal/head/types.go:114-138 | A token that lost the lease never holds it again, whoever acquires afterwards. |
| `Safety.PublishReplacesWhatWasRead` | internal/head/types.go:151-166 | A successful publication replaces exactly the head its session read or was handed by its own BeginReorg; the only refusal a coordinator can meet is the lost lease, never ErrReorgFence. |
| `Safety.DivergeFencesWhatWasRead` | internal/coordinator/coordinator.go:361-377 | BeginReorg fences exactly the head that was read, or reports the lost lease. |
| `Safety.HeadChangesAreJustified` | internal/coordinator/coordinator.go:349-405 | The accepted EVM head changes only by being fenced, or by a publication that has a verified descendant, or a verified fork that is longer or displaced at every queried provider, or the same block, under a fence only when every queried provider reported it; it then clears the fence of its own epoch. |
| `Safety.SolanaFloor` | internal/coordinator/coordinator.go:345-348 | The accepted slot of a commitment never decreases over any run, takeovers and lagging observations included. |
| `HeadStore.MemoryStore.Acquire` | internal/head/types.go:114-125 | The lease passes only once it expired, with a token never issued before. |
| `HeadStore.MemoryStore.Renew` | internal/head/types.go:128-138 | Only the holder extends the lease, up to and including the expiry instant. |
| `HeadStore.MemoryStore.Release` | internal/head/types.go:141-148 | Only the holder gives it up. |
| `HeadStore.MemoryStore.Publish` | internal/head/types.go:151-183 | The whole new state: refusals change nothing, the same block keeps generation and change time, a new one gets the next generation and, for the EVM latest head, one event. |
| `HeadStore.MemoryStore.BeginReorg` | internal/head/types.go:186-203 | The holder raises epoch and flag of the current EVM head once; repeating it changes nothing. |
| `HeadStore.PublishKeepsStamps` | internal/head/types.go:151-183 | Publications never rewind the counter, rewrite the log or break the order of its IDs. |
| `HeadStore.MemoryStore.ReadEvents` | internal/head/types.go:256-294 | The page behind the first event with the cursor's ID, a gap if there is none, or waiting. |
| `HeadStore.StartOfFirst` | internal/head/types.go:263-271 | The scan of the loop finds that position. |
| `HeadStore.MemoryStore.StreamStart` | internal/head/types.go:245-253 | The newest event, or the ID "0-0" with no head. |
| `RedisStore.OperationAgrees` | internal/head/redis.go:31-95 | From agreeing stores, every operation has the same outcome if and only if it does not fall on the expiry instant as the holder's renewal or publication (where the key is gone then) or as an acquisition or the holder's fence (where it is still there); then the stores agree again: heads, epochs, flags, events, lease, with generations paired in order. |
| `RedisStore.StoresRunInLockstep` | internal/head/redis.go:31-95 | So, for either reading of key expiry, every timed sequence of operations yields the same outcomes in both stores, up to the first such operation or the first head that is not of its commitment's kind. |
| `RedisRuns.ScriptRunsAreMemoryRuns` | internal/head/redis.go:31-95 | For either reading of key expiry, every timed run of the scripts is a run of the memory store's operations under suitable clock readings, expiry instants included, up to the first head that is not of its commitment's kind. |
| `RedisRuns.OperationMatches` | internal/head/redis.go:31-95 | The same for one operation: same outcome, and the stores stay matched. |
| `RedisStore.PublishAgrees` | internal/head/redis.go:50-80 | The publish script and MemoryStore.Publish give the same verdict, stored head and event, if and only if it is not the holder's expiry instant with the key already gone. |
| `RedisStore.BeginReorgAgrees` | internal/head/redis.go:82-95 | Both forms of BeginReorg agree if and only if it is not the holder's expiry instant with the key still there. |
| `RedisStore.AcquireAgrees` | internal/head/redis.go:31-37 | Both forms of Acquire agree, and the new tokens correspond, if and only if it is not the old lease's expiry instant with the key still there. |
| `RedisStore.RenewAgrees` | internal/head/redis.go:39-43 | Both forms of Renew agree if and only if it is not the holder's expiry instant with the key already gone. |
| `RedisStore.ReleaseAgrees` | internal/head/redis.go:45-48 | Both forms of Release leave agreeing stores. |
| `RedisStore.DroppedKeyDisagrees` | internal/head/types.go:151-158 | With the key gone at the expiry instant, a memory lease publishes then where the Redis one is lost. |
| `RedisStore.LingeringKeyDisagrees` | internal/head/types.go:114-121 | With the key still there, memory hands the lease over at that instant and Redis does not, and Redis raises a fence that memory refuses. |
| `Coordinator.GetCanonicalEvidence` | internal/coordinator/coordinator.go:576-605 | The loop's counters amount to: some provider names the head at its height, and whether all do (then every provider answered); every provider answered and none names it; or nothing is proved. |
| `Coordinator.DescendToHeight` | internal/coordinator/coordinator.go:463-476 | The candidate's block at the lower height, on its own branch, or the exact reason: the gap is too long, the parent of a named height was asked for in vain, or a link in the walked stretch does not step by one. |
| `Coordinator.CollectAncestors` | internal/coordinator/coordinator.go:486-502 | The map holds exactly the current branch down to the depth limit, block 0, or the height whose parent was asked for in vain, unless the candidate is found on it. |
| `Coordinator.FindCommonAncestor` | internal/coordinator/coordinator.go:507-526 | A height at which both branches have the same block, or none in the window, or the header that was asked for in vain, or the broken link. |
| `Coordinator.Coordinator.ReportDivergence` | internal/coordinator/coordinator.go:428-434 | Divergence is reported at most once and opens an epoch only if no fence is up; it fails only with LeadershipLost, and only if the lease was not held when the epoch was to be opened. |
| `Coordinator.Coordinator.ValidateEVMTransition` | internal/coordinator/coordinator.go:425-527 | An answer is exact: false if and only if one block is on the other's branch, and then nothing was reported; true means a fork with a common ancestor inside the window, and divergence was reported. Every answer but for parent and child rests on a verified parent of the candidate and a window. Every error is explained by the call's own queries inside the walked window, and leaves the fence up, a missing common ancestor always: except, at other heights than the current one and the next, for a missing window, the candidate's parent, the walk down to the current height and, for a lower candidate, a broken link of the current branch; and for the lost lease. A fence is raised only where the candidate cannot be told to be on one branch with the current head. |
| `Coordinator.AvailableTransitionIsAnswered` | internal/coordinator/coordinator.go:425-527 | With the window's headers available and well linked, a gap no longer than the window and a standing lease, no error is explained if a common ancestor exists in the window: the validation then answers. |
| `Coordinator.Coordinator.ResolveFork` | internal/coordinator/coordinator.go:478-526 | The same for the part that walks both branches below the lower of the two heights: every error of the search along the candidate's branch leaves the fence up. |
| `Coordinator.Coordinator.WalkBranches` | internal/coordinator/coordinator.go:463-526 | The same for all header walks, once neither block is the other's parent: only the walk down to the current height and, for a lower candidate, a broken link of the current branch may end without a fence, but for the lost lease. |
| `Coordinator.ForkConfirmed` | internal/coordinator/coordinator.go:507-514 | Meeting the recorded ancestors below both heads proves that neither block is on the other's branch. |
| `Coordinator.Coordinator.ChooseFork` | internal/coordinator/coordinator.go:349-405 | The offer, or its absence, is exactly the protocol's for the established verdict and for replies the providers gave in this call, and is, field by field, the candidate or the accepted block as Consider publishes it; keeping the head and every error have their stated reason, the lost lease included, and leave the fence up unless the blocks are of one branch or the divergence could not be told. |
| `Coordinator.Coordinator.Consider` | internal/coordinator/coordinator.go:327-423 | One observation with everybody else running in between. A publication is what the protocol offers, under a lease held at that step, and replaces the head this session believed in. Stamps aside it is: the candidate, if there was no head (a block's parent being verified) or for a slot; else, with the acknowledged epoch, one more than read if the blocks diverge below a shared block of the window and no fence was up, the candidate if it is the accepted block (a fence ending only if every provider names it) or is above it; and otherwise, for a divergent block, the candidate if every provider names another block at the accepted height, and the accepted block observed now if every provider names that. Keeping the head and every error have a stated reason; after a fence and no publication the fence is still up while the lease stands. |
| `Coordinator.UnresolvedDivergenceIsFenced` | internal/coordinator/coordinator.go:361-398 | A divergence left unresolved is fenced: after a consideration that kept the head against a block of another branch, or failed once the divergence could be told, the accepted head is pending unless the lease is lost. |
| `Coordinator.Coordinator.PublishOffer` | internal/coordinator/coordinator.go:406-412 | The closing Publish succeeds if the lease is held at that step, over the head this session believed in; otherwise there was an offer and no lease. |
| `Coordinator.Coordinator.VerifyParent` | internal/coordinator/coordinator.go:336-344 | The candidate's parent is one below it, or it was asked for in vain, or it is at another height. |
| `Coordinator.Coordinator.RunLeader` | internal/coordinator/coordinator.go:146-163 | A whole leadership: the k-th consideration is a stretch of the run, behind that of the one before, with all that Consider states for the k-th observation; the published heads are those of the outcomes; the queue is considered to its end, or up to the first lost lease. |
| `Coordinator.PublishedHeadsExact` | internal/coordinator/coordinator.go:406-412 | The heads published in a leadership are exactly those of the considerations that published. |
| `Cluster.SharedStore.Publish` | internal/coordinator/coordinator.go:406-412 | Appends one protocol step to the run. It succeeds if and only if the lease is held at that step: then the offer is the accepted head, stamps aside, and replaced what this session believed in. |
| `Cluster.SharedStore.BeginReorg` | internal/coordinator/coordinator.go:361-373 | Appends one protocol step to the run. It succeeds if and only if the lease is held at that step: then exactly the head this session read is fenced. |
| `Cluster.SharedStore.Read` | internal/coordinator/coordinator.go:328-335 | The snapshot is the store of that moment. |
| `Cluster.SharedStore.Acquire` | internal/coordinator/coordinator.go:85-92 | The lease is granted if and only if none is unexpired, with a token of no earlier session. |
| `Cluster.SharedStore.Abort` | internal/coordinator/coordinator.go:386-398 | Giving up leaves a fence this session found or raised in place while its lease stands. |
| `Headers.BelowBranch` | internal/chain/runtime.go:361-371 | Ancestors are unique per height: below one of its blocks, a branch is that block's own branch. |
| `Headers.OnBranchTransitive` | internal/chain/runtime.go:361-371 | Ancestry is transitive. |
| `Headers.OnBranchTotal` | internal/chain/runtime.go:361-371 | Two blocks of one branch are ancestor and descendant, by height. |
| `Headers.HashAtEndsPath` | internal/chain/runtime.go:361-371 | The block found at a height is exactly the one that a path of parent links of that length leads to, every link but the last checked to step by one. |
| `Runtime.GetEVMBlockByQuantity` | internal/chain/runtime.go:341-374 | Numeric selection returns the accepted head's ancestor at that height with one fetch per step; an invalid reference is exactly an unparsable quantity; any other refusal names its cause: no usable head, outside the window, the parent of a walked height asked for in vain, or a broken link in the walk. |
| `Runtime.BlockSource.EVMBlockByHash` | internal/chain/runtime.go:411-438 | Some if and only if some provider names the requested block, with that block's contents. |
| `Gateway.FencePassIsSafe` | internal/gateway/reorg.go:37-59 | If the final check passes, no fence was up and no epoch was opened between the two snapshots, and everything on the pinned branch is on the finally accepted branch. |
| `Gateway.ChangedMeansNewEpoch` | internal/gateway/reorg.go:49-54 | Between usable snapshots of one run, the fence reports a changed reorg exactly when an epoch was opened. |
| `Gateway.FenceEVMResponses` | internal/gateway/reorg.go:19-70 | In place. An item with a target keeps result and target if and only if the store was read in time, both heads are there, neither is pending, epoch and generation did not move, the new head is higher or the same, and it is fresh; otherwise it loses both, with the first of these conditions that failed as its reason. Nothing else changes. |
| `Gateway.FenceVerdict` | internal/gateway/reorg.go:37-59 | The fence passes on exactly these conditions, and reports exactly the first one that failed. |
| `Gateway.Admit` | internal/gateway/router.go:227-247 | The target is what the selector names, on the pinned branch unless named by hash; every rejection has its stated reason. `latest` is admitted if and only if the pinned head is there, not pending and fresh, a hash if and only if it is one and the pinned head is there and not pending. |
| `Gateway.ServeBatch` | internal/gateway/router.go:129-163 | End to end: a static item is answered, an item without a target is rejected, and an item with one is answered if and only if the store was read in time at the end and shows, against the pinned head, no fence, no other epoch, no regression and a fresh head, with the first failed condition as the reason otherwise; an answered `latest` or numeric item is on the finally accepted branch with no fence up since the pin. |
| `Receipts.Service.ContainsBlock` | internal/services/receipts/receipts.go:48-77 | True if and only if the block is in the window and on the accepted branch, within d - 1 fetches, exactly that many without a cache; an unavailable ancestor is the parent of a walked height, asked for in vain. |
| `Receipts.SelectAndContain` | internal/services/receipts/receipts.go:48-77 | Whatever numeric selection returns is contained, or a header of the walk down to it was asked for in vain. |
| `Receipts.Service.GetParent` | internal/services/receipts/receipts.go:79-108 | The parent's header, from the cache if it is there, else from one fetch, or that fetch was in vain; the cache gains exactly the fetched header and keeps only headers under their own hashes. |
| `ReceiptCache.ProofServesTheEpoch` | internal/gateway/cache.go:54-80 | A proof against any usable head of an epoch, older or newer than the pin, serves every pin of that epoch that is high enough. |
| `ReceiptCache.Service.GetResponse` | internal/gateway/cache.go:25-97 | A receipt served from the cache is on the pinned head's branch; a hit returns the retained receipt if and only if its block is at or below the pinned height, null otherwise, and alters nothing; the cache is bypassed if and only if it is off or the pinned head is missing, pending or not fresh; and a loaded receipt on the pinned branch is retained unless a header of its proof was missing. |
| `ReceiptCache.Service.Serve` | internal/gateway/cache.go:69-79 | The retained receipt if and only if its block is at or below the pinned height, else null; what is served is on the pinned branch. |
| `ReceiptCache.Service.Load` | internal/gateway/cache.go:28-53 | The flight behind a miss: a late hit is the retained receipt if and only if its block is at or below the pinned height, and is on the pinned branch; a load returns the routed answer and retains it if it is on the pinned branch, unless a header of its proof was missing. |
| `ReceiptCache.RouteReceipt` | internal/gateway/cache.go:28-35 | What the router returns for a receipt is one of the transaction at or below the pinned head, or null exactly on the quorum, or an error, as `Route` ends over the same rounds. |
| `ReceiptCache.ServeReceipt` | internal/gateway/reorg.go:37-59 | A receipt served from the cache past the final fence is on the finally accepted branch, with no fence up since the snapshot; the request is turned away at once if and only if the pinned head is missing or pending; any other error, and any answer but a hit, is what routing over the given rounds came to. |
| `ReceiptCache.Service.Retain` | internal/gateway/cache.go:34-52 | Retained means proved; on the pinned branch and not retained means a header of the proof was asked for in vain or the receipt names no valid hash. |
| `Flights.AnswersAreTransparent` | internal/services/requestcache/cache.go:78-126 | Over any interleaving of hits, shared and late flights, failures and evictions, every answer is one an uncached load for that very caller could have returned. |
| `Flights.NoFlightAcrossPins` | internal/gateway/cache.go:68-75 | Where flight keys carry the pin, nobody waits for a load pinned elsewhere. |
| `ReceiptFlights.ReceiptFlightsAreSound` | internal/gateway/cache.go:61-80 | Receipt loads meet the conditions for that, over every run of the protocol. |
| `ReceiptFlights.RetainedReceiptMayLoad` | internal/gateway/cache.go:34-52 | What the program's load returns, verified exactly when retained, is what a load may return there. |
| `ReceiptFlights.CeilingIsExact` | internal/gateway/cache.go:69-79 | A caller sees a receipt of the transaction unchanged if and only if its block is at or below the pin. |
| `ReceiptFlights.AnsweredReceiptsAreSafe` | internal/gateway/cache.go:61-80 | So any proved receipt handed to a caller is on the caller's pinned branch and none exceeds its height. |
| `Router.RunRound` | internal/gateway/router.go:281-406 | One pass: nobody asked twice, everybody attempted was asked or declined for its boundaries, the answer returned is the first usable one in the order of the candidates, everybody before it having been attempted or skipped, and a pass without one leaves nobody to ask and nothing usable behind. |
| `Router.Attempt` | internal/gateway/router.go:315-405 | One candidate: declined, or asked once, with its answer returned if it is usable and counted otherwise. |
| `Router.Examine` | internal/gateway/router.go:343-401 | An answer is returned if and only if it matches the target, its boundaries held and, for a receipt, it is one of the transaction at or below the pinned head; it counts as absence if and only if it matches and is null or such a receipt above it. |
| `Router.Route` | internal/gateway/router.go:279-435 | All rounds: one data call per provider at most, and whoever was attempted was asked or declined; null if and only if some provider found nothing visible and everybody who knows the method agrees; a usable answer ends the request, the first of its round in order; it is retried until the first round that answers or gives up, or to the deadline, giving up exactly when a receipt request attempted anybody, or another one attempted nobody new with no more candidates than attempted. |
| `Router.SettledMeans` | internal/gateway/router.go:279-435 | What that says of the providers: nobody without the method, its pinned form or the target was asked; the answer handed back matches and holds what was asked for; at the end everybody suited was attempted in vain; null exactly if some answer was null or above the pin and all others were that or unknown methods. |
| `Router.GetEVMReceiptBlock` | internal/gateway/router.go:437-454 | A block if and only if the receipt is of the requested transaction with a valid block hash and canonical number. |
| `RequestCache.Service.Get` | internal/services/requestcache/cache.go:128-143 | Map and list implement a recency-ordered map: a hit, if and only if there is an unexpired entry, moves it to the front, an expired entry leaves. |
| `RequestCache.Service.Put` | internal/services/requestcache/cache.go:145-163 | So does storing, and the structural and capacity invariant holds after it: a marked, empty, null, oversized or malformed response changes nothing, any other becomes the most recent entry. |
| `RequestCache.AdmittedExactly` | internal/services/requestcache/cache.go:145-150 | Retained is exactly what is not marked, not empty, not null up to white space, within the size limit and valid JSON. |
| `RequestCache.FindExactly` | internal/services/requestcache/cache.go:128-143 | A read moves the unexpired entry to the front or takes the expired one out; all others keep their order. |
| `RequestCache.StoreExactly` | internal/services/requestcache/cache.go:151-162 | Behind the stored entry stands the longest start of the other entries, in order, that leaves room for it. |
| `RequestCache.Service.Remove` | internal/services/requestcache/cache.go:165-171 | Map, list and byte count lose the same entry. |
| `RequestCache.Service.MakeRoom` | internal/services/requestcache/cache.go:155-158 | The eviction loop ends, never asks an empty list for its back, and evicts what the specification evicts. |
| `RequestCache.EvictFewest` | internal/services/requestcache/cache.go:155-158 | Eviction makes room by dropping the fewest least recently used entries. |
| `RequestCache.FindKeepsEntries` | internal/services/requestcache/cache.go:128-143 | A hit keeps all entries, expiry included, and is fresh; a miss drops at most the expired entry. |
| `RequestCache.StoreKeepsLimits` | internal/services/requestcache/cache.go:145-163 | Limits hold after storing; an admitted response is the only entry under its key; null, errors, skipped and oversized ones change nothing. |
| `RequestCache.EntriesAreLastStored` | internal/services/requestcache/cache.go:128-163 | After any history of operations every entry is what was last stored under its key, with that expiry, and both limits hold. |
| `RequestCache.HitReturnsLastStored` | internal/services/requestcache/cache.go:128-143 | So a hit returns the response last stored under the key, before its expiry, and it is valid JSON other than null. |
| `RequestCache.BijectiveRemove` | internal/services/requestcache/cache.go:165-171 | Removing an entry keeps map and list in bijection. |
| `Stream.PageAfterIsExact` | internal/head/types.go:256-294 | From an event's ID, a memory page is exactly what follows it. |
| `Stream.ReachIsExact` | internal/head/types.go:275-279 | How far n pages reach: to the end once their number times their size covers what was left, or with one unlimited page. |
| `Stream.AwaitEvents` | internal/head/types.go:256-294 | The waiting loop: a page or gap that is there at once is returned at once, otherwise what one pass finds after a wake-up. |
| `Stream.Subscribe` | internal/head/types.go:245-253 | A session begins right behind the newest event. |
| `Stream.Poll` | internal/head/types.go:256-294 | One poll delivers exactly the next page of what is then behind the cursor. |
| `Stream.Follow` | internal/head/types.go:245-294 | From any state of a consumer of the memory store, with the whole protocol going on: n polls deliver, once and in order, everything logged before them as far as n pages reach, the last one up to the newest entry or a full page, and never a gap. |
| `Stream.RedisStream.ReadEvents` | internal/head/redis.go:274-306 | With trimming between the two commands: the entries right behind the cursor, or the gap; from "0-0", the oldest retained ones. |
| `Stream.RedisStream.Consume` | internal/head/redis.go:258-306 | From any state: one gap-free stretch of the stream, to which n polls add everything logged before them as far as n pages reach, or the consumer is told of the gap; from "0-0", exactly the entries trimmed before the first non-empty read are missed. |
| `Stream.RedisStream.Poll` | internal/head/redis.go:274-306 | One poll delivers exactly the next page of what is behind the cursor when it begins, or reports the gap. |
| `Stream.TrimmedStartMissesAnEntry` | internal/head/redis.go:279-287 | An input for a missed entry: a stream that keeps one entry, two published between the subscription and the first read. |
| `Stream.RedisStream.StreamStart` | internal/head/redis.go:259-271 | The newest entry, or "0-0" if and only if nothing was ever added. |
| `WebSocket.ExpandPath` | internal/gateway/websocket.go:261-304 | The shortest chain of blocks that ends in the event's head and starts at a known one, rising by exactly one per link, every block filled in being real; every refusal is explained by the real blocks walked and by the query that was in vain. |
| `WebSocket.ReachableIsFilled` | internal/gateway/websocket.go:281-303 | A gap is never refused if, inside the depth, the event's branch has a remembered block and every header on the way was served. |
| `WebSocket.ReverseHeads` | internal/gateway/websocket.go:317-321 | In-place reversal. |
| `WebSocket.DeliveriesAreExact` | internal/gateway/websocket.go:231-245 | Notifications are exactly the processed hashes, none twice. |
| `WebSocket.PathStartIsRooted` | internal/gateway/websocket.go:266-299 | What a path may start with hangs on a known block, or is a sibling of the first. |
| `WebSocket.RealHeadsFollowTree` | internal/gateway/websocket.go:261-304 | Processed heads that are real follow the parent links of the block tree. |
| `WebSocket.Pump.ProcessHead` | internal/gateway/websocket.go:231-254 | One head: processed and, if new, notified; refused only by an exhausted window, with nothing notified. |
| `WebSocket.Pump.Remember` | internal/gateway/websocket.go:246-253 | The new hash joins the order if it is not in the history, the oldest one leaves exactly when that exceeds both 16 and twice the depth, and the history changes by these two entries only; so it lists the newest hashes that entered it, as many as the limit allows, and nothing else. |
| `WebSocket.RecentIsRemembered` | internal/gateway/websocket.go:246-253 | None of the last blocks notified, as many as the limit, is forgotten, but a checkpoint that was notified itself; nor is the checkpoint while it and they fit. |
| `WebSocket.Pump.ProcessEvent` | internal/gateway/websocket.go:219-256 | One event: its gap is filled and its block processed, with real blocks if the event's is, or the session closes: the window was full, or the real blocks walked show why the gap to the last known block cannot be filled; then no remembered block was inside the depth on the event's branch, unless a header on the way was asked for in vain. |
| `WebSocket.Pump.Run` | internal/gateway/websocket.go:199-259 | A whole session: processed heads stay connected by parent links of one step, and real if the events' heads are, notifications are exact, the history holds the newest blocks, every event of the completed polls has been processed, and the session closes only on the next poll, which failed, met a full window, or has an event whose gap cannot be filled, with no remembered block in reach. |
| `NewHeads.Open` | internal/gateway/websocket.go:199-209 | A session starts with the newest event as its checkpoint. |
| `NewHeads.Turn` | internal/gateway/websocket.go:210-256 | One iteration on the shared store: exactly the next page is processed, or the session closes for a cause of that page, or if and only if the accepted head of that moment is pending or, with an age limit, missing or too old. |
| `NewHeads.Serve` | internal/gateway/websocket.go:199-259 | While a session stays open, n polls process every head accepted before them, as far as n pages reach, whatever the coordinators do; every processed block is real and they follow the tree's parent links; it closes only for a stated cause. |
| `EvmUtils.QuantityRoundTrip` | internal/utils/evm.go:13-30 | Every unsigned 64-bit number survives formatting and parsing. |
| `EvmUtils.FormatParsedQuantity` | internal/utils/evm.go:13-30 | Formatting an accepted string returns its lower-cased form. |
| `EvmUtils.AcceptedQuantities` | internal/utils/evm.go:13-25 | The accepted strings are exactly the canonical renderings of 64-bit numbers, up to digit case. |
| `EvmUtils.ParseLast` | internal/utils/evm.go:20 | Parsing is positional: one more digit multiplies by sixteen and adds its value. |
| `EvmUtils.DigitsAreHexadecimal` | internal/utils/evm.go:20-29 | The digits are the sixteen hexadecimal ones of either case, with their values, written in lower case. |
| `EvmUtils.HashesAreHexadecimal` | internal/utils/evm.go:33-39 | A hash is 0x and sixty-four hexadecimal digits. |

## Left out

- More than one chain: all state of the program is per chain, and so is the model.
- Hash case: hashes are in lower case throughout, so mixed-case duplicates in the store or in the history are not modelled.
- Counter width: epochs, generations and tokens are unbounded; 64-bit wrap-around and the 53-bit number precision of the Lua scripts are not modelled.
- Head fields: chain name and raw header carry no protocol state and are dropped; times are clock readings with 0 as the zero time.
- `MemoryStore.Set`: the unfenced write for fixtures would break every invariant of the protocol.
- Redis stream IDs: the model numbers entries in order instead of by server time.
- HeadStore.MemoryStore.ReadEvents: one pass of the loop over the log; `Stream.AwaitEvents` is the loop, in which a bound on the wake-ups stands for the timeout. The blocking of the Redis read is not modelled: it reads once.
- The opening Snapshot failing: store errors other than the fenced refusals, and JSON decoding of store contents, end a call early without a state change and are not modelled.
- Coordinator.Coordinator.ValidateEVMTransition: its three loops are three methods, its later parts are `WalkBranches` and `ResolveFork`, and a missing divergence callback, which `consider` never passes, is not modelled.
- Coordinator.Coordinator.RunLeader: observations come as a queue; polling, subscriptions, the choice of the freshest observation and the lease-renewal timer feed it in the program, and renewals occur among the interleaved steps.
- Cluster.SharedStore.Interfere: the other participants' steps are given by its contract, which every run satisfies, not carried out by its body.
- Gateway.ServeBatch: loading is a given payload per item (`ReceiptCache.ServeReceipt` composes the receipt cache with the fence), items are admitted in order instead of concurrently, and the first snapshot is available; JSON-RPC envelopes, notifications and headers are library work.
- Gateway.Admit: explicit hashes are not tied to the accepted branch, as in the program; log ranges and their boundary blocks are not modelled.
- Gateway.FencePassIsSafe: says nothing about explicit-hash targets, which may be on any branch.
- ReceiptCache.Service.GetResponse: covers receipts; an uncached receipt is only height-capped, as the repository documents. Hash-pinned responses are covered by `Flights` alone.
- ReceiptCache.Service, Receipts.Service: their cache is a map of which any part may be evicted; the LRU behind it is modelled in `RequestCache`.
- RedisStore.OperationAgrees: offered heads carry a hash if and only if they are EVM heads, and the stored head of a commitment is of the same family, as coordinators of one chain offer them; other heads are not compared.
- RedisRuns.ScriptRunsAreMemoryRuns: relates store operations; the coordinators' sessions, whose heads carry the store's own generation numbers, are not carried over step by step.
- Flights: coalescing is an abstract flight table; deadlines of single callers and the load timeout appear as failures.
- RequestCache.Service.Put: lengths are counted in characters, and JSON validity is a parameter.
- Router.Route: the EVM side; Solana slot checks, response verification and boundary probes appear as per-provider outcomes, and provider ranking as an arbitrary order.
- WebSocket.Pump.Run: subscription bookkeeping, write queues and slow clients are not modelled; the page and the fitness of the accepted head are inputs of each iteration, which `NewHeads.Serve` takes from the shared memory store.
- Provider availability caching, circuit breaker, scoring, telemetry, configuration loading and process wiring: no state of the protocol.
