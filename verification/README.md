# Credits, queues and rings of libdlb and AccDirect

A Dafny model of the two parts of the repository that hand out DLB credits and move queue elements (QEs) exactly once.

**The libdlb datapath** (`src/dlb_8.9.0/libdlb`). A port caches credits per type, refills them from a shared pool by
compare-and-swap in batches of at most 32, and gives them back by fetch-and-add under five rules. A send packs events
four to a cache line and stops when credits run out. A receive reads a ring whose emptiness test is one generation bit,
and adds to two debts: CQ tokens and event releases owed to the device.

**The AccDirect offload** (`src/accdirect`). Clients RDMA-write metadata into a ring; workers on the SmartNIC, or one
thread on the CPU, turn the entries into QEs. A credit manager on the SmartNIC takes credits from pool 0 with a remote
64-bit compare-and-swap and deals them to the workers through shared counters without locks. The only flow control of
the ring is one READY message per lap.

## Modules

| file | what it models |
|---|---|
| `DlbTypes.dfy` | events, QEs, commands, 16- and 32-bit wrap-around |
| `CreditOps.dfy` | a port's atomic credit operations and their logs, the five release rules, how fast an idle port drains |
| `CreditCache.dfy` | a port's credit cache as an object, with other agents moving pool credits between any two accesses |
| `ConsumerQueue.dfy` | the CQ ring as an object, proved to be a FIFO |
| `QueueDepth.dfy` | queue-depth counters |
| `Port.dfy` | the port as an object: send, forward, release, pop, advanced send, receive, disable, the worker loop |
| `ReservedTokens.dfy` | the reserved-token interrupt scheme of v1 devices |
| `RemoteAtomics.dfy` | the 64-bit compare-and-swap over a word whose lower half is a pool's credit count |
| `CreditSystem.dfy` | all agents together as a state machine over their atomic steps, and which steps conserve credits |
| `CreditRuns.dfy` | whole runs: exactly when credits are conserved, and what a port sees of the others |
| `CreditRounds.dfy` | what the manager and a worker get done when only they move |
| `PoolReuse.dfy` | the inputs on which the code makes or loses credits |
| `Domain.dfy` | ports and runs together: what the ports' contracts say of the pools |
| `MetadataRing.dfy` | client, network and SmartNIC worker as a state machine |
| `RingProgress.dfy` | what client and worker of a ring get done, and that the ring never deadlocks |
| `Forwarder.dfy` | the CPU thread: ring scan composed with `Ports.Port.DlbSend` in its retry loop |
| `WriteBatch.dfy` | batched RDMA writes as linked work requests |
| `Chains.dfy` | states reached by any number of steps of one kind |
| `Handles.dfy` | handle lists in memory, and the attach, detach and reset calls |

## How the parts fit

- `CreditCaches.CreditCache` runs one port against an environment: before every access to a pool word, `Interfere`
  moves credits of the pools to and from everybody else in any way that neither makes nor loses one. Everything proved
  of a port's calls holds whatever that environment does. Where a count of sent events is exact, `quiet` says that at
  present the environment leaves the pools alone.
- Every access is also entered in the port's log. `CreditSystem` lets any number of ports take the same operations in
  any order, together with the device, pool creation and the SmartNIC. `CreditSystem.Harmless` is what a step needs so
  as to conserve credits, and `CreditRuns.ConservedExactlyWhenHarmless` proves of every run that credits add up at every
  moment if and only if every step is harmless. Port, device and worker steps always are.
- What a port assumes of the others is what they do: `CreditRuns.OthersInterfere` for the other agents,
  `CreditRuns.DeviceAnnounces` for deliveries into its CQ, `CreditRuns.OwnOperation` for its own operations, and
  `CreditRuns.PortsFollowTheirLogs` for its cache as a whole.
- `Domain.dfy` takes ports whose logs are those of a run. Their bounded caches bound what the pools can lack
  (`Domains.PoolsKeepTheRest`). `Ports.Port.ReceiveUntilEvent` and `Forwarders.Forwarder.SendTaken`, the loops in which
  ports idle, leave a drained port, and when all others are, `Domains.UncontendedSend` sends min(n, total).
- The invariants say what never happens. What does happen is said apart from them: `CreditRounds` for the manager and a
  worker that move alone, `RingProgress` for worker and client of a ring, and counters of calls (`receives`, `waits`,
  `scans`, `sends`, `passes`) for loops that may end only with success or with their patience used up.
- `Forwarders.Forwarder` uses the port's contracts only. `MetadataRing` proves of the client what `Arrive` lets it do.

## What the code needs from its callers and surroundings

- A send may use at most 2^16 credits of a type, unless nobody else uses the pools meanwhile: `credits[].num` has 16
  bits and used credits leave it only when the call ends. `CreditOps.CallLengthMatters`: up to there the check in front
  of each event is right whatever refills bring, and from there on it is not. A call has fewer than 2^31 events, as its
  loop counters are `int`, and the credits of a domain are fewer than 2^16.
- `dlb_release` lays out `num` events on the stack before it caps `num` by the releases owed
  (`src/dlb_8.9.0/libdlb/dlb.c:3067`), so the calling thread's stack must have room for them; `stackRoom` says for how many.
- `dlb_forward` on a load-balanced port does not cap by the releases owed; `Forward` requires that they are owed.
- The totals in `dlb_adv_send` are kept in 16 bits. `Ports.WrappedTotals`: its check is right if and only if they have
  not wrapped or are too large even so, and that is what `DlbAdvSend` requires. `Ports.ATotalThatWraps`: one BAT_T
  that returns 2^16 tokens passes the check whatever is owed. On v2.5 that call takes the v2 path,
  where a directed event waits for a credit of a type that has none.
- Commands 4 to 7 are reserved, and what the device does with them is an assumption: they return no tokens and complete
  nothing, as only the commands named for it do (the library itself arms interrupts with command 5). Under it
  `DlbTypes.DebtsAgree` finds that bit 0, which is all the library looks at, is right for every command but 5 and 7, so
  those two are excluded. Commands above 13 are outside the table of credit requirements.
- Creating a pool is one step. The domain's lock keeps other processes out, but not a remote swap between the writes of
  `avail_credits` and of `configured` (`src/dlb_8.9.0/libdlb/dlb.c:1157-1163`); that interleaving is not in the model.
- The device delivers each event once, with a token, a history list entry and its credit available for it.
- `meta_size` is a multiple of 4 and of at least 4. The three slots behind a ring, which a scan from the last slot looks
  at, start out not valid; that nothing ever fills them is proved.
- The credit manager's first grabs do not check the pool. Such a grab is harmless if the count covers the batch, or the
  swap fails; `CreditSystem.FirstGrabConserves` proves that it conserves credits in just those cases.
  `PoolReuse.AGrabFromNothing`: without a pool, two steps make 2^32 credits.
- The thread that forwards on the CPU uses a started, enabled port and an existing queue, so that `dlb_send` never
  returns -1. That it then never does is proved.
- Memory is sequentially consistent, atomics of CPU and RDMA are linearizable, writes of one connection arrive in order,
  and an entry of the ring becomes visible whole.

## Findings

- **Pool 0 can lose 128 credits.** The manager's later swaps write 128 over all 64 bits, and the upper half holds the
  pool's `configured` flag. A pool created afterwards reuses slot 0 and overwrites what is left in it.
  `CreditSystem.CreateConserves`: creating a pool conserves credits if and only if the slot it picks is empty;
  `PoolReuse.ReusedPoolLosesCredits`: after such a swap it loses 128; `PoolReuse.ARunThatLoses`: eight steps from a fresh
  domain get there.
- **Pool 0 can make credits.** If slot 0 is empty when it is reused, and the manager has read it before and swaps it
  after, the flag has changed under the manager, its swap fails, and the comparison of the lower halves may not notice.
  `PoolReuse.ReuseUnderTheManager`: credits are made if and only if the new pool is given just the count that was read;
  `CreditSystem.GrabConserves`: in general a swap conserves credits if and only if the lower halves differ, the count
  read is 128, or the upper half is as it was read; `PoolReuse.ARunThatMints`: twenty-five steps make 32 credits.
- **Arming with a deficit unbalances the reserved tokens.** The blocking path polls instead of arming then, but
  `dlb_enable_cq_epoll` and a receive with an event descriptor arm in any case (`src/dlb_8.9.0/libdlb/dlb.c:3355`, `:3446`).
  `ReservedTokens.ArmingNeedsNoDeficit`: the balance survives if and only if there is no deficit.
- **`is_bat_t` is the command itself** (`src/dlb_8.9.0/libdlb/dlb.c:3029`), so it is true of REL as well and `dlb_release`
  works on a disabled port, where the check in the send function (`:2657`) would refuse. The model follows the code.
- **A long call sends without credits.** In front of event 65537 of a type, with 65536 credits used and none left, the
  counter shows 0, which is not 65536, so the event goes out, and all later ones do (`src/dlb_8.9.0/libdlb/dlb.c:2820-2830`).
  `CreditOps.ACallThatOverdraws` is such a call, `CreditOps.LongCallOverdraws` says it of all further events.
- **A worker takes a failed wait for a count.** Only EACCES ends its loop; any other -1 goes to `dlb_release` as a
  `uint32_t`, which lays out 2^32 - 1 events of 16 bytes on the stack
  (`src/accdirect/offload-rdma-dlb/rdma_ldb_dlb.c:558-584`, `src/dlb_8.9.0/libdlb/dlb.c:3067`). `Ports.Port.WorkerPass` says when a pass gets there, and nothing of what follows.
- **A failed batch post blocks the batch.** The batch stays full, so that each later payload write that finds no room is
  dropped without the client noticing: `WriteBatches.Connection.SendPayloads` counts them.

## Model

| member | source | states |
|---|---|---|
| CreditRuns.ConservedExactlyWhenHarmless | src/dlb_8.9.0/libdlb/dlb.c:1138-1288 | in every interleaving of pool creations (each one atomic step), port operations, deliveries, manager and worker steps, remainder + pools + caches + SmartNIC + in flight is the domain's total for each type at every moment if and only if every step was harmless |
| CreditRuns.CreditsAreConserved | src/dlb_8.9.0/libdlb/dlb.c:2076-2119 | as long as the steps are harmless, that sum is the total and all invariants below hold |
| CreditSystem.StepConserves | src/dlb_8.9.0/libdlb/dlb.c:1138-1288 | in every state that keeps the invariants, a step conserves the credits of both types if and only if it is harmless; the failing families are pool creation and the manager's swaps |
| CreditSystem.FirstGrabConserves | src/accdirect/offload-rdma-dlb/snic.c:195-200 | a first grab conserves credits if and only if the lower half has changed, or the upper half has not and the count covers the batch (or the batch is 0) |
| CreditSystem.GrabConserves | src/accdirect/offload-rdma-dlb/snic.c:204-214 | a later grab conserves credits if and only if the lower half has changed, the upper half has not, or the count read is 128 |
| CreditSystem.CreateConserves | src/dlb_8.9.0/libdlb/dlb.c:1149-1163 | creating a pool changes the sum of its type if and only if the free slot it picks still holds credits; other types never change |
| CreditSystem.CreateKeeps | src/dlb_8.9.0/libdlb/dlb.c:1138-1168 | creating a pool in an empty slot keeps every invariant, among them the link between pool 0's flag and the upper half of its word |
| PoolReuse.ReusedPoolLosesCredits | src/accdirect/offload-rdma-dlb/snic.c:214 | from every state where the manager's swap to 128 takes effect, the next pool created loses exactly 128 credits |
| PoolReuse.ReuseUnderTheManager | src/accdirect/offload-rdma-dlb/snic.c:213-214 | pool 0 created anew between the manager's read and its swap: the swap makes credits, all it read but 128, if and only if the new pool is given just that count |
| PoolReuse.ARunThatLoses | src/dlb_8.9.0/libdlb/dlb.c:1149-1163 | eight steps from a fresh domain after which 128 of 9000 credits are gone |
| PoolReuse.ARunThatMints | src/dlb_8.9.0/libdlb/dlb.c:1149-1163 | twenty-five steps from a fresh domain after which there are 9032 credits of 9000 |
| PoolReuse.AGrabFromNothing | src/accdirect/offload-rdma-dlb/snic.c:195-200 | two steps from a fresh domain without pools after which there are 9000 + 2^32 credits |
| CreditSystem.CreditsInReach | src/dlb_8.9.0/libdlb/dlb.c:2607-2637 | what a pool, a cache, a CQ and the device hold of a type never exceeds the total, which stays below 2^16 |
| CreditSystem.PortMoves | src/dlb_8.9.0/libdlb/dlb.c:2076-2119 | each pool access of a port, lost compare-and-swaps and stale reads included, moves credits between its pool, its cache, its CQ and the device just as named; no 16- or 32-bit counter wraps |
| CreditSystem.PortKeeps | src/dlb_8.9.0/libdlb/dlb.c:2607-2623 | so it keeps every invariant of the whole system |
| CreditSystem.WorkerKeeps | src/accdirect/offload-rdma-dlb/snic.c:83-167 | each half step of a worker (credit test, post, read and write of its subtraction) keeps every invariant |
| CreditSystem.WorkerKeepsHandoff | src/accdirect/offload-rdma-dlb/snic.c:83-87 | past its test of at least 4 a worker alone updates its counter, and posts at most the 4 it has |
| CreditSystem.ManagerDealKeeps | src/accdirect/offload-rdma-dlb/snic.c:220-223 | a grant to a worker with fewer than 4 is covered by the global credits left for the workers still to be visited |
| CreditSystem.ManagerStoreKeeps | src/accdirect/offload-rdma-dlb/snic.c:224 | the manager's write half of the addition, and its first stores, meet an idle worker and lose nothing |
| CreditSystem.ManagerSwapKeeps | src/accdirect/offload-rdma-dlb/snic.c:195-214 | harmless remote swaps, whether they take effect or not, keep every invariant |
| CreditSystem.SharesFit | src/accdirect/offload-rdma-dlb/snic.c:220 | the truncated share times the number of workers never exceeds the global credits |
| CreditRounds.RoundDealsToAll | src/accdirect/offload-rdma-dlb/snic.c:221-227 | from any point of a round on, the manager's steps alone lead to the next query, with the share given to each worker still to be visited that has fewer than 4 credits, to nobody else, and nothing else changed |
| CreditRounds.RoundStarts | src/accdirect/offload-rdma-dlb/snic.c:213-220 | the share is what the SmartNIC has after the grab, divided by the number of workers |
| CreditRounds.RoundServesWorkers | src/accdirect/offload-rdma-dlb/snic.c:204-227 | a whole round: with at least 128 credits in pool 0 the manager leaves 128 there and gives each worker with fewer than 4 an equal part of all it has |
| CreditRounds.PoorPoolIsLeftAlone | src/accdirect/offload-rdma-dlb/snic.c:205-210 | with fewer than 128 it only asks again |
| CreditRounds.FirstGrabsServeAll | src/accdirect/offload-rdma-dlb/snic.c:192-201 | while the pool covers them the first grabs give each worker 8192 / n credits, and take no more |
| CreditRounds.WorkerTurn | src/accdirect/offload-rdma-dlb/snic.c:83-167 | a worker with at least 4 credits posts k QEs, in four steps, and has k fewer, with everything else as before |
| CreditRounds.PoorWorkerWaits | src/accdirect/offload-rdma-dlb/snic.c:83-87 | one with fewer does nothing |
| CreditRounds.SnicIsNeverStuck | src/accdirect/offload-rdma-dlb/snic.c:83-167 | manager and workers can always take a step, and a worker past its test goes on with each |
| CreditRounds.ACreditGoesRound | src/dlb_8.9.0/libdlb/dlb.c:2607-2637 | a cached credit can be spent, delivered to any port and collected there, after which only the two caches differ, by that credit |
| CreditRuns.NoUpdateIsLost | src/accdirect/offload-rdma-dlb/snic.c:220-227 | manager and worker never both have an update of one counter under way; each write equals the counter's present value plus the grant, or minus the QEs sent; grants come out of the global credits without wrapping |
| CreditSystem.CountersFit | src/accdirect/offload-rdma-dlb/snic.c:43-46 | local, global and pool counters stay far below 2^32 |
| CreditRuns.NoEnqueueLacksACredit | src/accdirect/offload-rdma-dlb/snic.c:154-167 | a worker about to post up to 4 QEs holds 4 credits that are neither in flight nor anywhere else |
| CreditSystem.FirstSwapIsExact | src/accdirect/offload-rdma-dlb/snic.c:198-200 | a harmless first grab reports exactly what pool 0 lost |
| CreditSystem.SwapIsExact | src/accdirect/offload-rdma-dlb/snic.c:204-214 | a harmless later grab reports exactly what pool 0 lost |
| CreditRuns.PoolFloor | src/dlb_8.9.0/libdlb/dlb.c:2595-2605 | the pools hold all granted credits less those in flight, on the SmartNIC, and in the caches within any bounds |
| Domains.PoolsKeepTheRest | src/dlb_8.9.0/libdlb/dlb.c:2076-2119 | at any moment of a run at which the ports are between calls, the pools hold at least what was granted less what is in flight, on the SmartNIC, and 64 plus its owed tokens for each port |
| Domains.PoolsKeepAllBut64 | src/dlb_8.9.0/libdlb/dlb.c:2595-2605 | with every received token popped, 64 for each port |
| CreditRuns.EverythingInReach | src/dlb_8.9.0/libdlb/dlb.c:34-58 | with one pool, nothing in flight and all other caches empty, cache plus pool of a port is the domain's total |
| Domains.IdlePortsLeaveEverything | src/dlb_8.9.0/libdlb/dlb.c:34-58 | when the other ports of a run are drained, as the loops in which they idle leave them, one port has the domain's total in reach |
| Domains.UncontendedSend | src/dlb_8.9.0/libdlb/dlb.c:3054-3060 | dlb_send() of that port then sends exactly min(num, total), if for the length of this call the others leave the pools alone, whatever they did before |
| CreditRuns.PortsFollowTheirLogs | src/dlb_8.9.0/libdlb/dlb.c:2076-2119 | in every harmless run each port's cache is what replaying its own operations gives, all of them legal |
| CreditRuns.OthersInterfere | src/dlb_8.9.0/libdlb/dlb.c:2607-2637 | a step of any other agent leaves a port's cache, its last read and the credits in its CQ alone and moves credits between its pool and the rest of the system, whose sum it keeps |
| CreditRuns.DeviceAnnounces | src/dlb_8.9.0/libdlb/dlb.c:2625-2637 | a delivery takes one credit from the rest of the system into the port's CQ |
| CreditRuns.OwnOperation | src/dlb_8.9.0/libdlb/dlb.c:2607-2637 | a port's own operation changes its pool, its cache, its CQ and the rest of the system as the methods of `CreditCache` do |
| CreditRuns.ViewAddsUp | src/dlb_8.9.0/libdlb/dlb.c:2607-2637 | the port's account (pool, rest of the system, cache, CQ) adds up to the total in every reachable state |
| CreditOps.IdleCallsProgress | src/dlb_8.9.0/libdlb/dlb.c:2109-2118 | each idle call drains the cache or moves the rule's counter on, whatever cache and counters it starts from |
| CreditOps.IdleCallsDrain | src/dlb_8.9.0/libdlb/dlb.c:34-58 | 65 empty receives or 101 fruitless sends in a row leave no cached credit |
| CreditOps.DrainBoundIsTight | src/dlb_8.9.0/libdlb/dlb.c:34-58 | and no smaller number does |
| CreditOps.SendKeepsUpTo64 | src/dlb_8.9.0/libdlb/dlb.c:2595-2605 | after a send that enqueued something more than 64 cached credits are back to 32, fewer are as they were |
| CreditOps.ReceivesKeep32 | src/dlb_8.9.0/libdlb/dlb.c:52-58 | more than 32 cached credits stay through 64 receives in a row, and the next takes them to 32 |
| CreditOps.IdleReceivesKeep | src/dlb_8.9.0/libdlb/dlb.c:52-58 | up to 32 idle credits stay through 64 empty receives and are gone after the 65th |
| CreditOps.FruitlessSendsKeep | src/dlb_8.9.0/libdlb/dlb.c:52-58 | up to 64 stay through 100 sends of nothing and are gone after the 101st |
| CreditOps.InterruptionsReset | src/dlb_8.9.0/libdlb/dlb.c:2076-2119 | only calls in a row count: one with events, or with few credits cached, starts the count again |
| CreditOps.LowPoolsTakeAll | src/dlb_8.9.0/libdlb/dlb.c:2076-2119 | with low pools all cached credits go back at once, and otherwise none |
| CreditOps.IdleRuleProgresses | src/dlb_8.9.0/libdlb/dlb.c:2109-2118 | whatever other rules a call applied before, the idle rule at its end drains the cache or moves its counter on |
| CreditOps.ProgressDrains | src/dlb_8.9.0/libdlb/dlb.c:34-58 | such progress, call after call, drains the cache after more calls than the threshold |
| CreditOps.CallLengthMatters | src/dlb_8.9.0/libdlb/dlb.c:2819-2838 | a call of num events of one type sends only what is paid for, whatever is cached at its start and whatever its refills bring, if and only if num is at most 2^16 |
| CreditOps.ShortCallPays | src/dlb_8.9.0/libdlb/dlb.c:2819-2892 | up to 2^16 events it stops early only when no credit is left, and subtracting the used credits from the wrapped counter leaves the unused ones |
| CreditOps.LongCallOverdraws | src/dlb_8.9.0/libdlb/dlb.c:2819-2830 | with 2^16 credits held and used, or more used, every further event is sent without a refill and without a credit |
| CreditOps.ACallThatOverdraws | src/dlb_8.9.0/libdlb/dlb.c:2819-2838 | 65537 events on an empty cache with refills of 32: 65537 go out on 65536 credits |
| CreditOps.TraceIsReplay | src/dlb_8.9.0/libdlb/dlb.c:2076-2119 | the states a port goes through are those that replaying its log gives |
| CreditCaches.CreditCache.ReleaseOne | src/dlb_8.9.0/libdlb/dlb.c:2088-2113 | for one type, against any environment: what exceeds the rule goes back to the pool, nothing is lost, no counter wraps |
| CreditCaches.CreditCache.CheckAndRelease | src/dlb_8.9.0/libdlb/dlb.c:2076-2119 | caches and hit counters after the call, for all five rules and both devices; undisturbed, cache plus pool is unchanged |
| CreditCaches.CreditCache.ReleaseAfterSend | src/dlb_8.9.0/libdlb/dlb.c:2595-2605 | after a send more than 64 credits of a type are back to 32 and fewer stay; a send of nothing counts towards draining |
| CreditCaches.CreditCache.SwapIn | src/dlb_8.9.0/libdlb/dlb.c:2614-2620 | with no unused credit cached, the compare-and-swap brings a whole batch or nothing, whatever the 16-bit counter shows; undisturbed it succeeds |
| CreditCaches.CreditCache.Refresh | src/dlb_8.9.0/libdlb/dlb.c:2607-2623 | at most 32 more credits, and undisturbed none only if the pool is empty |
| CreditCaches.CreditCache.CheckCredit | src/dlb_8.9.0/libdlb/dlb.c:2820-2830 | the check with its refill moves used and held credits as the loop of `CallLengthMatters` does |
| CreditCaches.CreditCache.EnsureCredit | src/dlb_8.9.0/libdlb/dlb.c:2820-2830 | with fewer than 2^16 credits used a send goes on exactly while an unused credit is cached; undisturbed it stops only at an empty pool |
| CreditCaches.CreditCache.Settle | src/dlb_8.9.0/libdlb/dlb.c:2891-2892 | exactly the used credits leave the counter when the send ends, also if it has wrapped |
| CreditCaches.CreditCache.CollectCredits | src/dlb_8.9.0/libdlb/dlb.c:2625-2637 | received events bring one credit each, without a wrap |
| ConsumerQueue.PlaceIsDivMod | src/dlb_8.9.0/libdlb/dlb.c:3432-3436 | stepping an index and wrapping it is division with remainder by the depth |
| ConsumerQueue.StepSlot | src/dlb_8.9.0/libdlb/dlb.c:3430-3436 | adding the stride and wrapping at the limit visits the slots of successive entries, and the generation bit flips just at each wrap, for stride 1 and 4 |
| ConsumerQueue.SlotsApart | src/dlb_8.9.0/libdlb/dlb.c:3580-3593 | entries less than a depth apart never share a slot |
| ConsumerQueue.MemoryAfterWrite | src/dlb_8.9.0/libdlb/dlb.c:3410-3437 | a device write keeps the last depth entries in memory with the bits of their laps |
| ConsumerQueue.BitTestIsExact | src/dlb_8.9.0/libdlb/dlb_priv.h:275-276 | with at most depth entries unread, the one-bit test says empty if and only if all are read |
| ConsumerQueue.OverrunReadsAsEmpty | src/dlb_8.9.0/libdlb/dlb_priv.h:275-276 | with more, for a whole lap, a full ring reads as empty |
| ConsumerQueue.Cq.IsEmpty | src/dlb_8.9.0/libdlb/dlb_priv.h:275-276 | true exactly when the queue of written and unread entries is empty |
| ConsumerQueue.Cq.Step | src/dlb_8.9.0/libdlb/dlb.c:3430-3436 | index and generation bit become those of the next entry, wherever the ring ends |
| ConsumerQueue.Cq.Next | src/dlb_8.9.0/libdlb/dlb.c:3410-3437 | reading removes the oldest unread entry, every index staying in the ring |
| DlbTypes.DebtsAgree | src/dlb_8.9.0/libdlb/dlb.c:2565-2577 | bit 0, by which the library counts returned tokens, agrees with the commands named for it except for the reserved 5 and 7, which are assumed to return none |
| DlbTypes.CommandTable | src/dlb_8.9.0/libdlb/dlb.c:2492-2521 | the commands by number: which return tokens, complete an event, cost a credit, are plain enqueues |
| DlbTypes.CompletionBit | src/dlb_8.9.0/libdlb/dlb.c:2832-2833 | bit 1 completes an event, but for the reserved commands; clearing it makes NEW of FWD and NEW_T of FWD_T and leaves other enqueues alone |
| Ports.PackedIsRead | src/dlb_8.9.0/libdlb/dlb.c:2807-2833 | the device reads each event sent field by field, in its place |
| Ports.RejectedMeans | src/dlb_8.9.0/libdlb/dlb.c:2523-2547 | a send is refused if and only if an event of unknown queue comes with none but plain enqueues (8 to 11) up to it |
| Ports.ChargedByQueue | src/dlb_8.9.0/libdlb/dlb.c:2804-2838 | an event for a directed queue costs a directed credit, any other, and on v2.5 all, a load-balanced one |
| Ports.CacheHasPaid | src/dlb_8.9.0/libdlb/dlb.c:2819-2898 | when the cached credits cover a send it is complete, whatever others do, and of what is left more than 64 go back to 32 |
| Ports.PackedTokens | src/dlb_8.9.0/libdlb/dlb.c:2565-2577 | the tokens the slots of a send return to the device are those charged for its events, on directed ports too, where the completion bit is cleared |
| Ports.PackedReleases | src/dlb_8.9.0/libdlb/dlb.c:2549-2556 | on load-balanced ports the same for releases |
| Ports.Port.PayDebts | src/dlb_8.9.0/libdlb/dlb.c:2549-2577 | both debts go down by what the QE returns, never below 0 |
| Ports.Port.PlaceNext | src/dlb_8.9.0/libdlb/dlb.c:2798-2839 | one step of the inner loop: used credits never exceed cached ones, and an event without a credit leaves a NOOP and no trace in credits or debts |
| Ports.Port.SendLines | src/dlb_8.9.0/libdlb/dlb.c:2775-2889 | n events sent are the first n, in order, four to a line, padded with NOOP; a short count means the next event had no credit |
| Ports.Port.Validate | src/dlb_8.9.0/libdlb/dlb.c:2523-2547 | a send is refused if and only if an event of unknown queue comes before the first event that is no plain enqueue |
| Ports.Port.AdvSend | src/dlb_8.9.0/libdlb/dlb.c:2903-3009 | the whole send on both devices: when it is refused, what the device reads in every slot, the debts, the credits spent, those left cached; no refill while the cache covers it |
| Ports.Port.SendNoCredits | src/dlb_8.9.0/libdlb/dlb.c:2639-2742 | releases and token returns are sent completely or not at all, and cost no credits |
| Ports.Port.SendAll | src/dlb_8.9.0/libdlb/dlb.c:3011-3052 | the command is written into the caller's events even when the send is then refused; the path follows command and device |
| Ports.Port.DlbSend | src/dlb_8.9.0/libdlb/dlb.c:3054-3060 | refused exactly on a stopped or disabled port or for an unknown queue; the device reads the events given, field by field, as new ones; debts untouched; on one credit type and undisturbed it sends exactly min(num, cached + pool), and with enough cached all, whatever others do |
| Ports.CountIsMin | src/dlb_8.9.0/libdlb/dlb.c:2744-2901 | stopping only for want of credits means that count |
| Ports.Port.Forward | src/dlb_8.9.0/libdlb/dlb.c:3087-3093 | the same for forwarded events, which directed ports send as new ones; each pays one release and no token, also when cut short |
| Ports.Port.Release | src/dlb_8.9.0/libdlb/dlb.c:3062-3085 | with room on the stack for num events, releases exactly min(num, owed); the device gets that many |
| Ports.Port.PopCq | src/dlb_8.9.0/libdlb/dlb.c:3095-3126 | returns exactly min(num, owed) tokens and completes nothing |
| Ports.Port.ReadCq | src/dlb_8.9.0/libdlb/dlb.c:3406-3437 | the events returned are the next written entries in order, up to max or an empty CQ, each counted at its queue and level |
| Ports.Port.Account | src/dlb_8.9.0/libdlb/dlb.c:3449-3454 | both debts go up by the events received, and so do the credits, before the idle rule |
| Ports.Port.Recv | src/dlb_8.9.0/libdlb/dlb.c:3367-3461 | the whole receive: events in order; denied exactly when the port is disabled and the CQ empty at the looks at it, so that on a disabled port none but a failed wait or events comes instead; wait_func called at most once, and always before a waiting receive of nothing; the cache after it by the batch and idle rules, with one credit of the port's type per event; an empty one drains the cache or moves on towards it; with an event descriptor an emptied CQ leaves the interrupt armed; at every call boundary owed tokens are received less popped, owed releases are received less completed, and cached credits at most 64 plus owed tokens |
| Ports.Port.RearmEpoll | src/dlb_8.9.0/libdlb/dlb.c:3440-3447 | with an event descriptor: an emptied CQ returns all cached credits when the pools are low and sends the arm command unless the descriptor cannot be read; otherwise nothing happens |
| Ports.Port.AwaitEvent | src/dlb_8.9.0/libdlb/dlb.c:3398-3404 | before wait_func is called, once, all cached credits go back if a pool has fewer than 32; after it the port is enabled or there is an event, or the call ends |
| Ports.Port.LevelsByQueue | src/dlb_8.9.0/libdlb/dlb.c:3424-3429 | an event counts at its queue and level, on a directed port at the queue with the port's number |
| Ports.Port.ReceiveUntilEvent | src/accdirect/offload-rdma-dlb/rdma_ldb_dlb.c:548-556 | the worker's receive loop, which ends without an event only when all its calls are used up; after more than 64 receives without an event the port caches no credits |
| Ports.Port.DlbAdvSend | src/dlb_8.9.0/libdlb/dlb.c:3715-3756 | refused exactly when it would return or complete more than is owed, or cannot be sent; otherwise debts go down by what was sent |
| Ports.WrappedTotals | src/dlb_8.9.0/libdlb/dlb.c:3733-3747 | the check by 16-bit totals is right if and only if they have not wrapped or are too large even so |
| Ports.ATotalThatWraps | src/dlb_8.9.0/libdlb/dlb.c:3733-3747 | one BAT_T of 2^16 tokens counts as none and passes the check whatever is owed |
| Ports.Port.CountDebts | src/dlb_8.9.0/libdlb/dlb.c:3733-3744 | the totals are the true ones modulo 2^16 |
| Ports.Port.Disable | src/dlb_8.9.0/libdlb/dlb.c:2121-2156 | an idle port that is disabled caches nothing afterwards |
| Ports.Port.WorkerPass | src/accdirect/offload-rdma-dlb/rdma_ldb_dlb.c:523-584 | after a receive of num_rx the release always returns num_rx, and both debts are as before; a pass that goes on after a failed receive is told apart, and nothing is said of what it does then |
| QueueDepth.Levels.CountLessReset | src/dlb_8.9.0/libdlb/dlb.c:3758-3799 | count less reset is the number of events of that queue and level since its last reset |
| QueueDepth.Levels.Bump | src/dlb_8.9.0/libdlb/dlb.c:3424-3429 | counting an event extends the history by it |
| QueueDepth.ReadCounter | src/dlb_8.9.0/libdlb/dlb.c:3801-3828 | the domain's counter is the events received on all ports since its last reset |
| QueueDepth.ResetCounter | src/dlb_8.9.0/libdlb/dlb.c:3857-3886 | a reset makes that counter 0 on every port and moves no other |
| QueueDepth.CountersMissNothing | src/dlb_8.9.0/libdlb/dlb.c:3424-3429 | all counters of all ports add up to the events received |
| ReservedTokens.SizesFor | src/dlb_8.9.0/libdlb/dlb.c:1423-1436 | the reserve is the depth asked for, and 1 for 1024; depth less reserve is the depth asked for, or 1023 |
| ReservedTokens.IncrementKeeps | src/dlb_8.9.0/libdlb/dlb.c:2579-2593 | received events fill the reserve first, and unpopped tokens stay owed plus held |
| ReservedTokens.PopKeeps | src/dlb_8.9.0/libdlb/dlb.c:3095-3126 | a pop gives back at most what is owed, keeps the balance and leaves the reserve alone |
| ReservedTokens.ArmingNeedsNoDeficit | src/dlb_8.9.0/libdlb/dlb.c:3128-3152 | arming keeps that balance if and only if there is no deficit, and otherwise is off by the deficit |
| ReservedTokens.RsvdPort.BlockOnInterrupt | src/dlb_8.9.0/libdlb/dlb.c:3185-3224 | the blocking path arms only without a deficit, so it always keeps the balance |
| ReservedTokens.RsvdPort.Receive | src/dlb_8.9.0/libdlb/dlb.c:2579-2593 | the accounting of a receive keeps the balance |
| ReservedTokens.RsvdPort.Arm | src/dlb_8.9.0/libdlb/dlb.c:3173-3183 | the unconditional arming of the epoll paths keeps the invariant exactly when there is no deficit |
| ReservedTokens.RsvdPort.UsableDepth | src/dlb_8.9.0/libdlb/dlb.c:1423-1436 | at any time room in the CQ plus owed tokens is at least the depth asked for (1023 for 1024) |
| RemoteAtomics.LowHalfDecides | src/accdirect/offload-rdma-dlb/common.c:834 | for equal lower halves the words are equal if and only if the upper halves are |
| RemoteAtomics.TakeBatchIsExact | src/accdirect/offload-rdma-dlb/common.c:824-841 | taking a batch reports success exactly when the swap took effect, and what it reports is what the lower half lost if and only if the count covered the batch |
| RemoteAtomics.LeaveBehindIsExact | src/accdirect/offload-rdma-dlb/common.c:824-841 | the same for leaving a fixed count behind, which also clears the upper half |
| RemoteAtomics.StaleHighHalfMintsCredits | src/accdirect/offload-rdma-dlb/common.c:834-836 | if the upper half had changed, credits would be reported that the pool did not give up |
| MetadataRing.EntriesArriveInOrder | src/accdirect/offload-rdma-dlb/snic.c:99-177 | in every interleaving of client, network and worker the QEs enqueued are the client's entries, once each and in order, and one READY is sent for each lap consumed |
| MetadataRing.FillKeeps | src/accdirect/offload-rdma-dlb/client.c:162-171 | filling the client's buffer never touches an entry already posted in this lap |
| MetadataRing.PostKeeps | src/accdirect/offload-rdma-dlb/client.c:173-178 | four entries posted extend the client's sequence and stay inside the ring |
| MetadataRing.RepostKeeps | src/accdirect/offload-rdma-dlb/client.c:180-184 | a new lap starts only with everything delivered and consumed, and with a receive posted |
| MetadataRing.StopKeeps | src/accdirect/offload-rdma-dlb/snic.c:144-147 | a slot that is not yet visible ends the scan without effect on QEs taken before |
| MetadataRing.CopyKeeps | src/accdirect/offload-rdma-dlb/snic.c:135-140 | an entry is copied to the QE with the number it was posted with |
| MetadataRing.ClearKeeps | src/accdirect/offload-rdma-dlb/snic.c:142-143 | clearing the flag takes that entry and no other |
| MetadataRing.CommitKeeps | src/accdirect/offload-rdma-dlb/snic.c:154-177 | enqueueing advances offset, buffer index and count together, and READY follows exactly at the ring's end |
| MetadataRing.WrapKeeps | src/accdirect/offload-rdma-dlb/snic.c:118-122 | the worker may wrap before the client starts its next lap, and still takes nothing twice |
| MetadataRing.NothingIsOverwritten | src/accdirect/offload-rdma-dlb/client.c:142-184 | a delivery never meets an entry not yet taken, and carries what was posted for its slot |
| MetadataRing.ReadyFindsAReceive | src/accdirect/offload-rdma-dlb/client.c:180-184 | whenever READY is sent or on its way, exactly one receive is posted |
| MetadataRing.AwaitIsAnswered | src/accdirect/offload-rdma-dlb/client.c:180-184 | a waiting client is never deadlocked: READY is due, or an entry is there for the worker's next scan |
| MetadataRing.ScansStayInside | src/accdirect/offload-rdma-dlb/snic.c:99-151 | a scan takes at most 4, never crosses the ring's end, finds nothing behind it; buffer index equals offset, count equals laps times size plus offset |
| MetadataRing.WholeLaps | src/accdirect/offload-rdma-dlb/snic.c:169 | the count is a multiple of the ring size exactly at the ring's ends |
| MetadataRing.WaitsAreRegular | src/accdirect/offload-rdma-dlb/snic.c:157-162 | between completion waits fewer writes go unsignalled than any common multiple of 256 and the ring size, hence than their least one |
| RingProgress.PassTakesWhatIsThere | src/accdirect/offload-rdma-dlb/snic.c:99-177 | a pass of the worker alone takes the entries visible at its place, up to four or the ring's end, and enqueues them; it waits for completion exactly at multiples of 256, and READY is due exactly at the ring's end |
| RingProgress.ClientPosts | src/accdirect/offload-rdma-dlb/client.c:142-184 | a pass of the client alone posts the four entries given to the next four slots, and after a whole lap it waits |
| RingProgress.ClientGoesOn | src/accdirect/offload-rdma-dlb/client.c:180-184 | after READY it starts the next lap, with a receive posted |
| RingProgress.AFurtherEntryCanBeEnqueued | src/accdirect/offload-rdma-dlb/client.c:142-184 | no deadlock: from every reachable state the system can go on to enqueue a further entry |
| RingProgress.RunsGoOnForever | src/accdirect/offload-rdma-dlb/snic.c:99-177 | for every size of the ring there are runs that enqueue as many entries as one likes |
| Forwarders.Forwarder.TakeOne | src/accdirect/cpu-rdma-dlb/rdma_ldb_dlb.c:380-397 | one look at a slot takes the entry there or nothing, whatever arrives meanwhile |
| Forwarders.Forwarder.Scan | src/accdirect/cpu-rdma-dlb/rdma_ldb_dlb.c:363-399 | a scan takes all entries there when it began, up to four or the ring's end, in order |
| Forwarders.Forwarder.SendSome | src/accdirect/cpu-rdma-dlb/rdma_ldb_dlb.c:404-409 | one attempt never fails, sends a first part of what is left, and undisturbed as much as there are credits |
| Forwarders.Forwarder.SendTaken | src/accdirect/cpu-rdma-dlb/rdma_ldb_dlb.c:401-409 | the retry loop sends every event once, in order, for every credit schedule, and leaves one unsent only after as many sends as it has patience for; after more than 100 sends of nothing the port caches no credits |
| Forwarders.Forwarder.Advance | src/accdirect/cpu-rdma-dlb/rdma_ldb_dlb.c:411-423 | READY is sent exactly when the scan ended at the ring's end |
| Forwarders.Forwarder.Run | src/accdirect/cpu-rdma-dlb/rdma_ldb_dlb.c:360-423 | over any number of passes and any arrivals the device has received exactly the entries counted, once each and in ring order; each pass takes at least one of the entries there, and it stops early only after a retry loop has used up its patience |
| Forwarders.PackedPayloads | src/accdirect/cpu-rdma-dlb/rdma_ldb_dlb.c:404-409 | the NEW slots of a send carry the entries sent, in order |
| WriteBatches.ListIsBatch | src/accdirect/offload-rdma-dlb/common.c:659-690 | whatever other slots hold, the list from any slot of the batch ends and is the rest of the batch in order |
| WriteBatches.Connection.Prepare | src/accdirect/offload-rdma-dlb/common.c:659-690 | the write joins the end of the batch, or is refused exactly when four are there |
| WriteBatches.Connection.PostList | src/accdirect/offload-rdma-dlb/common.c:697-702 | following the links from the first request gives exactly the prepared writes |
| WriteBatches.Connection.PostBatch | src/accdirect/offload-rdma-dlb/common.c:692-708 | as long as posts succeed, posted and prepared writes together are all writes accepted, in order |
| WriteBatches.Connection.SendPayloads | src/accdirect/offload-rdma-dlb/client.c:142-160 | a pass posts what an earlier failure left in the batch and of its own four writes those that fit behind, in order, and drops as many as were left over; from an empty batch it posts its four |
| WriteBatches.Connection.PayloadAt | src/accdirect/offload-rdma-dlb/client.c:142-160 | payload number k goes from its place in one buffer to the same place in the other; only the last of a lap is signalled |
| Handles.WithoutAt | src/dlb_8.9.0/libdlb/dlb_priv.h:169-187 | deleting takes out one element and leaves the others in their order |
| Handles.HandleList.Add | src/dlb_8.9.0/libdlb/dlb_priv.h:157-167 | in memory: the new handle is in front of the others |
| Handles.HandleList.Del | src/dlb_8.9.0/libdlb/dlb_priv.h:169-187 | in memory: found exactly when it was in the list, and then only it is gone |
| Handles.CallKeeps | src/dlb_8.9.0/libdlb/dlb.c:973-1136 | every call keeps: refcnt is the number of domain handles in all processes, port handles hang on an attached domain handle of their process, no handle is listed twice |
| Handles.ListsHoldAttachedHandles | src/dlb_8.9.0/libdlb/dlb.c:1791-1834 | after any calls each list holds exactly the handles attached and not detached |
| Handles.ResetNeedsNoHandles | src/dlb_8.9.0/libdlb/dlb.c:2201-2230 | after any calls a reset by the creator succeeds exactly when no process has a handle of either kind |
| Handles.AttachDomainSucceeds | src/dlb_8.9.0/libdlb/dlb.c:973-1136 | after any calls a domain handle is attached unless a reset has succeeded |
| Handles.PortCallsSucceed | src/dlb_8.9.0/libdlb/dlb.c:1791-1834 | a port handle is attached exactly to an attached domain handle, and detached exactly if it is attached |
| Handles.DetachDomainSucceeds | src/dlb_8.9.0/libdlb/dlb.c:973-1136 | a domain handle is detached exactly if it is attached and no port handle of the process is; which error it is otherwise |
| Handles.ResetOutcome | src/dlb_8.9.0/libdlb/dlb.c:2201-2230 | which error a reset gives to others than the creator, after a reset, and with domain handles left |

## Left out

- Kernel calls, shared-memory files, the domain socket server, alert threads, mapping of device memory and mutexes; locked configuration functions are atomic steps.
- Creation of ports and queues beyond the CQ's shape and the reserved tokens; that pools of a port exist is checked there and is a condition of its steps here.
- Wait functions other than the bookkeeping around arming: interrupts, umwait, hard and sleep polling are a step in which anything may arrive and the port may be disabled.
- Handle validity, null pointers and errno values; a refused call is -1.
- RDMA device, queue-pair and connection setup, argument parsing, statistics and benchmarks.
- Shutdown: `test_finished`, and what `worker_done` loses, beyond the fact that what was sent before it is a prefix of what arrived.
- The SmartNIC connection that gets no READY (`tid == num_client_conns-1`) and the client loop that goes with it.
- The client's payload addresses: payload offsets follow `cnt`, metadata addresses follow `remote_offset`, and the two do not agree in general, so the addresses in the metadata are arbitrary here.
- Reuse of the SmartNIC's QE buffer before a write has left it: QEs are taken when they are posted; for small `meta_size` the code gives no guarantee of that.
- Fields of a QE that no code path reads (flow, scheduling byte and opaque of the SmartNIC's QEs), and misc bits that are always written as zero.
- Disabling a port during a datapath call on it, and two threads in one port: the interface promises nothing there.
- `owed_releases` of a directed port, which only wraps and is never paid; the ledger of releases is for load-balanced ports.
- `src/accdirect/cpu-rdma-dlb/snic.c`, which is stale, and `src/masstree`, whose verbs setup would add only easy members.
- Ports.Port.DlbSend: the exact count is for events of one credit type in pools that nobody else uses meanwhile; for mixed types and with others at work it states which events were sent and why it stopped. A call that uses more than 2^16 credits of a type with others at work is left out, since the code sends without credits there.
- Ports.Port.DlbAdvSend: leaves out totals that wrap to something within what is owed, which the code lets pass, and the reserved commands 5 and 7, whose tokens it miscounts.
- Ports.Port.Release: leaves out calls for more events than the stack has room for; the array comes before the cap.
- Ports.Port.WorkerPass: says nothing of a worker that goes on after a failed receive, as its release asks for 64 GiB of stack.
- ReservedTokens.RsvdPort.Pop: the token return itself is that of the port model; here it is only counted.
