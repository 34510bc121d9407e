# KubeNexus scheduler plugins: a Dafny model

KubeNexus is a set of kube-scheduler plugins for gang scheduling and GPU placement. This project models the
parts whose correctness depends on state or on several functions together, and proves what they keep over
whole runs. Run `dafny verify dfyconfig.toml` in this directory to check everything.

## What is modelled

| file | component |
|---|---|
| `Text.dfy`, `Collections.dfy` | the Go string operations in use; counting facts shared by the loops, one fact about runs |
| `PodGroups.dfy` | gang identity from pod labels, and gang keys |
| `GroupCache.dfy` | the coscheduling cache: lookup and insertion, TTL sweep, emergency eviction in place |
| `CacheInterleaving.dfy` | the same cache with both threads split into single map and counter operations |
| `QueueOrder.dfy` | the queue comparator with its starvation boost |
| `Permit.dfy` | the Permit / Unreserve waiting protocol |
| `Preemption.dfy`, `GangPreemption.dfy` | victim choice; PostFilter and its cooldown |
| `PreemptionLimits.dfy` | what the cap of 50 victims costs; when preemptions can go round in a circle |
| `Reservations.dfy`, `ReservationRuns.dfy` | the reservation protocol against an API server whose calls may fail; its runs, one plugin call after another |
| `ReservationInterleaving.dfy` | the same protocol with its goroutines split into single API calls and mark operations |
| `FabricClique.dfy` | NVLink-clique filtering and locality score |
| `GpuIslands.dfy` | GPU-island filter and fragmentation score |
| `Vram.dfy` | VRAM filter and score, topology bonus |
| `NumaTopology.dfy` | CPU-list and label parsing, the strict NUMA filter |
| `Webhook.dfy` | the GPU-class admission patch |

Objects whose methods update their fields are classes; each such method is proved against a step relation or
step function on values, and the run laws are lemmas about all sequences of those steps. Times are integers in
nanoseconds. Listers are sequences of pods in any order; a list call that may fail is an `Option`.

Assumptions taken from Kubernetes rather than from the code: namespaces hold no slash, pod names are unique in
a namespace, container requests are not negative (a VRAM annotation may be), label values and namespaces are ASCII. A pod that is allowed
or rejected leaves the waiting table at once. Only this plugin writes its reservations, and deletion follows the
finalizer rules of the API server; an API call may fail with or without having taken effect. `Reservations.dfy` and
`ReservationRuns.dfy` take each PreFilter, PostBind and cleanup turn as one atomic step, which the program does not
guarantee; `ReservationInterleaving.dfy` drops that assumption for one gang, shows which laws survive, and that a call
nobody interrupts is the one-step call. Run laws
over a lister assume that each placement is visible to the next Filter call.

## Where the code does less than it says

- Permit's "running" count takes in pending and phase-less pods (pkg/plugins/coscheduling/coscheduling.go:418-420).
  So a waiting pod is counted twice, and a Success vouches for min / 2 + 1 live members and no more
  (`Permit.SuccessVouchesForMajority`, `Permit.MajorityIsAttained`). And once PreFilter has seen the minimum of listed
  pods and all of them are live, Permit releases the first placed member without waiting for any other
  (`Permit.LiveGangNeverWaits`).
- The counter of cached groups equals their number while operations are atomic; with the two threads interleaved
  it can stay behind for good (`CacheInterleaving.CounterCanFallBehind`), by exactly the number of deletes that
  found their key gone.
- A cached group's update time is never refreshed, so the TTL removes groups ten minutes after insertion, used or
  not, although the comment at coscheduling.go:61 speaks of unused entries (`GroupCache.SweepKeepsOnlyRecent`).
- The queue order is a strict weak order at any one instant but not fixed over time: two pods change places exactly
  when the one behind alone starts to starve, or when a starving pod's better rival starts to starve as well
  (`QueueOrder.OrderReversesExactlyWhen`).
- docs/FEATURES.md:204 describes the starvation boost as priority +100; the code lets a starving group precede
  every non-starving one whatever the priorities (`QueueOrder.NoFreshGroupAheadOfStarving`).
- The preemptor's tier comes from its profile and the victim's from queue or namespace text. Chains of preemptions
  are acyclic as long as no profile rates a pod above its text, and each pod that breaks this can preempt, and be
  preempted by, the pods of a like gang (`PreemptionLimits.NoPreemptionCycle`,
  `PreemptionLimits.CyclesExactlyWhenInconsistent`).
- Greedy victim selection is complete up to 50 candidates and not beyond: a nil answer overlooks a sufficient set
  exactly when all candidates together would do, which for any larger number of pods some listing brings about
  (`Preemption.NilIsFinalUpToTheCap`, `Preemption.NilIsWrongExactlyWhen`, `PreemptionLimits.NilIsNotFinalBeyondTheCap`).
- "A gang marked as created has its reservation object" breaks exactly when a cleanup turn removes the object without
  its delete reporting so. Either the update takes the last finalizer off an object already being deleted, so that
  the delete finds nothing; or the delete takes effect and its reply is lost (`ReservationRuns.StepKeepsPromiseExactly`,
  `ReservationRuns.PromiseHoldsExactly`). The mark then stays, and PreFilter trusts it, until a PostBind of the complete
  gang or a restart (`ReservationRuns.StrandedUntilForgotten`).
- PostBind unmarks the gang even if its calls failed (pkg/plugins/resourcereservation/resourcereservation.go:517-523),
  and the cleanup visits marked gangs only. What is left behind is never cleaned up, however old, until a PreFilter or
  PostBind of the gang (`ReservationRuns.OrphanIsNeverCleanedUp`, `ReservationRuns.FailedPostBindCanOrphanTheObject`).
- With the goroutines interleaved, the cleanup can start deleting a reservation younger than 30 minutes: between its
  listing and its delete by name, PostBind deletes the object and PreFilter creates another. It happens exactly when
  the name has changed hands (`ReservationInterleaving.CleanupHitsYoungExactly`,
  `ReservationInterleaving.CleanupCanHitAReplacement`), and it lets a mark be stranded although every call is served
  and answered (`ReservationInterleaving.MarkCanBeStrandedWithNoCallLost`). The delete of a slow PostBind can hit the
  next PreFilter's object in the same way (`ReservationInterleaving.PostBindHitsAnotherExactly`,
  `ReservationInterleaving.PostBindCanHitAReplacement`).
- The fragmentation score calls an exact fit perfect but gives it 90, less than a used island that keeps one to nine
  GPUs spare gets (pkg/plugins/resourcefragmentation/fragmentationscore.go:191-203,
  `GpuIslands.TighterFitScoresHigherExactly`).
- VRAM Filter looks at the smallest device and the share for each GPU, never at how many GPUs the node has
  (pkg/plugins/vramscheduler/vramscheduler.go:518-531). On a node that passes, a sufficient choice of the requested
  number exists exactly when the node has that many (`Vram.AdequateChoiceExistsExactly`).
- A CPU range that ends at the largest int64 is never left: the loop counter wraps around
  (pkg/plugins/numatopology/numatopology.go:568). `NumaTopology.ListReturnsExactly` says on which lists the parser
  returns.

## Model

| member | source | states |
|---|---|---|
| PodGroups.GetPodGroupLabels | pkg/utils/pod.go:48-80 | no group exactly when the name or the minimum is missing or empty under both its labels; a membership has the new label's name or else the legacy one's, and the parsed minimum label, at least 1; otherwise the labels are malformed |
| PodGroups.PrintedLabelsReadBack | pkg/utils/pod.go:48-80 | a group name and a printed minimum, under either pair of keys, read back as that membership |
| PodGroups.LegacyLabelsAreEquivalent | pkg/utils/pod.go:53-68 | a pod with only legacy labels gets the membership the same new labels would give |
| PodGroups.GangsWantTwoOrMore | pkg/utils/pod.go:48-80 | whatever else it carries, a pod is a gang pod exactly when a name label is not empty and the minimum reads as 2 or more; it has a group name exactly when that reads as 1 or more |
| PodGroups.GangKeyInjective | pkg/utils/pod.go:256-259 | equal gang keys mean equal namespace and group |
| PodGroups.GangKeySplit | pkg/plugins/resourcereservation/resourcereservation.go:486-492 | splitting a key on slashes gives two parts exactly when neither part holds a slash, and then recovers both |
| GroupCache.Coscheduling.OldestFrom | pkg/plugins/coscheduling/coscheduling.go:514-519 | the index found holds a least update time among the remaining entries |
| GroupCache.Coscheduling.SelectOldest | pkg/plugins/coscheduling/coscheduling.go:513-520 | one in-place round keeps the entries a permutation of the cache and extends the oldest-first prefix by one |
| GroupCache.Coscheduling.EvictOldestEntries | pkg/plugins/coscheduling/coscheduling.go:491-527 | removes max(1, n/5) entries (none from an empty cache), none newer than a kept one, keeps the others unchanged, and lowers the counter by as many |
| GroupCache.Coscheduling.GetPodGroupInfoFromQueued | pkg/plugins/coscheduling/coscheduling.go:188-223 | answers the cached record if there is one, else stores a fresh one, evicting first when the counter is at the cap; touches nothing else |
| GroupCache.Coscheduling.CleanupStaleEntries | pkg/plugins/coscheduling/coscheduling.go:469-485 | a sweep removes exactly the entries past their TTL and counts them |
| GroupCache.EvictionComplete | pkg/plugins/coscheduling/coscheduling.go:505-523 | deleting an oldest-first prefix of a snapshot, of the computed length, is an eviction of that many distinct entries |
| GroupCache.EvictCountIsAFifth | pkg/plugins/coscheduling/coscheduling.go:505-508 | an eviction takes a fifth of the entries, rounded down, but at least one, and none of none |
| GroupCache.StepKeepsInv | pkg/plugins/coscheduling/coscheduling.go:188-215 | lookup with insertion and eviction, and sweep, keep counter = size, at most 50000, and entries under their own keys |
| GroupCache.CounterIsSizeInEveryRun | pkg/plugins/coscheduling/coscheduling.go:195-211 | in every reachable state the counter is the number of groups and at most 50000 |
| GroupCache.EntryNeverChangesWhileCached | pkg/plugins/coscheduling/coscheduling.go:193-214 | over any stretch of a run in which a group stays cached, its record, timestamp included, is the same |
| GroupCache.CachedSinceInsertion | pkg/plugins/coscheduling/coscheduling.go:193-214 | whatever is cached in a reachable state is the fresh record of one earlier lookup that missed, field by field, cached ever since |
| GroupCache.SweepKeepsOnlyRecent | pkg/plugins/coscheduling/coscheduling.go:478-482 | a cached group survives a sweep exactly when the lookup that inserted it lies within the TTL, however often it was looked up since |
| CacheInterleaving.ActionKeepsLedger | pkg/plugins/coscheduling/coscheduling.go:471-484 | every single map or counter operation keeps size = counter + pending increments - pending decrements + missed deletes |
| CacheInterleaving.ActionKeepsRoom | pkg/plugins/coscheduling/coscheduling.go:195-211 | every operation keeps the counter at or below the cap, with room reserved for the store in progress |
| CacheInterleaving.LedgerInEveryInterleaving | pkg/plugins/coscheduling/coscheduling.go:195-211 | the ledger and the cap on the counter hold in every state of every interleaving |
| CacheInterleaving.SizeAndCounterInEveryInterleaving | pkg/plugins/coscheduling/coscheduling.go:471-523 | the size never exceeds 50000 plus the missed deletes; at rest the counter is at most the size, and equal exactly when no delete missed |
| CacheInterleaving.CounterCanFallBehind | pkg/plugins/coscheduling/coscheduling.go:480-481 | a reachable state at rest has a counter below the size |
| CacheInterleaving.ActionKeepsTimes | pkg/plugins/coscheduling/coscheduling.go:193-214 | no single operation rewrites an entry that stays |
| CacheInterleaving.UndisturbedLookupIsStep | pkg/plugins/coscheduling/coscheduling.go:188-223 | a lookup whose operations nobody interrupts is the atomic lookup step, eviction included |
| CacheInterleaving.UndisturbedSweepIsStep | pkg/plugins/coscheduling/coscheduling.go:469-485 | and an uninterrupted sweep is the atomic sweep step |
| QueueOrder.Less | pkg/plugins/coscheduling/coscheduling.go:128-186 | two lookups and one comparison; with both groups known the cache is untouched |
| QueueOrder.StarvingGoesFirst | pkg/plugins/coscheduling/coscheduling.go:139-158 | a pod whose group was submitted more than 60 seconds ago goes before one whose was not, whatever the priorities |
| QueueOrder.HigherPriorityGoesFirst | pkg/plugins/coscheduling/coscheduling.go:159-172 | if both or neither starve, the higher of two given priorities goes first |
| QueueOrder.MissingPriorityIsZero | pkg/plugins/coscheduling/coscheduling.go:159-172 | a missing priority goes before negative and after positive ones, and always compares like a given 0 |
| QueueOrder.EarlierSubmissionGoesFirst | pkg/plugins/coscheduling/coscheduling.go:173-185 | at equal priorities the earlier submission goes first, and at equal times the smaller namespace/group key |
| QueueOrder.LessIsRankOrder | pkg/plugins/coscheduling/coscheduling.go:144-185 | Less is lexicographic comparison on (starving, priority, timestamp, key) |
| QueueOrder.LessIsStrictWeakOrder | pkg/plugins/coscheduling/coscheduling.go:123-186 | at one instant over one cache Less is irreflexive, asymmetric and transitive, and incomparability is equality of rank |
| QueueOrder.GangMembersAreContiguous | pkg/plugins/coscheduling/coscheduling.go:170-185 | a queue sorted by Less never puts another pod between two equal-priority members of a cached gang |
| QueueOrder.GangMembersAreContiguousInEveryRun | pkg/plugins/coscheduling/coscheduling.go:128-215 | the same over the cache of any reachable state |
| QueueOrder.NoFreshGroupAheadOfStarving | pkg/plugins/coscheduling/coscheduling.go:139-158 | in a sorted queue nothing ahead of a starving group is non-starving |
| QueueOrder.OrderReversesExactlyWhen | pkg/plugins/coscheduling/coscheduling.go:140-158 | two pods change places between two instants exactly when the one behind starts to starve alone, or the one ahead by starving alone is joined by a rival better on merit |
| QueueOrder.OrderDoesReverse | pkg/plugins/coscheduling/coscheduling.go:140-158 | both kinds of reversal occur among pods queued by the first instant |
| Permit.CalculateRunningPodsExcluding | pkg/plugins/coscheduling/coscheduling.go:393-426 | counts the distinct listed members that are neither terminating, finished nor the pod at hand |
| Permit.ListedExactly | pkg/plugins/coscheduling/coscheduling.go:393-406 | listed are exactly the carriers of the new label if that call works and there are any, else the carriers of the legacy label if the second call works |
| Permit.CountedExactly | pkg/plugins/coscheduling/coscheduling.go:408-423 | of those, exactly the others count that are not terminating and are running, pending or without a phase |
| Permit.LegacyGangCountsAlike | pkg/plugins/coscheduling/coscheduling.go:393-426 | a gang under legacy labels is counted like the same gang under new ones, whether the fruitless first call works or fails |
| Permit.LegacyGangIsDecidedAlike | pkg/plugins/coscheduling/coscheduling.go:284-348 | and its pods get the same answer from Permit over the same waiting table |
| Permit.InGangOnLabels | pkg/plugins/coscheduling/coscheduling.go:335-343 | release and rejection go by the namespace, the first non-empty name label and a minimum that reads as 1 or more |
| Permit.CountedOnLabels | pkg/plugins/coscheduling/coscheduling.go:442-455 | the waiting count goes by the namespace and either name label |
| Permit.Framework.CalculateWaitingPods | pkg/plugins/coscheduling/coscheduling.go:428-458 | counts the waiting pods of the namespace that carry the group under either name label |
| Permit.Framework.ReleaseGang | pkg/plugins/coscheduling/coscheduling.go:335-343 | removes exactly the gang's waiting pods |
| Permit.Framework.Permit | pkg/plugins/coscheduling/coscheduling.go:284-348 | non-gang pods pass; others wait, and join the table, while active + waiting + 1 is below the minimum, else the whole gang is released |
| Permit.Framework.Unreserve | pkg/plugins/coscheduling/coscheduling.go:357-375 | rejects every waiting member of the pod's gang |
| Permit.MembersAreCounted | pkg/plugins/coscheduling/coscheduling.go:442-455 | every waiting member is seen by the waiting count, under any mix of label schemes |
| Permit.FewerThanMinWaiting | pkg/plugins/coscheduling/coscheduling.go:300-310 | in every run a gang has fewer pods waiting than the largest minimum any of its pods asked for |
| Permit.ReleaseIsCompleteAndLocal | pkg/plugins/coscheduling/coscheduling.go:326-375 | after a Success for a gang pod (minimum above 1) or an Unreserve of a member none of the gang waits, and no other gang's waiting pods change |
| Permit.SuccessVouchesForMajority | pkg/plugins/coscheduling/coscheduling.go:297-310 | if waiting pods are listed live members, a Success means at least min / 2 + 1 distinct live members |
| Permit.MajorityIsAttained | pkg/plugins/coscheduling/coscheduling.go:284-348 | for every gang and minimum a run, each call on a listing that passes PreFilter, ends in a Success with exactly that many live members |
| Permit.WaitsOnlyForMissingMembers | pkg/plugins/coscheduling/coscheduling.go:417-422 | a pod waits exactly while the live members and the waiting ones, added up, are fewer than the minimum |
| Permit.LiveGangNeverWaits | pkg/plugins/coscheduling/coscheduling.go:261-310 | on a listing of live pods that satisfies PreFilter, Permit never answers Wait |
| Preemption.NeedsAreThoseOfAllMembers | pkg/plugins/preemption/gang_preemption.go:142-163 | the gang's need is what its minimum number of copies of the pod request together, resource by resource |
| Preemption.DemandIsTheSum | pkg/plugins/preemption/gang_preemption.go:142-163 | what a pod requests is the sum over its containers, resource by resource |
| Preemption.VictimTierByText | pkg/plugins/preemption/gang_preemption.go:370-391 | gold text ranks above silver and silver above everything else; the queue name decides if it mentions either, in any case, else the namespace does |
| Preemption.PreemptorTierByProfile | pkg/plugins/preemption/gang_preemption.go:358-367 | the preemptor ranks on the same scale by the letters of its profile tier, in any case |
| Preemption.EligibleExactly | pkg/plugins/preemption/gang_preemption.go:207-246 | a candidate is exactly a pod placed on a known node, outside the gang, and below it in tier, or level in tier and below in priority |
| Preemption.PrioritiesDecide | pkg/plugins/preemption/gang_preemption.go:178-246 | within a tier a victim needs a strictly lower priority, a missing one standing for 0 on either side |
| Preemption.SortCandidates | pkg/plugins/preemption/gang_preemption.go:276-287 | a permutation of the candidates in (tier, priority, CPU) order, ties in any order |
| Preemption.TakeUntilCovered | pkg/plugins/preemption/gang_preemption.go:289-320 | the shortest non-empty covering prefix, at most 50 long; nil exactly when there are no candidates or the first min(50, n) fall short |
| Preemption.FindPreemptionVictims | pkg/plugins/preemption/gang_preemption.go:178-321 | that choice over the ranked eligible pods of the listing; nil on a failed listing |
| Preemption.VictimsAreTheLowestEligible | pkg/plugins/preemption/gang_preemption.go:207-246 | every victim is listed, on a known node, outside the gang and strictly below it; a spared candidate is of a higher tier, or of the same and a higher priority, or of the same two and holds no less CPU |
| Preemption.FreedIsTheSum | pkg/plugins/preemption/gang_preemption.go:289-312 | each further victim adds what its containers request, resource by resource |
| Preemption.VictimsCoverTheNeed | pkg/plugins/preemption/gang_preemption.go:295-318 | the victims free enough CPU, memory and GPUs, and any shorter choice in that order falls short of one of them |
| Preemption.NilIsFinalUpToTheCap | pkg/plugins/preemption/gang_preemption.go:295-318 | with at most 50 candidates nil means no set of candidates frees enough |
| Preemption.NilIsWrongExactlyWhen | pkg/plugins/preemption/gang_preemption.go:295-318 | on a nil answer some non-empty set of candidates frees enough if and only if all candidates together do |
| PreemptionLimits.NilIsNotFinalBeyondTheCap | pkg/plugins/preemption/gang_preemption.go:201-318 | for any more than 50 distinct pod names and any admitted gang pod that requests CPU and may preempt in its namespace, a possible listing of such pods yields nil in every ranking although its last candidate alone frees the need |
| PreemptionLimits.NoPreemptionCycle | pkg/plugins/preemption/gang_preemption.go:184-246 | no chain of pods each named, on a possible listing, as a victim of the one before returns to its start when no profile tier outranks the pod's text tier |
| PreemptionLimits.CyclesExactlyWhenInconsistent | pkg/plugins/preemption/gang_preemption.go:184-387 | an admitted gang pod and its like of another name in another gang can each be named, on a possible listing, as a victim of the other if and only if its profile tier outranks its text tier |
| Preemption.SelectNominatedNode | pkg/plugins/preemption/gang_preemption.go:325-356 | names a node with the most freed CPU, and none exactly when no victim on a node frees CPU |
| GangPreemption.GangPreemptionPlugin.PostFilter | pkg/plugins/preemption/gang_preemption.go:77-133 | non-gang pods and gangs in cooldown change nothing, any other attempt is stamped before it can fail; past the cooldown it is the error exactly on a failed node listing, and with both listings it preempts exactly when there is a candidate and the first min(50, n) ranked ones cover the need, naming victims and node as above |
| GangPreemption.PassesAreSpaced | pkg/plugins/preemption/gang_preemption.go:87-96 | after n passes inside a window the last stamp is at least (n - 1) gaps past its start |
| GangPreemption.PreemptionRateIsBounded | pkg/plugins/preemption/gang_preemption.go:87-96 | in any window a gang passes at most floor(window / 30s) + 1 times and has at most 50 times as many victims named |
| GangPreemption.PreemptionRateIsAttained | pkg/plugins/preemption/gang_preemption.go:87-96 | for every gang and window some calls reach both bounds, so the cooldown is no stricter than 30 seconds |
| Reservations.OthersKeepsTheRest | pkg/plugins/resourcereservation/resourcereservation.go:613-621 | removing a finalizer drops all its occurrences and nothing else |
| Reservations.HasFinalizer | pkg/plugins/resourcereservation/resourcereservation.go:604-611 | membership |
| Reservations.RemoveFinalizer | pkg/plugins/resourcereservation/resourcereservation.go:613-621 | computes that removal |
| Reservations.IsGangComplete | pkg/plugins/resourcereservation/resourcereservation.go:455-483 | true exactly when the listing works and at least the minimum of distinct non-terminating members are bound and running |
| Reservations.IsGangCompleteOrExpired | pkg/plugins/resourcereservation/resourcereservation.go:717-739 | true exactly when the listing works and every listed member is bound and running |
| Reservations.ProgressOnFields | pkg/plugins/resourcereservation/resourcereservation.go:455-483 | both tests on the fields: enough distinct members with a node, running and not terminating; every listed member with a node and running |
| Reservations.ResourceReservationPlugin.PreFilter | pkg/plugins/resourcereservation/resourcereservation.go:167-202 | marks first, unmarks if creation reports an error, and reports success exactly for a non-gang pod or a marked gang |
| Reservations.ResourceReservationPlugin.CreateGangReservations | pkg/plugins/resourcereservation/resourcereservation.go:400-421 | stores a new protected object unless the call has no effect or one is there; succeeds exactly when create works, or reports the object and the fetch works |
| Reservations.ResourceReservationPlugin.RemoveReservation | pkg/plugins/resourcereservation/resourcereservation.go:508-519 | strips the finalizer if the update takes effect, then deletes; says what is left and whether the delete reported success, for every outcome of the two calls |
| Reservations.ResourceReservationPlugin.PostBind | pkg/plugins/resourcereservation/resourcereservation.go:296-322 | changes nothing until the gang is complete and listed, then removes its labelled objects and its mark |
| Reservations.ResourceReservationPlugin.CleanupExpired | pkg/plugins/resourcereservation/resourcereservation.go:655-713 | one gang's turn: removes its expired objects once all members run, and unmarks if some delete succeeded |
| ReservationRuns.StepKeepsPromiseExactly | pkg/plugins/resourcereservation/resourcereservation.go:694-708 | a step keeps "marked gangs have objects" if and only if it is not a stranding cleanup turn, whatever calls fail, with or without effect |
| ReservationRuns.PromiseHoldsExactly | pkg/plugins/resourcereservation/resourcereservation.go:180-192 | in every run the promise has held up to any state if and only if no step before it was such a turn |
| ReservationRuns.StrandedUntilForgotten | pkg/plugins/resourcereservation/resourcereservation.go:181-184 | a mark without object stays so through every step but a restart and a PostBind of the complete, listed gang |
| ReservationRuns.MarkedGangsHaveObjectsInEveryRun | pkg/plugins/resourcereservation/resourcereservation.go:181-192 | in every run every marked gang has its object, provided no delete takes effect where its update did not, no reply to a delete is lost, and nothing was being deleted at the start |
| ReservationRuns.FailedUpdateCanStrandTheMark | pkg/plugins/resourcereservation/resourcereservation.go:697-708 | a four-call run for any gang whose only failure is one update ends marked with an empty store |
| ReservationRuns.LostReplyCanStrandTheMark | pkg/plugins/resourcereservation/resourcereservation.go:702-708 | so does a two-call run whose only failure is the reply to one delete |
| ReservationRuns.PreFilterEstablishesPromise | pkg/plugins/resourcereservation/resourcereservation.go:180-192 | PreFilter marks exactly when create, or fetch of an existing object, works; otherwise no mark changes, and the store only by a create that took effect |
| ReservationRuns.PostBindUndoesPreFilter | pkg/plugins/resourcereservation/resourcereservation.go:314-321 | with working calls, completing the gang restores the state before its PreFilter |
| ReservationRuns.CleanupOnlyTouchesExpiredFinishedGangs | pkg/plugins/resourcereservation/resourcereservation.go:679-702 | as one step, cleanup touches only its gang's reservations older than 30 minutes, and only if every listed member has a node and runs (see ReservationInterleaving for what is left of this when the calls interleave) |
| ReservationRuns.PostBindOnlyTouchesCompleteGangs | pkg/plugins/resourcereservation/resourcereservation.go:308-317 | PostBind touches only its gang's reservations, and only with at least min distinct members that have a node, run and are not terminating |
| ReservationRuns.CreationTimeIsFixed | pkg/plugins/resourcereservation/resourcereservation.go:682-683 | an object's creation time is the same throughout its life |
| ReservationRuns.UnmarkedObjectStays | pkg/plugins/resourcereservation/resourcereservation.go:655-713 | the object of an unmarked gang stays as it is, and the gang unmarked, through every step but a PreFilter or PostBind of that gang |
| ReservationRuns.OrphanIsNeverCleanedUp | pkg/plugins/resourcereservation/resourcereservation.go:655-713 | so, over any stretch of a run without such a call, it is never cleaned up, whatever its age |
| ReservationRuns.FailedPostBindCanOrphanTheObject | pkg/plugins/resourcereservation/resourcereservation.go:506-523 | a two-call run gets there: PostBind unmarks although its update and its delete failed |
| ReservationInterleaving.SoundInEveryInterleaving | pkg/plugins/resourcereservation/resourcereservation.go:664-702 | in every interleaving a listed item equals the object while its version stands, a different object was made after the listing, and the cleanup strips only what has outlived the TTL |
| ReservationInterleaving.CleanupStripsOnlyWhatItListed | pkg/plugins/resourcereservation/resourcereservation.go:694-697 | if the cleanup's update changes anything, the object is the very one listed and older than 30 minutes |
| ReservationInterleaving.CleanupHitsYoungExactly | pkg/plugins/resourcereservation/resourcereservation.go:648-702 | in a turn shorter than the TTL, the cleanup's delete changes a young object exactly when the object is not the one listed and the call takes effect on it |
| ReservationInterleaving.CleanupInEveryInterleaving | pkg/plugins/resourcereservation/resourcereservation.go:679-702 | a young object changed by the cleanup is changed by its delete and was made after the listing; one removed had been stripped by PostBind |
| ReservationInterleaving.PostBindStripsOnlyWhatItListed | pkg/plugins/resourcereservation/resourcereservation.go:510-516 | if PostBind's update changes anything, the object is the very one listed |
| ReservationInterleaving.PostBindHitsAnotherExactly | pkg/plugins/resourcereservation/resourcereservation.go:496-519 | PostBind's delete changes another object than the listed one exactly when the name has changed hands and the call takes effect on it; that object was made after the listing, and is only marked while protected |
| ReservationInterleaving.ActionKeepsPromiseExactly | pkg/plugins/resourcereservation/resourcereservation.go:181-190 | a single call keeps "a marked gang has its object or a goroutine is about to create it or unmark" if and only if it does not strand the mark |
| ReservationInterleaving.PromiseHoldsExactly | pkg/plugins/resourcereservation/resourcereservation.go:180-192 | in every interleaving that has held up to any state if and only if no call before it stranded a mark |
| ReservationInterleaving.CleanupCanHitAReplacement | pkg/plugins/resourcereservation/resourcereservation.go:517-702 | with every call served and answered, a state is reached in which the cleanup's delete marks a young, protected object of a marked gang for deletion |
| ReservationInterleaving.PostBindCanHitAReplacement | pkg/plugins/resourcereservation/resourcereservation.go:496-519 | with every call served and answered, a state is reached in which PostBind's delete marks the protected object of a later PreFilter for deletion |
| ReservationInterleaving.MarkCanBeStrandedWithNoCallLost | pkg/plugins/resourcereservation/resourcereservation.go:697-708 | with every call served and answered, a state at rest is reached in which the gang is marked and has no object |
| ReservationInterleaving.UndisturbedRemovalIsRemove | pkg/plugins/resourcereservation/resourcereservation.go:694-708 | update and delete of a listed object with nobody in between leave and report what the one-step model says |
| ReservationInterleaving.UndisturbedPreFilterIsStep | pkg/plugins/resourcereservation/resourcereservation.go:167-202 | a PreFilter whose calls nobody interrupts is the one-step PreFilter, under every outcome of its calls |
| ReservationInterleaving.UndisturbedPostBindIsStep | pkg/plugins/resourcereservation/resourcereservation.go:308-322 | and so is an uninterrupted PostBind of the completed, listed gang |
| ReservationInterleaving.UndisturbedCleanupIsStep | pkg/plugins/resourcereservation/resourcereservation.go:655-713 | and an uninterrupted cleanup turn |
| FabricClique.GetGangMemberPods | pkg/plugins/networkfabric/networkfabric.go:427-452 | the placed pods of the gang in listing order; none on a failed listing |
| FabricClique.GetGangClique | pkg/plugins/networkfabric/networkfabric.go:248-263 | the clique of the first clique-bearing member |
| FabricClique.GangCliqueIsAnyMembers | pkg/plugins/networkfabric/networkfabric.go:248-263 | in a one-clique gang the answer is the clique of every clique-bearing member |
| FabricClique.StrictExactly | pkg/plugins/networkfabric/networkfabric.go:237-246 | clique filtering is asked for by the literal "true", or by "strict" in any case |
| FabricClique.OthersAreNotFiltered | pkg/plugins/networkfabric/networkfabric.go:190-204 | pods that do not ask for it, or are in no gang, pass every node |
| FabricClique.SlicesOnlyWithoutLabel | pkg/plugins/networkfabric/networkfabric.go:265-305 | a node's label settles its clique whatever its slices say; without one the slices count as the label |
| FabricClique.ListingOrderIsIrrelevant | pkg/plugins/networkfabric/networkfabric.go:248-263 | and does not depend on the listing order |
| FabricClique.FilterDecidesExactly | pkg/plugins/networkfabric/networkfabric.go:190-234 | a strict member may go to a node exactly when every clique-bearing member shares that node's clique |
| FabricClique.FilterDecidesOnLabels | pkg/plugins/networkfabric/networkfabric.go:190-234 | where every node is labelled, that reads: the nodes of all placed members carry the same label as this one |
| FabricClique.LaterMembersLandInTheClique | pkg/plugins/networkfabric/networkfabric.go:218-233 | once a member sits in a clique, the next placed member lands in it |
| FabricClique.OneCliqueInEveryRun | pkg/plugins/networkfabric/networkfabric.go:190-234 | in every run all clique-placed members of a strict gang share one clique |
| FabricClique.CalculateLocalityScore | pkg/plugins/networkfabric/networkfabric.go:456-543 | each level adds its weight, subtracts it or adds nothing according to which values the members' nodes carry |
| FabricClique.LevelsDecide | pkg/plugins/networkfabric/networkfabric.go:500-543 | the clique level is positive exactly when shared and negative exactly when members carry only others; the total stays within 100 either way and reaches it only by agreeing, or disagreeing, on all four levels |
| FabricClique.FilteredNodesNeverCrossCliques | pkg/plugins/networkfabric/networkfabric.go:502-511 | a node that passes Filter for a strict one-clique gang never gets the cross-clique penalty |
| GpuIslands.DetectGPUIsland | pkg/plugins/resourcefragmentation/fragmentationscore.go:251-326 | the island of a node: capacity, GPUs requested by pods on it, quality, pristine with label override, reserved tier |
| GpuIslands.FilterDecidesExactly | pkg/plugins/resourcefragmentation/fragmentationscore.go:90-130 | a GPU pod may go to a node exactly when the node is not overcommitted afterwards and the pod's tier is not below the reserved one |
| GpuIslands.ReservedIslandsAdmitExactly | pkg/plugins/resourcefragmentation/fragmentationscore.go:231-245 | gold islands admit gold, silver ones gold and silver, bronze and "unknown" ones all four named tiers, and any other reservation everybody |
| GpuIslands.IslandsStaySound | pkg/plugins/resourcefragmentation/fragmentationscore.go:90-130 | in every run no node's GPU requests exceed its capacity and no reserved node hosts a GPU pod of a lower tier |
| GpuIslands.UsedIslandScore | pkg/plugins/resourcefragmentation/fragmentationscore.go:164-204 | a used island that passes Filter scores above zero exactly when a workload penalty applies or fewer than 100 GPUs stay spare |
| GpuIslands.PenaltiesOnTheNode | pkg/plugins/resourcefragmentation/fragmentationscore.go:381-413 | the training and batch penalty applies exactly on used NVSwitch or NVLink islands of 8 or more for less than half of them, the interactive one exactly above three quarters in use |
| GpuIslands.TighterFitScoresHigherExactly | pkg/plugins/resourcefragmentation/fragmentationscore.go:191-203 | of two plain used islands the tighter scores no lower, unless it is an exact fit, at 90, and the other leaves one to nine spare |
| GpuIslands.UntouchedIslandsByWiring | pkg/plugins/resourcefragmentation/fragmentationscore.go:205-209 | an untouched island asked for less than half scores 30, 28, 25 or 23 by its wiring |
| GpuIslands.OtherPristineIslandsByUse | pkg/plugins/resourcefragmentation/fragmentationscore.go:211-216 | any other pristine island scores the percentage in use |
| GpuIslands.ScoreBesideGpus | pkg/plugins/resourcefragmentation/fragmentationscore.go:132-167 | without GPUs the CPU score stands; a tier kept out gets 10 |
| GpuIslands.SmallRequestsPreferUsedIslands | pkg/plugins/resourcefragmentation/fragmentationscore.go:132-216 | for at most 2 GPUs and no pristine labels, a used island beats every large pristine one exactly under that condition, whatever the workload |
| Vram.GetNodeGPUVRAM | pkg/plugins/vramscheduler/vramscheduler.go:674-692 | the loop's minimum over discovered devices, or the labels' figure |
| Vram.MinLoopIsMinimum | pkg/plugins/vramscheduler/vramscheduler.go:683-689 | on devices of known VRAM it is positive, a device's VRAM, and least |
| Vram.AnyChoiceSuffices | pkg/plugins/vramscheduler/vramscheduler.go:517-542 | if Filter passes on discovered devices, any choice of the requested number of them has total VRAM at least the request |
| Vram.AdequateChoiceExistsExactly | pkg/plugins/vramscheduler/vramscheduler.go:517-542 | if Filter passes on discovered devices, a choice of the requested number with that much VRAM exists if and only if the node has that many |
| Vram.ZeroDeviceSlipsThrough | pkg/plugins/vramscheduler/vramscheduler.go:685-689 | the hypothesis that discovered devices have known VRAM is needed: had one of several read zero, a passing request and an insufficient device would exist |
| Vram.UtilizationScoreMonotone | pkg/plugins/vramscheduler/vramscheduler.go:553-605 | higher utilisation never scores lower, and gold never above silver, silver never above bronze |
| Vram.PointsNeedUtilization | pkg/plugins/vramscheduler/vramscheduler.go:563-605 | the least utilisation for 100, 80, 60 and 30 points, tier by tier |
| Vram.RatedAt | pkg/plugins/vramscheduler/vramscheduler.go:252-290 | a surviving node is rated at the request over one GPU's VRAM if that holds it, else over all GPUs asked for |
| Vram.AdjustmentsByUtilization | pkg/plugins/vramscheduler/vramscheduler.go:289-313 | on one GPU high-end hardware adds 10 from 0.7 on, and a utilisation below 0.3 costs 20, within 0 and 100 |
| Vram.TopologyCountsForOneGpuFits | pkg/plugins/vramscheduler/vramscheduler.go:260-327 | a request spread over GPUs earns its points only; one that a single GPU holds adds the topology bonus, up to 100 |
| Vram.ScoreAgreesWithFilter | pkg/plugins/vramscheduler/vramscheduler.go:235-335 | for every request, negative ones too, Score takes its insufficient exit exactly where Filter rejects; surviving nodes have utilisation at most 1, positive exactly for a positive request, and a score in 0..100 |
| Vram.CheckLocality | pkg/plugins/vramscheduler/vramscheduler.go:432-501 | true exactly when k distinct devices share a known NUMA node, NVLink domain or PCIe switch |
| Vram.SameGroupExactly | pkg/plugins/vramscheduler/vramscheduler.go:432-501 | devices are together exactly when they name the same NUMA node, domain or switch, number 0 included |
| Vram.CheckNVLinkConnectivity | pkg/plugins/vramscheduler/vramscheduler.go:452-482 | true exactly when k > 1 devices share a domain or some device has k - 1 peers |
| Vram.CalculateGPUTopologyBonus | pkg/plugins/vramscheduler/vramscheduler.go:381-430 | the sum of the three bonuses over those set-level conditions |
| Vram.BonusTellsTheConditions | pkg/plugins/vramscheduler/vramscheduler.go:381-430 | the bonus is 50, 40, 35, 15, 10 or 0 exactly under the respective conditions, and 25 for NVLink alone or for NUMA node and switch |
| Vram.BonusNeverGrowsWithTheRequest | pkg/plugins/vramscheduler/vramscheduler.go:381-430 | from 2 GPUs on, a larger request never earns a larger bonus |
| Vram.BonusNeverShrinksWithDevices | pkg/plugins/vramscheduler/vramscheduler.go:381-430 | adding devices anywhere never shrinks the bonus |
| NumaTopology.ParseCPUList | pkg/plugins/numatopology/numatopology.go:544-577 | the CPUs of all pieces in order, or the outcome of the first piece that is malformed or never ends |
| NumaTopology.ListReturnsExactly | pkg/plugins/numatopology/numatopology.go:548-577 | a list yields CPUs exactly when all its pieces do, and the parser never returns exactly when a range ending at the largest int64 comes before anything malformed |
| NumaTopology.CPUListOfConcat | pkg/plugins/numatopology/numatopology.go:543-577 | parsing "a,b" is parse(a) and, where that yields CPUs, then parse(b) |
| NumaTopology.RangeIsInterval | pkg/plugins/numatopology/numatopology.go:568-570 | a range holds the consecutive CPUs from its start to its end, none when backward |
| NumaTopology.PrintedRangeParses | pkg/plugins/numatopology/numatopology.go:558-570 | a printed range "m-n" parses to the CPUs m to n, and is never left if m <= n and n is the largest int64 |
| NumaTopology.PrintedNumberParses | pkg/plugins/numatopology/numatopology.go:552-557 | a printed number parses to that CPU alone |
| NumaTopology.TrimSpaceExactly | pkg/plugins/numatopology/numatopology.go:550 | trimming takes spaces only, from the ends only, and leaves none there |
| NumaTopology.ParseNUMATopology | pkg/plugins/numatopology/numatopology.go:460-541 | error without a positive count or a usable node, no return if a CPU list has none, else the usable nodes |
| NumaTopology.NumaNodesAreTheLabelledOnes | pkg/plugins/numatopology/numatopology.go:474-534 | parsing returns exactly when no index has an endless CPU list, and then with exactly the nodes whose CPU and memory labels parse, each once, in id order |
| NumaTopology.GetPodResourceRequests | pkg/plugins/numatopology/numatopology.go:581-598 | the least whole number of cores covering the summed millicores, and the summed memory |
| NumaTopology.CanFitGPUsInNUMA | pkg/plugins/numatopology/numatopology.go:864-892 | true exactly when no GPUs are asked for or mapped, or enough distinct mapped GPUs sit on the node |
| NumaTopology.Filter | pkg/plugins/numatopology/numatopology.go:183-249 | under the strict policy with more than one parsed NUMA node, accepts exactly when one of them has the CPUs, memory and mapped GPUs; returns exactly when label parsing does or is not asked for |
| Webhook.EscapeRoundTrip | pkg/webhook/pod_mutation.go:300-306 | for every key, decoding the escaped token gives the key back, and the token holds no separator |
| Webhook.KeyPathTokens | pkg/webhook/pod_mutation.go:289-295 | for every key, the built path decodes to spec, nodeSelector and exactly that key |
| Webhook.RequestsGPUs | pkg/webhook/pod_mutation.go:245-264 | true exactly when some container requests or limits a non-zero amount of a known GPU resource |
| Webhook.Mutate | pkg/webhook/pod_mutation.go:102-211 | denies a missing request and a pod that does not decode, patches exactly GPU pods without a class in a namespace of known tier, allows the rest unchanged |
| Webhook.DeniedExactly | pkg/webhook/pod_mutation.go:118-128 | a pod is denied exactly when its root, spec, a selector entry or anything else does not decode |
| Webhook.SelectorEntriesRead | pkg/webhook/pod_mutation.go:118-128 | the selector entries seen are those of the document, a null read as empty |
| Webhook.PatchedExactly | pkg/webhook/pod_mutation.go:135-176 | a decoded pod is patched exactly when it asks for a non-zero amount of a known GPU resource, has no class, and its namespace's tier is gold, silver or bronze in any case |
| Webhook.ClassByTier | pkg/webhook/pod_mutation.go:230-242 | gold, silver and bronze, in any case, get h100, a100 and l4, and nothing else gets a class |
| Webhook.PatchAddsOnlyTheClass | pkg/webhook/pod_mutation.go:145-185 | the patch applies, adds only the GPU class, keeps every other selector entry and member, and a second mutate gives no patch |

## Left out

- Kubernetes clients, informers, REST, TLS, HTTP serving, metrics and logging.
- Profile and workload classification: tiers and workload types are inputs.
- Dynamic-resource-allocation and NFD discovery of GPU devices, and quantity parsing: the devices and requests are inputs.
- NUMA scoring and gang placement memory, backfill, workload-aware, tenant-hardware and topology-spread scoring: weighted or table-driven scores.
- The CPU/memory fragmentation score, workload and network-sensitivity adjustments of the fabric score, and formatBytes: single-function arithmetic.
- The contents of a reservation (one entry for each expected member), ResourceReservation's Filter and Reserve, which always answer Success for a pod that is not nil, and the unused newResourceReservation.
- Reservation objects of other writers, and finalizers of others in `ReservationInterleaving.dfy`; a request still in flight when the process restarts.
- Running out of memory on a long CPU range or a huge NUMA node count.
- Integer overflow of summed quantities, and the saturation of time differences beyond 292 years.
- Case-insensitive matching of JSON member names, and arrays inside patched documents.
- Reservations.ResourceReservationPlugin.CleanupExpired: models one tracked gang's turn; the loop over gangs is the run, and the lister is read once for each turn.
- Preemption.SortCandidates: fixes one sorting algorithm in its body; only its contract, which leaves ties open as sort.Slice does, is used.
- FabricClique.OneCliqueInEveryRun: node labels and the node list are fixed during a run, and list calls succeed; a failed list reads as an empty gang.
- GpuIslands.IslandsStaySound: list calls succeed during a run; a failed list counts nothing as allocated.
- ReservationInterleaving.SoundInEveryInterleaving: one gang, since gangs share neither object nor mark; what the pod lister says of the gang is an input of each call.
- CacheInterleaving.LedgerInEveryInterleaving: one queue thread, since the queue calls Less under its lock, and one cleanup goroutine.
