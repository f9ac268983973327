# k8s-sustain, modelled and proved

k8s-sustain right-sizes Kubernetes workloads. A controller computes, per Policy, a Recommendation of CPU and memory for
every identity (one workload, or several sharing an owner name), stores it as a WorkloadRecommendation, and resizes or
recycles the live pods; a webhook injects the stored Recommendation into new pods. This project models the parts of it
that must agree with each other, and proves what their comments and documentation promise of them.

`dafny verify dfyconfig.toml` checks everything.

| file | what it models |
|---|---|
| `Common.dfy`, `Arithmetic.dfy`, `Ordering.dfy` | shared vocabulary, integer arithmetic, sorting by string keys |
| `Resources.dfy`, `Plan.dfy`, `Recycle.dfy` | applying a Recommendation to a container, planning a pod under a tolerance, resizing and evicting pods |
| `MergePatch.dfy`, `Lifecycle.dfy`, `LifecycleRuns.dfy`, `Stamps.dfy`, `Deletion.dfy` | merge patches (section 2 of RFC 7386), the stored WorkloadRecommendation, every interleaving of its writers, how long it may be served, its deletion |
| `Policies.dfy`, `Governance.dfy` | who governs a pod or a template |
| `Lru.dfy`, `ReadThrough.dfy` | the TTL LRU and the single-flight read-through over it |
| `Publisher.dfy` | who owns which metric series |
| `Ledger.dfy` | retries, blocked members and health across passes |
| `OomCache.dfy` | the OOM kills the watcher saw, with the index by workload |
| `Shards.dfy`, `PromInputs.dfy` | packing queries, and reading every signal through them |
| `Sizing.dfy`, `Recommend.dfy`, `Span.dfy` | requests, limits, the recommendation chain, the history span |

Quantities are integers in thousandths of their unit (millicores, milli-bytes), times and durations integer nanoseconds,
cut to seconds where the API stores them, and the code's floats exact reals with its own ceilings and truncations.
Kubernetes, Prometheus and clocks are parameters: an oracle of answers, an instant, or an environment that may change
the store between any two requests. Concurrent code is a state machine over its atomic sections; each class method is
one such section, or a sequence of them under one lock, and is proved against the function the lemmas are about.

## Where code and promise differ

- A caller that missed the cache may still fetch again: it looked before the value was stored and joined after the
  flight was retired. `ReadThrough.MissedCallerMayFetchAgain` is such a run, `ReadThrough.JoinStartsFetchExactly` says
  when joining starts a fetch, and `ReadThrough.LaterCallersHit` is the promise that does hold.
- A pod's replacement may be stale again: the webhook leaves init containers out where the Policy says so, and the plan
  compares every sidecar its Recommendation names all the same (an identity's members may declare one name as a container
  and as a sidecar). `Plan.ReplacementsNeverStaleExactly` says when none can be, `Plan.ReplacementIsStaleExactly` of which
  pods it is, and `Plan.ExcludedSidecarStaysStale` gives one for each such Recommendation.
- Sharding is not determined when one identity is asked for at two sizes: `Shards.SharedIdentityPacksTwoWays` has two
  builds of one sequence of candidates, as the sort leaves members of one name in any order, and
  `Shards.TrioDeterminedExactly` says when a neighbour tells the two apart. With one size each the shards are determined,
  in any order of candidates (`Shards.OrderIsImmaterial`), and the fetcher asks for each identity once.
- A CPU request can fall as usage rises when `minAllowed` is written in a binary form and coordination scales it in whole
  cores: `Sizing.BinaryMinBreaksIt`. `Sizing.CpuMonotoneExactly` says for which settings it cannot, in integers.
- A repeat of the stored OOM kill refreshes nothing, so the time an OOM entry ages from may depend on arrival order:
  `OomCache.OrderDecidesObservation` gives two records and their two orders, and `OomCache.OrderImmaterialExactly` says for
  which records it does: those whose latest observation is of no kill observed at that time alone. The kill and the limit
  never do.
- An object still stored as live may be deleted as departed while it is injected: `Deletion.ExpiredLiveMayStillBeInjected`
  for every configuration whose retention ends before the staleness budget does, and for no other
  (`Deletion.ExpiredIsUninjectedExactly`).
- A stamp need not follow its formula once a party to a conflict has recorded from an object it read before others wrote.
  One swept and asked for again in between is left with a stamp and nothing to serve: `Stamps.PartyRecordStampsStub`.
  `Stamps.PartyRecordStampsExactly` says when such a record keeps the formula, whatever it had read and whatever is stored,
  `Stamps.GoverningWriteStampsExactly` when the governing Policy's own writes do, whatever parties recorded since it read the
  object, and `Stamps.RunStampsExactly` puts the two together over runs. Whose numbers are served does not depend on either
  (`LifecycleRuns.ServedIsWhatItsPolicyRecorded`).
- A container that declares a limit of zero has it raised by its own Recommendation, and only such a one does:
  `Recommend.RaisesOnlyDeclaredZero`.

## What the proofs lean on

- Pods have distinct container names, as the API server sees to: with a container and a sidecar of one name planning is no
  fixpoint (`Plan.SharedNameKeepsChanging`).
- A Policy's sweep and release are not interleaved with its own cycle: one worker reconciles a Policy at a time and does
  all three. A record that landed on the successor of a deleted object would store less than was decided unless nothing
  decided was there before (`LifecycleRuns.RecordOntoStubIsWholeExactly`), and the pod would be injected it
  (`LifecycleRuns.RecordOntoSuccessorServesAnother`).

## Model

| member | source | states |
|---|---|---|
| `Resources.AppliedPairwise` | internal/workload/inject.go:72-89 | applying a Recommendation treats CPU and memory each on its own and leaves every other resource alone |
| `Resources.AppliedIsAdmissible` | internal/workload/inject.go:79-87 | no CPU or memory request ends above its limit |
| `Resources.AppliedReachesAsk` | internal/workload/inject.go:72-89 | a request ends at what was asked and a limit at what was asked or the request, whichever is higher |
| `Resources.SetQuantity` | internal/workload/inject.go:104-115 | an absent quantity, or one equal in value, leaves the list alone |
| `Resources.ApplyLimit` | internal/workload/inject.go:119-125 | removal strips the limit, otherwise it is set like a quantity |
| `Resources.RaiseLimits` | internal/workload/inject.go:79-87 | each limit below its request, and no other, is raised to it and named |
| `Resources.ApplyTo` | internal/workload/inject.go:72-89 | editing a copy step by step comes to applying each resource on its own; changed exactly when a value differs |
| `Resources.AddWrites` | internal/workload/inject.go:47-67 | the loop over containers lists the writes and the recommendations of declared names, in order |
| `Resources.Inject` | internal/workload/inject.go:47-67 | what a pod is injected: regular containers, and init containers unless excluded |
| `Resources.WritesToMeaning` | internal/workload/inject.go:47-67 | a container is written exactly when its values change, once, with what applying sets |
| `Resources.NarrowedMeaning` | internal/workload/inject.go:47-67 | narrowing keeps exactly the recommendations of declared names |
| `Plan.ClampMeaning` | internal/workload/match.go:153-168 | the tolerance withholds decreases alone, of requests and of limits it does not remove |
| `Plan.WithheldExactly` | internal/workload/match.go:129-168 | each ask is withheld exactly when it is a decrease smaller than the floor or than so many hundredths of the current value, a limit only where it is not removed |
| `Plan.RequestChangeMeans` | internal/workload/match.go:36-45 | a container's requests change exactly when one asked differs in value from its own |
| `Plan.NoChangeMeans` | internal/workload/match.go:36-45 | and nothing does exactly when limits stay too, removal and the raise to the request counted |
| `Plan.ResourceSettles` | internal/workload/match.go:129-168 | a resource planned or injected once keeps its values when planned again |
| `Plan.PlanningIsFixpoint` | internal/workload/match.go:36-45 | what a plan applied is planned again as no change, withheld decreases, raised and removed limits included |
| `Plan.InjectedNeedsNoChange` | internal/workload/match.go:36-45 | a container injected without tolerance needs no change under any tolerance |
| `Plan.ClampRecsToTolerance` | internal/workload/match.go:174-191 | the loop over a pod's containers clamps each recommendation against its container |
| `Plan.PlanFor` | internal/workload/match.go:59-72 | the loop over regular and sidecar containers finds the largest change |
| `Plan.LargestChangeMeaning` | internal/workload/match.go:59-72 | no change exactly when no container changes, stale exactly when some container's request does |
| `Plan.StaleExactly` | internal/workload/match.go:59-78 | a pod counts stale exactly when a regular container or a sidecar of it has a request that differs by more than the tolerance |
| `Plan.PodPlanIsFixpoint` | internal/workload/match.go:59-72 | a pod resized by its own plan is planned again as no change |
| `Plan.PlanMeaning` | internal/workload/match.go:59-72 | with distinct names a plan comes to what each sidecar changes under the tolerance on its own, once the containers are settled |
| `Plan.ReplacementIsStaleExactly` | internal/webhook/decide.go:105 | an injected replacement is planned as no change, under every tolerance, unless init containers are excluded and a named sidecar would change as declared; it is stale exactly when that sidecar's requests would |
| `Plan.ExcludedSidecarStaysStale` | internal/workload/match.go:59-72 | an excluded sidecar the Recommendation asks a request of leaves some replacement stale |
| `Plan.ReplacementsNeverStaleExactly` | internal/workload/match.go:78-96 | no replacement is stale exactly when init containers are injected too or no sidecar is asked a request of |
| `Plan.SharedNameKeepsChanging` | internal/workload/match.go:174-191 | with a container and a sidecar of one name the second plan still changes a limit |
| `Recycle.ResizePendingReason` | internal/workload/patcher.go:222-236 | the reason of the last true resize condition that calls for one |
| `Recycle.VerdictMeans` | internal/workload/patcher.go:222-236 | the reason of the first pending resize, else an error of one in progress, else none |
| `Recycle.StagedMeans` | internal/workload/patcher.go:414-427 | requests are staged exactly where a regular container or a sidecar is enacted with other requests, or is not reported |
| `Recycle.Patched` | internal/workload/patcher.go:717-733 | carrying out the writes reaches the resized containers and names those that changed |
| `Recycle.Resized` | internal/workload/patcher.go:717-733 | the containers with the recommendations applied, and whether any changed |
| `Recycle.NoChangeLeavesNothing` | internal/workload/patcher.go:395-412 | a plan of no change leaves nothing to resize |
| `Recycle.SubmitEviction` | internal/workload/patcher.go:500-535 | an eviction is submitted only of a pod not held back and in a pass not halted |
| `Recycle.Inspect` | internal/workload/patcher.go:566-616 | one listing: a crash-looping pod, or whether the evicted pod is gone and none progresses |
| `Recycle.WaitForReplacement` | internal/workload/patcher.go:566-616 | the wait ends well only on a quiescent listing, and ends badly exactly at the first event that halts |
| `Recycle.WaitEndsExactly` | internal/workload/patcher.go:566-616 | it ends at the first listing with a crash loop, or without the evicted pod and with every live pod ready, at the first that fails, or after one for want of time or of a pass |
| `Recycle.ResizePodInPlace` | internal/workload/patcher.go:261-305 | which resizes and evictions are submitted, what is written, and the error, for every answer |
| `Recycle.UpdatedPodCrashLooping` | internal/workload/patcher.go:548-559 | halted exactly when a live pod already running the Recommendation crash-loops |
| `Recycle.CrashLoopHaltsEvictions` | internal/workload/patcher.go:548-559 | while a live pod already running the Recommendation crash-loops a pass evicts nothing |
| `Recycle.StaleCrashLoopHaltsNothing` | internal/workload/patcher.go:548-559 | and no crash loop of a stale pod, or of one no longer live, halts it |
| `Recycle.CountPods` | internal/workload/patcher.go:54-66 | the pods counted and the stale ones among them, those just fixed aside |
| `Recycle.CountsMean` | internal/workload/patcher.go:54-66 | all live pods are counted, and as stale those whose requests still change and that were not just fixed |
| `Recycle.TreatPod` | internal/workload/patcher.go:310-389 | one pod is planned, then resized, evicted or left, its submissions being what the apiserver answered |
| `Recycle.RecyclePod` | internal/workload/patcher.go:310-389 | one round keeps the discipline and waits out its own eviction |
| `Recycle.Recycle` | internal/workload/patcher.go:310-389 | against every sequence of answers, each event being what was answered once those before it had happened: after an eviction no other until a listing shows the pod gone and none progressing, none after an error, timeout, cancellation or crash loop, stopping early only there or at an eviction held back, and counting the pods exactly when nothing failed and nothing was held back |
| `Recycle.NextEvictionWaits` | internal/workload/patcher.go:380-384 | between an accepted eviction and the next lies a listing without the evicted pod in which every live pod is running, ready and not crash-looping |
| `Recycle.HaltsAtLast` | internal/workload/patcher.go:328-384 | nothing at all comes after an event that halts the pass |
| `Recycle.HeldBackExactly` | internal/workload/patcher.go:365-371 | a halted pass stops at the first eviction another would have submitted |
| `Recycle.ResultMeans` | internal/workload/patcher.go:146-163 | the pods reported evicted and resized are those with an accepted eviction or resize, each once |
| `Recycle.FailuresMean` | internal/workload/patcher.go:165-172 | a pass fails on a failed eviction or resize of regular containers, and a resize of sidecars fails none |
| `Recycle.InPlacePassEvictsExactly` | internal/workload/patcher.go:350-412 | an in-place pass not halted evicts a running pod it reached exactly when that may be evicted and its rejected resize was of requests, or its staged requests were judged Infeasible or failed |
| `Recycle.PassResizesExactly` | internal/workload/patcher.go:254-305 | which resizes a pass submits of each pod, and with what containers the pod is left |
| `Recycle.EvictionsAreWarranted` | internal/workload/patcher.go:310-412 | each pod is evicted at most once, never for limits alone, never in a halted pass |
| `Recycle.EvictionPassIsComplete` | internal/workload/patcher.go:310-389 | a finished pass submits an eviction of a pod it cannot resize in place, in-place mode or not, exactly when that is stale and may be evicted |
| `Recycle.ResizeInPlaceOnly` | internal/workload/patcher.go:177-209 | whatever the answers the in-place loop evicts nobody, resizes running pods as planned, and counts the pods as it left them |
| `Recycle.InPlaceOnlyResizesExactly` | internal/workload/patcher.go:241-305 | and resizes exactly what an evicting pass would have resized |
| `MergePatch.TableRoundTrip` | internal/wlrcache/write.go:88-100 | a patch applied to what it was computed from gives what was desired |
| `MergePatch.TableReachesExactly` | internal/wlrcache/write.go:88-100 | applied to anything else it does exactly where that has what was desired wherever the patch is silent |
| `MergePatch.AdditionsKeepEntries` | internal/wlrcache/write.go:88-100 | a patch that only adds keeps every stored entry, whatever is stored by then |
| `Lifecycle.DecodeEncode` | internal/wlrcache/read.go:113-119 | a Recommendation is served as it was stored |
| `Lifecycle.EquivalenceIsSymmetric` | internal/wlrcache/wlrcache.go:244-274 | comparing sizes and looking names up one way is equality both ways |
| `Lifecycle.EquivalentExactly` | internal/wlrcache/wlrcache.go:244-274 | two containers are equivalent exactly when every quantity has one value, unset counting zero, and every removal is the same |
| `Lifecycle.ObservedEqualExactly` | internal/wlrcache/wlrcache.go:217-237 | two snapshots are equal exactly when they name the same containers, each with the same values and kind |
| `Lifecycle.NothingToRequest` | internal/wlrcache/write.go:29-45 | where nothing is to be requested, the snapshot of an object the controller keeps no live view of has every container the pod runs |
| `Lifecycle.StampSurvivesStorage` | internal/wlrcache/wlrcache.go:128-158 | restamping a stored status gives the same second although storage truncates |
| `Lifecycle.InjectsExactly` | internal/wlrcache/read.go:75-111 | Read injects exactly a Policy's own unexpired numbers, on an object naming that Policy |
| `Lifecycle.RepeatedDecisionWritesNothing` | internal/wlrcache/write.go:247-279 | an unchanged decision repeated within the refresh interval writes nothing |
| `LifecycleRuns.PatchedObject` | internal/wlrcache/write.go:88-100 | a status patch from a view that differs in the snapshot alone gives exactly the status desired |
| `LifecycleRuns.RecordedObject` | internal/wlrcache/write.go:247-279 | what a record that writes stores, outcome by outcome |
| `LifecycleRuns.RequestAddsExactly` | internal/wlrcache/write.go:55-100 | a webhook's request stores each container of the pod its view lacks with every member given, keeps every other stored entry as it is, and changes nothing else, however stale the view |
| `LifecycleRuns.RequestedOnce` | internal/wlrcache/write.go:29-71 | from an up-to-date view it leaves the next such pod nothing to request |
| `LifecycleRuns.StubIsUndecided` | internal/wlrcache/write.go:72-81 | a stub names its Policy and holds nothing: its pods are undecided about, those of another Policy injected nothing |
| `LifecycleRuns.RecordedTime` | internal/wlrcache/write.go:254-266 | a Computed record moves the time of computation exactly when what it decides differs from what is stored or that time is ten minutes old |
| `LifecycleRuns.DeleteKeepsInv` | internal/wlrcache/delete.go:130-165 | a conditional delete removes only the version judged, and never an object a pass holds |
| `LifecycleRuns.PartyRecordKeepsNumbers` | internal/controller/recommendation_cache.go:60-82 | a Conflicted record by any party, however old what it read, leaves numbers, attribution, time and snapshot alone |
| `LifecycleRuns.StepKeepsInv` | internal/wlrcache/write.go:55-279 | every step of every writer, parties included, keeps whose numbers the stored object holds |
| `LifecycleRuns.RunKeepsInv` | internal/wlrcache/write.go:55-279 | so does every run |
| `LifecycleRuns.RecordedIsLast` | internal/wlrcache/write.go:247-279 | what the invariant speaks of is the last Computed record in the run's own steps |
| `LifecycleRuns.ServedIsWhatItsPolicyRecorded` | internal/wlrcache/read.go:75-101 | in every reachable state what Read injects is equivalent to that Policy's last Computed record into the object |
| `LifecycleRuns.NothingServedBeforeOwnRecord` | internal/wlrcache/read.go:75-101 | while the object holds nothing a Policy computed, as once adopted from another, nothing is injected for it until its own Computed record |
| `LifecycleRuns.EnsureClaimsObject` | internal/wlrcache/write.go:117-213 | an uninterrupted Ensure leaves the object claimed and hands it to Record as stored |
| `LifecycleRuns.EnsureCreatesObject` | internal/wlrcache/write.go:128-190 | where there is none it creates one of its Policy, with the snapshot given and nothing decided |
| `LifecycleRuns.RecordOntoStubIsWholeExactly` | internal/wlrcache/write.go:247-279 | a Computed record onto an empty successor stores what was decided exactly when no member decided is as it was known |
| `LifecycleRuns.RecordOntoSuccessorServesAnother` | internal/wlrcache/write.go:247-279 | and otherwise may be injected: why the model keeps a Policy's deletions out of its own cycle |
| `Stamps.PartyRecordStampsExactly` | internal/controller/recommendation_cache.go:60-82 | from any view onto any object a party's record keeps the stamp the formula's exactly when the windows agree, or a restamped object holds numbers of the view's time, or an unstamped or frozen view leaves the object in its window; and it says which objects end up stamped |
| `Stamps.GoverningWriteStampsExactly` | internal/wlrcache/write.go:117-279 | whatever parties did to the object since the cycle read it, Ensure's or Record's write keeps the formula exactly when a stamp it carries fits the window the object is left in, or the stamp already there does |
| `Stamps.StepStampsExactly` | internal/wlrcache/write.go:55-279 | a step of any writer stores nothing but stamps by the formula exactly when its write is of that kind |
| `Stamps.RunStampsExactly` | internal/wlrcache/write.go:55-279 | every version a run stores is stamped by the formula exactly when each of its writes is |
| `Stamps.StampFormula` | internal/wlrcache/wlrcache.go:128-149 | from any initial state that formula is: unset, or the second of the last computation plus the window the stored status selects |
| `Stamps.UpToDateRunIsSafe` | internal/controller/recommendation_cache.go:60-82 | parties that read what is still stored, outside a claim and its record, upset no stamp |
| `Stamps.OnlyComputedStamps` | internal/wlrcache/wlrcache.go:144-149 | only a Computed record moves the last computation, and besides it an unstamped object is stamped exactly by a party's record that carries a stamp |
| `Stamps.StampIsBounded` | internal/wlrcache/wlrcache.go:119-158 | in safe runs no stamp passes the last computation plus the longer window without a Computed record |
| `Stamps.PartyRecordStampsStub` | internal/controller/recommendation_cache.go:60-82 | onto a stub in place of a swept object a party's record stamps an object that holds nothing, which is served to nobody |
| `Stamps.OvertakenRecordStampsExactly` | internal/wlrcache/write.go:247-279 | where the party had read what the cycle did, the cycle's record keeps the formula exactly when the windows agree, nothing is stamped, or its patch carries outcome and stamp both or neither |
| `Stamps.ServedBetweenRecords` | internal/wlrcache/wlrcache.go:86-121 | with records at most a gap apart, and refresh interval, gap and a second within budget and retention, Read injects at every instant between, whatever safe records of parties, other outcomes, requests and claims come in between |
| `Stamps.FreshBetweenRecords` | internal/wlrcache/wlrcache.go:86-121 | while members agree the budget alone bounds the gap, and what is injected is fresh |
| `Stamps.BudgetCoversInterval` | internal/wlrcache/wlrcache.go:119-121 | a reconcile interval always satisfies that bound |
| `Deletion.ExpiredIsNotInjected` | internal/wlrcache/delete.go:52-67 | no object stored as Departed or Conflicted that Expired deletes is one Read would inject then |
| `Deletion.ExpiredLiveMayStillBeInjected` | internal/wlrcache/delete.go:52-67 | with a retention over before the staleness budget one still stored as live is |
| `Deletion.ExpiredIsUninjectedExactly` | internal/wlrcache/delete.go:52-67 | what is deleted as departed or conflicted is never injected exactly when retention lasts as many seconds as the staleness budget |
| `Deletion.DeleteWhere` | internal/wlrcache/delete.go:130-165 | under any writes in between, only listed versions judged expired are removed, and success leaves none |
| `Deletion.Sweep` | internal/wlrcache/delete.go:52-79 | what it removes names the Policy, is ten minutes old and not governed, and where Departed or Conflicted was created and last computed before retention; success leaves no version judged so, and with nobody else writing it removes nothing else |
| `Deletion.Release` | internal/wlrcache/delete.go:87-92 | success leaves none of the objects listed as naming the Policy undeleted, and with nobody else writing it removes nothing else |
| `Deletion.Reap` | internal/wlrcache/delete.go:98-111 | what it removes names a Policy that was not listed, success leaves no such version, and with nobody else writing it removes nothing else |
| `Policies.MatchesMeans` | internal/governance/policies.go:164-172 | it matches where every label it names has its value and every expression holds by its operator |
| `Policies.MatchedAlike` | internal/governance/policies.go:164-172 | labels that agree wherever a selector looks are matched alike |
| `Policies.GateIsSound` | internal/governance/policies.go:141-151 | the gate refuses exactly what every Policy refuses for a reason other than a selector that does not parse |
| `Policies.ConsentMeans` | internal/governance/policies.go:100-136 | consent and departed consent, as conditions on the stored Policy |
| `Policies.ParsesMeans` | internal/governance/policies.go:79-96 | a selector compiles exactly when it is well formed and its operators are known, In and NotIn having values and Exists and DoesNotExist none |
| `Policies.ModeMeans` | api/v1alpha1/policy_types.go:208-226 | each of seven kinds is managed in the mode of its own field, and no other kind is |
| `Policies.FindGateRefusal` | internal/governance/policies.go:141-151 | the loop that stops at the first Policy that may accept decides the same |
| `Policies.PolicyLister.Index` | internal/governance/policies.go:79-96 | reusing what was compiled for an unchanged version comes to compiling everything afresh |
| `Policies.PolicyLister.List` | internal/governance/policies.go:61-74 | a listing does not depend on earlier ones; an unbuilt lister and a failed list refuse |
| `Policies.CompiledAllIsCompiled` | internal/governance/policies.go:79-96 | a listing holds every Policy, compiled, under its own name |
| `Governance.GateOnlySaves` | internal/governance/governance.go:292-305 | when the gate refuses, the Policy the ungated walk would choose would not have consented |
| `Governance.GatedAgrees` | internal/governance/governance.go:159-213 | with a reader that answers, gated and ungated walks govern alike, and decide alike when the gate does not refuse |
| `Governance.WalkIsEager` | internal/governance/governance.go:153-213 | the lazy walk names a Policy, mode and identity exactly when, with everything read beforehand, they govern: a level's annotation names the Policy and no level up to it opts out or names another |
| `Governance.GovernedExactly` | internal/governance/governance.go:153-265 | a subject is governed exactly when the first level to say anything names a Policy and does not opt out, and that Policy exists, accepts the namespace and labels, and manages the kind in that mode |
| `Governance.OptedOutExactly` | internal/governance/governance.go:240-265 | the walk refuses with OptedOut exactly when the first level with either annotation opts out, whether or not it names a Policy too, a pod of no owner aside |
| `Governance.OptInIsReported` | internal/governance/governance.go:240-265 | a decision reports the Policy opted into and the level that names it, most specific first |
| `Governance.IdentityIsReported` | internal/governance/governance.go:173-181 | it reports the identity of the real owner, unless a controlled pod's own template decided against it or the gate refused before the owner was resolved |
| `Governance.DecidedOrRefused` | internal/governance/governance.go:231-238 | a decision has a Policy and its mode for the identity's kind, or a refusal |
| `Governance.OverrideNamesIdentity` | internal/workload/ownerref.go:176-198 | the override renames an identity exactly when valid and non-empty, keeps the kind, and makes a Pod of what has no owner |
| `Governance.LabelValueMeans` | internal/workload/ownerref.go:176-198 | a valid name has at most 63 characters, letters and digits, and dashes, underscores and dots inside |
| `Governance.AnsweredDecision` | internal/governance/governance.go:135-151 | a decision taken never depended on an answer that failed |
| `Governance.PodAndTemplateAlike` | internal/governance/governance.go:159-213 | a pod and its template are governed by one Policy, in one mode, under one identity, or neither is |
| `Governance.Walk.ReadPolicies` | internal/governance/governance.go:307-317 | the Policies are asked for once and remembered |
| `Governance.Walk.ReadOwner` | internal/governance/governance.go:319-329 | so is the owner |
| `Governance.Walk.Gate` | internal/governance/governance.go:295-305 | the gate runs once and a walk that passed it is not gated again |
| `Governance.Walk.WorkloadAnnotations` | internal/governance/governance.go:267-282 | the workload level, read from the real owner behind the gate |
| `Governance.Walk.NamespaceAnnotations` | internal/governance/governance.go:284-290 | the namespace level, read behind the gate |
| `Governance.Walk.OptIn` | internal/governance/governance.go:243-265 | the loop over levels finds the first deciding one |
| `Governance.Walk.DecideWalk` | internal/governance/governance.go:194-213 | the memoised walk decides as the pure one |
| `Governance.Decide` | internal/governance/governance.go:159-181 | every Reader method is called at most once |
| `Governance.ErrorsArePassedOn` | internal/governance/governance.go:135-138 | an error returned is one the reader gave |
| `Governance.DepartedIsGoverned` | internal/governance/governance.go:127-133 | a Departed identity is governed, under that identity and in the mode of its kind, exactly by the named Policy that exists, takes its namespace and manages its kind, and whose selector parses |
| `Lru.OperationsKeepAgreement` | internal/cache/lru.go:56-148 | list and map hold the same keys, none twice, within the size |
| `Lru.GetRefines` | internal/cache/lru.go:56-71 | a read answers as a map of last uses does, and counts as a use |
| `Lru.SetRefines` | internal/cache/lru.go:134-148 | a store evicts the key used longest ago, and only over the size |
| `Lru.DeleteRefines` | internal/cache/lru.go:122-132 | a delete removes the key from both |
| `Lru.FrontIsKept` | internal/cache/lru.go:134-148 | a store never evicts the key it stores |
| `Lru.ServedWhileFresh` | internal/cache/lru.go:56-92 | a stored value is served until it is older than asked for |
| `Lru.Cache.Get` | internal/cache/lru.go:56-71 | serves a fresh value and moves it to the front |
| `Lru.Cache.LastGoodWithin` | internal/cache/lru.go:78-92 | serves a value stored no longer ago than asked, expired or not |
| `Lru.Cache.Set` | internal/cache/lru.go:97-101 | stores, evicting over the size |
| `Lru.Cache.SetIfAbsent` | internal/cache/lru.go:107-116 | stores exactly when no fresh entry is there |
| `Lru.Cache.DeleteIf` | internal/cache/lru.go:122-132 | deletes exactly a stored value that matches |
| `ReadThrough.StepKeepsInv` | internal/cache/readthrough.go:73-134 | every step of callers, leaders and other users keeps the invariant |
| `ReadThrough.OneFetchPerKey` | internal/cache/readthrough.go:90-115 | at most one fetch of a key runs at a time |
| `ReadThrough.AnswersAreTheKeys` | internal/cache/readthrough.go:73-88 | an answer is a value fetched for the key or the own flight's result, a panic included |
| `ReadThrough.CachedWasFetched` | internal/cache/readthrough.go:104-115 | a cached value came from a fetch of its key that did not fail |
| `ReadThrough.FlightsAdvance` | internal/cache/readthrough.go:104-115 | nobody sends a flight back |
| `ReadThrough.LeaderAlwaysAdvances` | internal/cache/readthrough.go:104-134 | every flight, failed or panicked, is always a step closer to being closed, and registered exactly until retired |
| `ReadThrough.JoinStartsFetchExactly` | internal/cache/readthrough.go:90-100 | joining starts a fetch exactly when no flight of the key is still to be retired |
| `ReadThrough.LaterCallersHit` | internal/cache/readthrough.go:73-88 | while a stored value stays fresh and unevicted no caller that starts later fetches |
| `ReadThrough.MissedCallerMayFetchAgain` | internal/cache/readthrough.go:73-88 | a caller that missed earlier may |
| `ReadThrough.ReadThrough.LookUpEntry` | internal/cache/readthrough.go:73-88 | the first section of Get is the model's lookup |
| `ReadThrough.ReadThrough.JoinFlight` | internal/cache/readthrough.go:90-100 | joins the registered flight or registers a new one |
| `ReadThrough.ReadThrough.PublishResult` | internal/cache/readthrough.go:104-115 | fills the cache only from a fetch that did not fail, before the flight is retired |
| `ReadThrough.ReadThrough.RetireFlight` | internal/cache/readthrough.go:104-115 | takes the flight off its key |
| `ReadThrough.ReadThrough.Lead` | internal/cache/readthrough.go:104-134 | a leader's whole run closes its flight with its outcome and caches success alone |
| `Publisher.LiveIsDisjointUnion` | internal/controller/publisher.go:207-271 | the live series are the disjoint union of what owners track |
| `Publisher.DeletionSparesOthers` | internal/controller/publisher.go:224-244 | what a publication or a deletion leaves of other Policies' series and of identities still included is live as before, and nothing of an identity nobody includes |
| `Publisher.GaugesOf` | internal/controller/publisher.go:139-184 | the gauges a pass desires of an identity |
| `Publisher.CountersOf` | internal/controller/publisher.go:139-184 | the counters a pass adds to |
| `Publisher.Publisher.PublishIdentity` | internal/controller/publisher.go:139-184 | replaces an identity's gauges and adds to its counters |
| `Publisher.Publisher.DropLocked` | internal/controller/publisher.go:224-244 | deletes exactly the identities no Policy includes |
| `Publisher.Publisher.PublishIdentities` | internal/controller/publisher.go:95-135 | publishes each identity of a pass once and leaves the others |
| `Publisher.Publisher.Publish` | internal/controller/publisher.go:95-135 | leaves the Policy exactly the gauges it desires and the identities its pass included, and every other owner's series live as before |
| `Publisher.ContainersPublished` | internal/controller/publisher.go:95-135 | the Policy has a container's gauge exactly when a member of the pass has that container with that number, and its own four always |
| `Publisher.StatePublished` | internal/controller/publisher.go:139-184 | an identity has pod gauges exactly when it was measured and a retry state only of the step it is Blocked on |
| `Publisher.AutoscalerPublished` | internal/controller/publisher.go:139-184 | its autoscaler gauges are those of the autoscaler read, or as they were when none was read |
| `Publisher.CountersPublished` | internal/controller/publisher.go:139-184 | it has a counter once some pass had attempts, an age refusal or a mismatch to count |
| `Publisher.ReasonsPublished` | internal/controller/publisher.go:139-184 | and one for each reason recycling was suppressed for and each container a kill held memory up for |
| `Publisher.Publisher.Reconciled` | internal/controller/publisher.go:186-192 | counts a reconcile and keeps consistency |
| `Publisher.Publisher.ObservedOOM` | internal/controller/publisher.go:200-205 | counts a kill, and the Policy includes the identity until its next pass |
| `Publisher.Publisher.Forget` | internal/controller/publisher.go:209-220 | leaves no series of the Policy and none of an identity no Policy includes, and every other owner's live as before |
| `Ledger.BackoffIsDoubling` | internal/ledger/ledger.go:314-321 | the capped shift is doubling up to five minutes and never overflows 64 bits |
| `Ledger.PermanentMeans` | internal/ledger/ledger.go:328-359 | one refusal, or API status from 400 to 499 other than 404, 409 and 429, anywhere in an error's tree makes it permanent, and nothing else does |
| `Ledger.WrappingKeepsKind` | internal/ledger/ledger.go:328-359 | wrapping keeps what an error is and joining adds what the others are |
| `Ledger.FailureIsHistory` | internal/ledger/ledger.go:265-326 | a member's failure is that of its last result but skips: its step, permanent or not, how many transient failures end its results, and due their backoff after it |
| `Ledger.PodsAreHistory` | internal/ledger/ledger.go:268-286 | the counts remembered are those of the last pass that measured |
| `Ledger.RememberedExactly` | internal/ledger/ledger.go:268-286 | an entry exists exactly while there are counts or a failure to remember |
| `Ledger.EventsAreTransitions` | internal/ledger/ledger.go:297-326 | a permanent Warning exactly on entry into permanent failure, a retry's on every transient failure |
| `Ledger.HealthIsDetermined` | internal/ledger/health.go:37-71 | an identity's health does not depend on iteration order |
| `Ledger.CountsAdd` | internal/ledger/health.go:37-54 | one more claimed member adds its counts exactly where it was measured |
| `Ledger.StepAdds` | internal/ledger/health.go:37-54 | it changes no step unless it failed, and names it where it comes before every other that failed |
| `Ledger.HealthOfNone` | internal/ledger/health.go:37-54 | an identity without members counts nothing and is not Blocked |
| `Ledger.Ledger.MayRun` | internal/ledger/ledger.go:173-178 | a member waits only while its last transient failure backs off |
| `Ledger.Ledger.FailLocked` | internal/ledger/ledger.go:297-326 | a failure's entry and its Warning |
| `Ledger.Ledger.RecordLocked` | internal/ledger/ledger.go:267-286 | a result's entry, which agrees with the member's history |
| `Ledger.Ledger.ClaimedSet` | internal/ledger/health.go:19-26 | the members some Policy claims |
| `Ledger.Ledger.ClaimLocked` | internal/ledger/health.go:12-34 | claims are replaced, and exactly the members no Policy claims any more are forgotten |
| `Ledger.Ledger.ClaimedLocked` | internal/ledger/health.go:58-71 | the claimed members of an identity, each once, in key order |
| `Ledger.Ledger.HealthLocked` | internal/ledger/health.go:37-54 | counts summed over the set of claimed members, and the step of the first Blocked one in key order |
| `Ledger.Ledger.Settle` | internal/ledger/ledger.go:185-216 | each member's history grows by its results, in any order of identities, claims are replaced, nothing unclaimed is remembered, and the last Warning each member's results call for is given |
| `Ledger.OneResultEach` | internal/ledger/ledger.go:194-208 | a member reported once grows by that one result, whichever order the identities are taken in |
| `Ledger.Ledger.Forget` | internal/ledger/ledger.go:220-224 | drops a Policy's claims and what only it claimed |
| `Ledger.Ledger.RequeueAfter` | internal/ledger/ledger.go:231-263 | positive, at most the interval, at most the wait for any retry of a member the Policy claims or the floor, and one of these |
| `OomCache.StoredDescribes` | internal/oomwatch/cache.go:93-193 | a slot holds the first record of the latest kill, the largest limit, and the latest observation of anything but a repeat |
| `OomCache.OrderDecidesNeitherKillNorLimit` | internal/oomwatch/cache.go:93-152 | kill and limit do not depend on arrival order |
| `OomCache.OrderDecidesObservation` | internal/oomwatch/cache.go:129-141 | the observation time does: a repeat refreshes nothing |
| `OomCache.OrderImmaterialExactly` | internal/oomwatch/cache.go:129-152 | it does not depend on order exactly when some kill was observed at the latest time in all its records |
| `OomCache.Cache.Record` | internal/oomwatch/cache.go:125-169 | merges into the slot, evicts the oldest only for a new key at the cap, reports exactly repeats of the stored kill |
| `OomCache.Cache.EvictOldestLocked` | internal/oomwatch/cache.go:350-364 | the scan drops an entry observed no later than any other |
| `OomCache.Cache.DeleteEntryLocked` | internal/oomwatch/cache.go:387-390 | index and entries stay in step |
| `OomCache.Cache.DeleteIfStaleLocked` | internal/oomwatch/cache.go:396-404 | deletes exactly a stale entry |
| `OomCache.Cache.Scan` | internal/oomwatch/cache.go:240-259 | the index gives what a full scan for fresh entries gives |
| `OomCache.Cache.Purge` | internal/oomwatch/cache.go:261-269 | from any state in between, deletes exactly the keys that are stale at deletion |
| `OomCache.Cache.ByWorkload` | internal/oomwatch/cache.go:240-269 | both phases together |
| `OomCache.Cache.Sweep` | internal/oomwatch/cache.go:307-323 | drops exactly what is older than the TTL |
| `OomCache.Cache.MarkResolved` | internal/oomwatch/cache.go:211-229 | marks a kill handled within the cap, evicting the oldest mark, and no other, only for a new one |
| `OomCache.Cache.AlreadyResolved` | internal/oomwatch/cache.go:195-209 | a kill is handled exactly while it was last marked within the TTL and its mark was not evicted since, on a clock that does not run back |
| `Shards.PackingIsUnique` | internal/prometheus/shard.go:125-142 | members have one packing into chunks that fit, each closed only when the next member would not |
| `Shards.PackGroup` | internal/prometheus/shard.go:121-143 | the accumulating loop produces it |
| `Shards.GroupAll` | internal/prometheus/shard.go:95-115 | the candidates by namespace and kind, the malformed ones set aside in order |
| `Shards.BuildShards` | internal/prometheus/shard.go:85-146 | groups in key order, members in name order, packed |
| `Shards.Conservation` | internal/prometheus/shard.go:85-146 | every queryable identity is in the shards as often as asked for, and no other |
| `Shards.SplitExactly` | internal/prometheus/shard.go:95-115 | each candidate is queried or set aside, the latter exactly where a part of its identity is missing |
| `Shards.EveryShardFits` | internal/prometheus/shard.go:73-84 | each shard has one name or stays within the budget, and never more than 1000 |
| `Shards.ShardsAreFull` | internal/prometheus/shard.go:116-143 | shards come by namespace and kind, and a group's next is opened only by a member the one before could not have taken |
| `Shards.NamesAscend` | internal/prometheus/shard.go:116-143 | the names of a shard come in order |
| `Shards.ExactlyOneShard` | internal/prometheus/shard.go:79-84 | with distinct identities each is in exactly one shard, of its namespace and kind |
| `Shards.OrderIsImmaterial` | internal/prometheus/shard.go:79-84 | with no identity at two sizes there is one outcome, whatever the order of candidates |
| `Shards.SharedIdentityPacksTwoWays` | internal/prometheus/shard.go:121-143 | with one at two sizes one sequence of candidates may come to two outcomes |
| `Shards.TrioDeterminedExactly` | internal/prometheus/shard.go:121-143 | beside a neighbour it has one outcome exactly unless its two requests never share a shard and the neighbour fits with only one |
| `PromInputs.SplitRequests` | internal/recommender/prom_inputs.go:210-225 | the first request of each identity, by whether its size is known |
| `PromInputs.Plan` | internal/recommender/prom_inputs.go:210-239 | each queryable identity in one shard once, unsized ones alone, every shard within the budget |
| `PromInputs.NoBudgetSeparates` | internal/recommender/prom_inputs.go:41-46 | without a budget every identity is queried on its own |
| `PromInputs.FailsOnlyAlone` | internal/recommender/prom_inputs.go:241-244 | without cancellation an identity fails exactly when its shard's two queries and both of its own did |
| `PromInputs.FirstSuccessAnswers` | internal/recommender/prom_inputs.go:255-307 | without cancellation an identity's samples are those of the first of its queries to succeed |
| `PromInputs.CancellationStops` | internal/recommender/prom_inputs.go:279-307 | a context cancelled before the retry or before falling back ends the queries with the last error there was |
| `PromInputs.InputsMean` | internal/recommender/prom_inputs.go:53-89 | an identity's inputs are its shards' samples of each signal; CPU fails it before memory does, and the kill floor never does |
| `PromInputs.ApplyAll` | internal/recommender/prom_inputs.go:255-266 | a shard's answer is applied to each of its identities once |
| `PromInputs.FallBack` | internal/recommender/prom_inputs.go:294-306 | a failed shard's identities are read or reported one at a time |
| `PromInputs.SettleShard` | internal/recommender/prom_inputs.go:279-307 | one shard settles its identities and touches no other |
| `PromInputs.EachShard` | internal/recommender/prom_inputs.go:245-311 | in any order of shards each planned identity is applied exactly once or reported failed, never both |
| `PromInputs.ReadSignal` | internal/recommender/prom_inputs.go:183-199 | one signal over its own plan |
| `PromInputs.FetchInputs` | internal/recommender/prom_inputs.go:53-89 | one answer per identity asked for: the first required signal that failed, or its inputs without what best effort missed |
| `Sizing.HeadroomMonotone` | internal/recommender/recommender.go:92-108 | headroom keeps order and the hard minimum |
| `Sizing.CpuHeadroomIsLeast` | internal/recommender/recommender.go:92-100 | the fewest whole millicores, one at least, that hold the value and its headroom |
| `Sizing.MemoryHeadroomIsLeast` | internal/recommender/recommender.go:101-108 | the fewest whole MiB, one at least, that hold the bytes, cut to a byte after headroom |
| `Sizing.ClampBounds` | internal/recommender/recommender.go:126-134 | a clamped quantity is at the maximum when above it or the bounds conflict, else at the minimum when below it, else left alone |
| `Sizing.RequestInBounds` | internal/recommender/coordination.go:125-144 | whatever coordination does, the request is within the bounds |
| `Sizing.RequestIsStaged` | internal/recommender/coordination.go:125-144 | headroom within the bounds, then with an autoscaler the resource's own target, for CPU the replicas, and the bounds again |
| `Sizing.NothingToCoordinate` | internal/recommender/coordination.go:34-68 | a missing target or no replica budget leaves a quantity as it is |
| `Sizing.ReplicasIsLeast` | internal/recommender/coordination.go:75-77 | the replica factor brings a quantity to the fewest thousandths that hold it |
| `Sizing.OverheadMonotone` | internal/recommender/coordination.go:34-48 | the overhead keeps order, also from thousandths to whole units |
| `Sizing.OverheadIsLeast` | internal/recommender/coordination.go:34-48 | the least quantity of its unit that is 110 parts for every part of the target |
| `Sizing.ReplicaFactorMeans` | internal/recommender/coordination.go:55-78 | current over targeted replicas within a factor of two, the target within range and half a replica of the anchor's share |
| `Sizing.CpuMonotoneExactly` | internal/recommender/compute.go:239-284 | CPU requests grow with usage exactly unless minAllowed is binary, above a millicore and coordinated, and its overhead in whole cores, replicas applied, passes both the overhead in millicores and itself below maxAllowed |
| `Sizing.DecimalMinIsMonotone` | internal/recommender/coordination.go:34-48 | so they do with a minAllowed in decimal form, or without a CPU target |
| `Sizing.BinaryMinBreaksIt` | internal/recommender/coordination.go:34-48 | and do not with a minAllowed of 1Ki cores under a 70% target |
| `Sizing.MemoryIsMonotone` | internal/recommender/compute.go:239-284 | memory requests always grow with their value |
| `Recommend.WithLiveOoms` | internal/recommender/signal_oom.go:359-390 | exactly the kills that had happened and were seen within the window are merged, the higher limit standing |
| `Recommend.CountsExactly` | internal/recommender/signal_oom.go:359-390 | a kill counts when seen within half an hour and dead by the instant computed for, by the kubelet's time or else by when it was seen |
| `Recommend.FloorIsHighestAnchor` | internal/recommender/signal_oom.go:103-114 | the floor is one of the anchors there are and no lower than any |
| `Recommend.LiveKillRaises` | internal/recommender/signal_oom.go:67-86 | a kill the watcher saw never lowers the floor |
| `Recommend.RequestOf` | internal/recommender/compute.go:270-284 | the highest base contribution, the first of a tie, then an adjuster above it |
| `Recommend.CombinedMonotone` | internal/recommender/compute.go:270-284 | contributions no lower come to a value no lower |
| `Recommend.LimitChain` | internal/recommender/limit.go:58-83 | the loop over adjusters and the guard come to the strategy's limit raised and guarded |
| `Recommend.RaisedOnlyRaises` | internal/recommender/limit.go:64-72 | adjusters never add, strip or lower a limit |
| `Recommend.LimitCoversRequest` | internal/recommender/limit.go:52-83 | under all five strategies a limit is absent, stripped, or at least the request |
| `Recommend.StrategiesMean` | internal/recommender/limit.go:102-179 | what each strategy comes to: the request, none, the container's own, or the least limit at the ratio, the request where that is higher |
| `Recommend.Size` | internal/recommender/compute.go:239-268 | a request and a limit for a resource some signal justifies, none when kept: CPU from CPU usage, memory from memory usage or a recent kill's floor where higher |
| `Recommend.SizedWithinBounds` | internal/recommender/compute.go:239-268 | a sized request is within minAllowed and maxAllowed |
| `Recommend.RequestsGrow` | internal/recommender/compute.go:239-284 | higher usage, peak or limit at a kill, or a sample, peak or kill newly there, never lowers a request, for CPU under the condition above |
| `Recommend.RaisesOnlyDeclaredZero` | internal/recommender/limit.go:52-83 | injecting into the same container raises a sized resource's limit exactly where a strategy that keeps the limit, or its ratio, meets a declared zero |
| `Recommend.InjectingRaisesNothing` | internal/workload/inject.go:79-87 | with no declared zero, and own limits that cover own requests, injecting raises no limit at all |
| `Recommend.IsTooYoung` | internal/recommender/compute.go:50-60 | younger than the gate, dated, and not excused by a recent kill |
| `Recommend.Compute` | internal/recommender/compute.go:143-166 | every container's recommendation, each resource from its own signals and settings, and the outcome |
| `Recommend.ComputedFromOwnSignals` | internal/recommender/compute.go:168-268 | CPU is sized from the container's CPU usage, memory from its memory usage or the floor of a recent kill where higher, each under its own settings beside the container's own request and limit, and not where there is neither or the Policy keeps the request |
| `Recommend.RecommendedExactly` | internal/recommender/compute.go:168-191 | a container is recommended exactly when some signal justifies it, with what its own chain gives |
| `Recommend.KillExcusesAge` | internal/recommender/signal_oom.go:187-196 | a recent kill whose memory is known gets a recommendation at any age |
| `Span.StepIsLeast` | internal/recommender/history.go:30-40 | the step is the least multiple of the hint, at least a second, that reads the range at 300 instants |
| `Span.SpanCoversRange` | internal/recommender/history.go:30-50 | the span ends at the end, starts within a step after the start, and has at most 300 instants |
| `Span.IndexOfInstant` | internal/recommender/history.go:48-56 | each instant's index is its own |
| `Span.IndexIsNearest` | internal/recommender/history.go:53-56 | an accepted time maps to an instant within half a step |
| `Span.IndexRefusesOutside` | internal/recommender/history.go:53-56 | a time is refused exactly beyond half a step outside |

## Left out

- Kubernetes clients, informers, HTTP and TLS, Prometheus transport, PromQL and recording rules, the dashboard: oracles and parameters stand for them.
- Names of stored objects (a hash, truncated) and collisions between them: an object is found by its identity.
- Explanations: traces, logs, event texts and metric values. Of a metric only which series exist and who owns them is modelled.
- Float rounding, 64-bit overflow of quantities, and quantities finer than a thousandth of their unit.
- Sharing of memory: a published record, a compiled selector or a cached Policy is held by value, so nothing is said about a caller that modifies one it was lent.
- The order in which a pass treats its pods (sortPodsForRecycle): what is proved of a pass holds for every order; pods are told apart by their place rather than their UID.
- Reading the autoscalers and the containers of an identity's members, and a history's per-instant reads beyond its span.
- `Deletion.Reap`: says nothing about a Policy created again under a name it found missing, as the code does not.
- `LifecycleRuns.ServedIsWhatItsPolicyRecorded`: takes the governing Policies' cycles one after the other; two Policies that both take themselves to govern, from snapshots of different times, are not modelled, and neither is a reap of a Policy deleted by force while its pass goes on.
- `LifecycleRuns.EnsureClaimsObject`: the cycle's read of an object that names its Policy already may lag in snapshot and revision alone; a status from before the Policy's own last write is not modelled.
- `PromInputs.EachShard`: shards settle one after the other in any order, while the code runs several at once; what each leaves depends on its own answers alone.
- `Shards.OrderIsImmaterial`: one size for each identity is enough but not always needed; `Shards.TrioDeterminedExactly` is exact for one identity asked for twice beside one neighbour, and beyond that the condition is one on which sums of sizes fit the budget.
- `Shards.SortMembers`: members sharing a name may come in any order, as an unstable sort leaves them, and nothing proved depends on which.
- Whether a label's key and value are well formed is a property a selector carries, not parsed.
