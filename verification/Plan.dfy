/** Planning a pod: what is withheld, what changes, and why planning again changes nothing (internal/workload/match.go). */
module Plan {
  import opened Common
  import opened Resources

  datatype Phase = Pending | Running | Succeeded | Failed | Unknown

  /** A pod condition whose status is True. */
  datatype Condition = Ready | ResizePending(reason: string) | ResizeInProgress(reason: string) | OtherCondition

  datatype Pod = Pod(
    name: string,
    uid: string,
    phase: Phase,
    deleting: bool,
    safeToEvictFalse: bool,
    crashLooping: bool,
    conditions: seq<Condition>,
    containers: seq<Container>,
    initContainers: seq<Container>,
    // as reported in the status, by container name
    enacted: map<string, Requirements>)

  /** Compared by `Rank`, a pod's change being the `Larger` of its containers'. */
  datatype Change = NoChange | LimitChange | RequestChange {
    function Rank(): nat {
      match this
      case NoChange => 0
      case LimitChange => 1
      case RequestChange => 2
    }
  }

  function Larger(a: Change, b: Change): Change {
    if a.Rank() >= b.Rank() then a else b
  }

  datatype Tolerance = Tolerance(cpuPercent: int, cpuFloor: Quantity, memPercent: int, memFloor: Quantity)

  function PercentOf(tol: Tolerance, name: ResourceName): int {
    if name.Memory? then tol.memPercent else tol.cpuPercent
  }

  function FloorOf(tol: Tolerance, name: ResourceName): Quantity {
    if name.Memory? then tol.memFloor else tol.cpuFloor
  }

  /** What applying `rec` changes in a container's values. */
  function ContainerChange(current: Requirements, rec: ContainerRecommendation): Change {
    var out := Applied(current, rec);
    if ValueEqual(current, out) then NoChange
    else if !SameRequests(current, out) then RequestChange
    else LimitChange
  }

  /** A container's requests change exactly when one asked of it has another value than its own. */
  lemma RequestChangeMeans(current: Requirements, rec: ContainerRecommendation)
    ensures ContainerChange(current, rec) == RequestChange <==>
            || (rec.cpuRequest.Some? && rec.cpuRequest.value != Value(Get(current.requests, Cpu)))
            || (rec.memoryRequest.Some? && rec.memoryRequest.value != Value(Get(current.requests, Memory)))
  {
    AppliedReachesAsk(current, rec, Cpu);
    AppliedReachesAsk(current, rec, Memory);
    var out := Applied(current, rec);
    assert Get(out.requests, Cpu) == PairOf(out, Cpu).request && Get(out.requests, Memory) == PairOf(out, Memory).request;
  }

  /** Where its request stays, what is asked of a limit leaves its value, being raised to the request included. */
  predicate LimitStays(request: Option<Quantity>, limit: Option<Quantity>, asked: Option<Quantity>, remove: bool) {
    if remove then limit.None? || limit.value == 0
    else if asked.None? || asked.value == Value(limit) then
      !(request.Some? && limit.Some? && request.value > limit.value)
    else
      request.Some? && request.value > asked.value && request.value == Value(limit)
  }

  /** And nothing changes exactly when neither requests nor limits do. */
  lemma NoChangeMeans(current: Requirements, rec: ContainerRecommendation)
    ensures ContainerChange(current, rec) == NoChange <==>
            && (rec.cpuRequest.Some? ==> rec.cpuRequest.value == Value(Get(current.requests, Cpu)))
            && (rec.memoryRequest.Some? ==> rec.memoryRequest.value == Value(Get(current.requests, Memory)))
            && LimitStays(Get(current.requests, Cpu), Get(current.limits, Cpu), rec.cpuLimit, rec.removeCpuLimit)
            && LimitStays(Get(current.requests, Memory), Get(current.limits, Memory), rec.memoryLimit, rec.removeMemoryLimit)
  {
    RequestChangeMeans(current, rec);
    var out := Applied(current, rec);
    AppliedPairwise(current, rec, Cpu);
    AppliedPairwise(current, rec, Memory);
    assert Get(out.limits, Cpu) == PairOf(out, Cpu).limit && Get(out.limits, Memory) == PairOf(out, Memory).limit;
    if ContainerChange(current, rec) != RequestChange {
      PairStays(PairOf(current, Cpu), AskOf(rec, Cpu));
      PairStays(PairOf(current, Memory), AskOf(rec, Memory));
    }
  }

  lemma PairStays(own: Pair, ask: Ask)
    requires ask.request.Some? ==> ask.request.value == Value(own.request)
    ensures Value(AppliedPair(own, ask).limit) == Value(own.limit) <==> LimitStays(own.request, own.limit, ask.limit, ask.removeLimit)
  {
  }

  /** The decrease the tolerance leaves alone: below `percent` of the current value, or below the floor. */
  function Band(current: Quantity, percent: int, floor: Quantity): Quantity {
    var band := Quo(current, 100) * percent;
    if floor > band then floor else band
  }

  predicate WithinDecrease(current: Option<Quantity>, rec: Option<Quantity>, percent: int, floor: Quantity) {
    && rec.Some?
    && var delta := Value(current) - rec.value;
       delta > 0 && delta < Band(Value(current), percent, floor)
  }

  /** What the tolerance leaves of `ask`: a withheld decrease is cleared, a limit removal never is. */
  function ClampAsk(own: Pair, ask: Ask, percent: int, floor: Quantity): Ask {
    Ask(
      if WithinDecrease(own.request, ask.request, percent, floor) then None else ask.request,
      if !ask.removeLimit && WithinDecrease(own.limit, ask.limit, percent, floor) then None else ask.limit,
      ask.removeLimit)
  }

  function ClampDecreaseToTolerance(current: Requirements, rec: ContainerRecommendation, tol: Tolerance)
    : ContainerRecommendation
  {
    var cpu := ClampAsk(PairOf(current, Cpu), AskOf(rec, Cpu), tol.cpuPercent, tol.cpuFloor);
    var memory := ClampAsk(PairOf(current, Memory), AskOf(rec, Memory), tol.memPercent, tol.memFloor);
    ContainerRecommendation(cpu.request, memory.request, cpu.limit, memory.limit,
                            rec.removeCpuLimit, rec.removeMemoryLimit)
  }

  /** Clearing decreases withholds exactly the ones within the band, and lets everything else through. */
  lemma ClampMeaning(current: Requirements, rec: ContainerRecommendation, tol: Tolerance, name: ResourceName)
    requires !name.Other?
    ensures var own, ask := PairOf(current, name), AskOf(rec, name);
            var kept := AskOf(ClampDecreaseToTolerance(current, rec, tol), name);
            && kept == ClampAsk(own, ask, PercentOf(tol, name), FloorOf(tol, name))
            && kept.removeLimit == ask.removeLimit
            && (kept.request != ask.request ==> ask.request.Some? && ask.request.value < Value(own.request))
            && (kept.limit != ask.limit ==> !ask.removeLimit && ask.limit.Some? && ask.limit.value < Value(own.limit))
  {
  }

  /** A decrease smaller than the floor, or than so many hundredths of the current value, each hundredth cut to a thousandth. */
  predicate SmallDecrease(own: Quantity, asked: Option<Quantity>, percent: int, floor: Quantity) {
    && asked.Some? && asked.value < own
    && (own - asked.value < floor || own - asked.value < (if own >= 0 then own / 100 else -((-own) / 100)) * percent)
  }

  /**
   * Each of a container's four asks is withheld exactly when it is a small decrease under its own resource's percentage
   * and floor, of a limit only where that is not removed, and no ask changes otherwise.
   */
  lemma WithheldExactly(current: Requirements, rec: ContainerRecommendation, tol: Tolerance)
    ensures var out, r, l := ClampDecreaseToTolerance(current, rec, tol), current.requests, current.limits;
            && out.cpuRequest == (if SmallDecrease(Value(Get(r, Cpu)), rec.cpuRequest, tol.cpuPercent, tol.cpuFloor) then None
                                  else rec.cpuRequest)
            && out.memoryRequest == (if SmallDecrease(Value(Get(r, Memory)), rec.memoryRequest, tol.memPercent, tol.memFloor) then None
                                     else rec.memoryRequest)
            && out.cpuLimit == (if !rec.removeCpuLimit && SmallDecrease(Value(Get(l, Cpu)), rec.cpuLimit, tol.cpuPercent, tol.cpuFloor)
                                then None else rec.cpuLimit)
            && out.memoryLimit == (if !rec.removeMemoryLimit &&
                                      SmallDecrease(Value(Get(l, Memory)), rec.memoryLimit, tol.memPercent, tol.memFloor)
                                   then None else rec.memoryLimit)
            && out.removeCpuLimit == rec.removeCpuLimit && out.removeMemoryLimit == rec.removeMemoryLimit
  {
    SmallIsWithin(Get(current.requests, Cpu), rec.cpuRequest, tol.cpuPercent, tol.cpuFloor);
    SmallIsWithin(Get(current.requests, Memory), rec.memoryRequest, tol.memPercent, tol.memFloor);
    SmallIsWithin(Get(current.limits, Cpu), rec.cpuLimit, tol.cpuPercent, tol.cpuFloor);
    SmallIsWithin(Get(current.limits, Memory), rec.memoryLimit, tol.memPercent, tol.memFloor);
  }

  lemma SmallIsWithin(own: Option<Quantity>, asked: Option<Quantity>, percent: int, floor: Quantity)
    ensures SmallDecrease(Value(own), asked, percent, floor) <==> WithinDecrease(own, asked, percent, floor)
  {
  }

  /**
   * One resource is settled after one application: asking the same again, under any tolerance the first one either
   * used or went without, leaves both values where they are.
   */
  lemma PairSettles(own: Pair, ask: Ask, percent: int, floor: Quantity, clamped: bool)
    ensures var first := AppliedPair(own, if clamped then ClampAsk(own, ask, percent, floor) else ask);
            var again := AppliedPair(first, ClampAsk(first, ask, percent, floor));
            Value(again.request) == Value(first.request) && Value(again.limit) == Value(first.limit)
  {
  }

  /** One resource of a container already planned, or injected, keeps its values when it is planned again. */
  lemma ResourceSettles(current: Requirements, rec: ContainerRecommendation, tol: Tolerance, name: ResourceName,
                        clamped: bool)
    requires !name.Other?
    ensures var out := Applied(current, if clamped then ClampDecreaseToTolerance(current, rec, tol) else rec);
            var again := Applied(out, ClampDecreaseToTolerance(out, rec, tol));
            && Value(Get(again.requests, name)) == Value(Get(out.requests, name))
            && Value(Get(again.limits, name)) == Value(Get(out.limits, name))
  {
    var first := if clamped then ClampDecreaseToTolerance(current, rec, tol) else rec;
    var out := Applied(current, first);
    AppliedPairwise(current, first, name);
    AppliedPairwise(out, ClampDecreaseToTolerance(out, rec, tol), name);
    PairSettles(PairOf(current, name), AskOf(rec, name), PercentOf(tol, name), FloorOf(tol, name), clamped);
    assert PairOf(Applied(out, ClampDecreaseToTolerance(out, rec, tol)), name) ==
           AppliedPair(PairOf(out, name), AskOf(ClampDecreaseToTolerance(out, rec, tol), name));
  }

  /** Planning is a fixpoint: what a plan applied is planned again as no change, withheld decreases included. */
  lemma PlanningIsFixpoint(current: Requirements, rec: ContainerRecommendation, tol: Tolerance)
    ensures var out := Applied(current, ClampDecreaseToTolerance(current, rec, tol));
            ContainerChange(out, ClampDecreaseToTolerance(out, rec, tol)) == NoChange
  {
    ResourceSettles(current, rec, tol, Cpu, true);
    ResourceSettles(current, rec, tol, Memory, true);
  }

  /** A container injected without a tolerance, as at admission, needs no change under any tolerance. */
  lemma InjectedNeedsNoChange(current: Requirements, rec: ContainerRecommendation, tol: Tolerance)
    ensures var out := Applied(current, rec);
            ContainerChange(out, ClampDecreaseToTolerance(out, rec, tol)) == NoChange
  {
    ResourceSettles(current, rec, tol, Cpu, false);
    ResourceSettles(current, rec, tol, Memory, false);
  }

  // ---- Pods ----

  datatype PodPlan = PodPlan(recs: Recommendation, change: Change) {
    /** Only a change of requests counts a pod stale. */
    predicate Stale() {
      change.RequestChange?
    }
  }

  function PodContainers(pod: Pod): seq<Container> {
    pod.containers + pod.initContainers
  }

  /** The last container of the first `n` called `name`, as a map filled in order holds it. */
  function Lookup(cs: seq<Container>, name: string, n: nat): Option<Container>
    requires n <= |cs|
  {
    if n == 0 then None
    else if cs[n - 1].name == name then Some(cs[n - 1])
    else Lookup(cs, name, n - 1)
  }

  function ClampedRecs(current: seq<Container>, recs: Recommendation, tol: Tolerance): Recommendation {
    map name | name in recs ::
      var c := Lookup(current, name, |current|);
      if c.Some? then ClampDecreaseToTolerance(c.value.resources, recs[name], tol) else recs[name]
  }

  method ClampRecsToTolerance(current: seq<Container>, recs: Recommendation, tol: Tolerance) returns (out: Recommendation)
    ensures out == ClampedRecs(current, recs, tol)
  {
    if |recs| == 0 {
      return recs;
    }
    var byName: map<string, Container> := map[];
    for i := 0 to |current|
      invariant forall name :: name in byName <==> Lookup(current, name, i).Some?
      invariant forall name :: name in byName ==> byName[name] == Lookup(current, name, i).value
    {
      byName := byName[current[i].name := current[i]];
    }
    out := map[];
    var left := recs.Keys;
    while left != {}
      invariant left <= recs.Keys
      invariant out.Keys == recs.Keys - left
      invariant forall name :: name in out ==> out[name] == ClampedRecs(current, recs, tol)[name]
      decreases left
    {
      var name :| name in left;
      if name in byName {
        out := out[name := ClampDecreaseToTolerance(byName[name].resources, recs[name], tol)];
      } else {
        out := out[name := recs[name]];
      }
      left := left - {name};
    }
  }

  /** Of the init containers a plan looks at sidecars alone. */
  predicate Counts(c: Container, init: bool) {
    !init || c.sidecar
  }

  function LargestChange(cs: seq<Container>, init: bool, recs: Recommendation, n: nat): Change
    requires n <= |cs|
  {
    if n == 0 then NoChange
    else
      var before := LargestChange(cs, init, recs, n - 1);
      var c := cs[n - 1];
      if c.name in recs && Counts(c, init) then Larger(before, ContainerChange(c.resources, recs[c.name])) else before
  }

  function PlanOf(pod: Pod, recs: Recommendation, tol: Tolerance): PodPlan {
    var clamped := ClampedRecs(PodContainers(pod), recs, tol);
    PodPlan(clamped, Larger(LargestChange(pod.containers, false, clamped, |pod.containers|),
                            LargestChange(pod.initContainers, true, clamped, |pod.initContainers|)))
  }

  method PlanFor(pod: Pod, recs: Recommendation, tol: Tolerance) returns (plan: PodPlan)
    ensures plan == PlanOf(pod, recs, tol)
  {
    var clamped := ClampRecsToTolerance(PodContainers(pod), recs, tol);
    var regular := ChangeOfRegular(pod.containers, clamped);
    var change := ChangeOfSidecars(pod.initContainers, clamped, regular);
    plan := PodPlan(clamped, change);
  }

  method ChangeOfRegular(cs: seq<Container>, clamped: Recommendation) returns (change: Change)
    ensures change == LargestChange(cs, false, clamped, |cs|)
  {
    change := NoChange;
    for i := 0 to |cs|
      invariant change == LargestChange(cs, false, clamped, i)
    {
      if cs[i].name in clamped {
        change := Larger(change, ContainerChange(cs[i].resources, clamped[cs[i].name]));
      }
    }
  }

  method ChangeOfSidecars(cs: seq<Container>, clamped: Recommendation, regular: Change) returns (change: Change)
    ensures change == Larger(regular, LargestChange(cs, true, clamped, |cs|))
  {
    change := regular;
    for i := 0 to |cs|
      invariant change == Larger(regular, LargestChange(cs, true, clamped, i))
    {
      if cs[i].name in clamped && cs[i].sidecar {
        change := Larger(change, ContainerChange(cs[i].resources, clamped[cs[i].name]));
      }
    }
  }

  /** What container `i` adds to the pod's change. */
  function ChangeAt(cs: seq<Container>, init: bool, recs: Recommendation, i: nat): Change
    requires i < |cs|
  {
    if cs[i].name in recs && Counts(cs[i], init) then ContainerChange(cs[i].resources, recs[cs[i].name]) else NoChange
  }

  function LargestOf(changes: seq<Change>): Change {
    if changes == [] then NoChange else Larger(LargestOf(changes[..|changes| - 1]), changes[|changes| - 1])
  }

  lemma {:induction false} LargestOfMeaning(changes: seq<Change>)
    ensures LargestOf(changes) == NoChange <==> forall i :: 0 <= i < |changes| ==> changes[i] == NoChange
    ensures LargestOf(changes) == RequestChange <==> exists i :: 0 <= i < |changes| && changes[i] == RequestChange
  {
    if changes != [] {
      LargestOfMeaning(changes[..|changes| - 1]);
    }
  }

  lemma {:induction false} LargestChangeIsLargest(cs: seq<Container>, init: bool, recs: Recommendation, n: nat,
                                                  changes: seq<Change>)
    requires n == |changes| <= |cs| && forall i :: 0 <= i < n ==> changes[i] == ChangeAt(cs, init, recs, i)
    ensures LargestChange(cs, init, recs, n) == LargestOf(changes)
  {
    if n > 0 {
      LargestChangeIsLargest(cs, init, recs, n - 1, changes[..n - 1]);
      assert changes[n - 1] == ChangeAt(cs, init, recs, n - 1);
    }
  }

  /** A pod's change is no change exactly when none of the containers that count changes, and stale when one's requests do. */
  lemma LargestChangeMeaning(cs: seq<Container>, init: bool, recs: Recommendation, n: nat)
    requires n <= |cs|
    ensures LargestChange(cs, init, recs, n) == NoChange <==>
            forall i :: 0 <= i < n ==> ChangeAt(cs, init, recs, i) == NoChange
    ensures LargestChange(cs, init, recs, n) == RequestChange <==>
            exists i :: 0 <= i < n && ChangeAt(cs, init, recs, i) == RequestChange
  {
    var changes := seq(n, i requires 0 <= i < n => ChangeAt(cs, init, recs, i));
    LargestChangeIsLargest(cs, init, recs, n, changes);
    LargestOfMeaning(changes);
    if i :| 0 <= i < n && ChangeAt(cs, init, recs, i) == RequestChange {
      assert changes[i] == RequestChange;
    }
    if i :| 0 <= i < n && ChangeAt(cs, init, recs, i) != NoChange {
      assert changes[i] != NoChange;
    }
  }

  /** The apiserver admits no pod that names two containers alike, init containers included. */
  ghost predicate DistinctNames(pod: Pod) {
    var cs := PodContainers(pod);
    forall i, j :: 0 <= i < j < |cs| ==> cs[i].name != cs[j].name
  }

  lemma {:induction false} LookupFindsDistinct(cs: seq<Container>, i: nat, n: nat)
    requires i < n <= |cs|
    requires forall j, k :: 0 <= j < k < |cs| ==> cs[j].name != cs[k].name
    ensures Lookup(cs, cs[i].name, n) == Some(cs[i])
  {
    if i != n - 1 {
      LookupFindsDistinct(cs, i, n - 1);
    }
  }

  /** `cs` with `recs` applied to the containers that count and whose values it changes. */
  function AppliedTo(cs: seq<Container>, init: bool, recs: Recommendation): (r: seq<Container>)
    ensures |r| == |cs|
    ensures forall i :: 0 <= i < |cs| ==>
              r[i] == if Counts(cs[i], init) && Writes(cs, recs, i)
                      then cs[i].(resources := Applied(cs[i].resources, recs[cs[i].name])) else cs[i]
  {
    seq(|cs|, i requires 0 <= i < |cs| =>
      if Counts(cs[i], init) && Writes(cs, recs, i)
      then cs[i].(resources := Applied(cs[i].resources, recs[cs[i].name])) else cs[i])
  }

  /** The pod an accepted resize with `recs` leaves. */
  function ResizedPod(pod: Pod, recs: Recommendation): Pod {
    pod.(containers := AppliedTo(pod.containers, false, recs), initContainers := AppliedTo(pod.initContainers, true, recs))
  }

  /** The pod admission leaves: every declared container injected, whatever it counts for, init ones unless excluded. */
  function InjectedPod(pod: Pod, excludeInit: bool, recs: Recommendation): Pod {
    pod.(containers := AppliedTo(pod.containers, false, recs),
         initContainers := if excludeInit then pod.initContainers else AppliedTo(pod.initContainers, false, recs))
  }

  ghost predicate SettledContainer(c: Container, recs: Recommendation, tol: Tolerance)
    requires c.name in recs
  {
    ContainerChange(c.resources, ClampDecreaseToTolerance(c.resources, recs[c.name], tol)) == NoChange
  }

  /** What the plan would change in init container `i` of `pod`, were it to count. */
  function SidecarChange(pod: Pod, recs: Recommendation, tol: Tolerance, i: nat): Change
    requires i < |pod.initContainers|
  {
    var c := pod.initContainers[i];
    if c.sidecar && c.name in recs then ContainerChange(c.resources, ClampDecreaseToTolerance(c.resources, recs[c.name], tol))
    else NoChange
  }

  function SidecarChanges(pod: Pod, recs: Recommendation, tol: Tolerance): seq<Change> {
    seq(|pod.initContainers|, i requires 0 <= i < |pod.initContainers| => SidecarChange(pod, recs, tol, i))
  }

  /** With distinct names each container is clamped against itself. */
  lemma ClampedAt(pod: Pod, recs: Recommendation, tol: Tolerance, k: nat)
    requires DistinctNames(pod) && k < |PodContainers(pod)| && PodContainers(pod)[k].name in recs
    ensures var c := PodContainers(pod)[k];
            ClampedRecs(PodContainers(pod), recs, tol)[c.name] == ClampDecreaseToTolerance(c.resources, recs[c.name], tol)
  {
    LookupFindsDistinct(PodContainers(pod), k, |PodContainers(pod)|);
  }

  /** A request asked for that is not the container's own, nor a decrease the tolerance leaves alone. */
  predicate Drifts(own: Quantity, asked: Option<Quantity>, percent: int, floor: Quantity) {
    asked.Some? && asked.value != own && !SmallDecrease(own, asked, percent, floor)
  }

  predicate ContainerDrifts(c: Container, recs: Recommendation, tol: Tolerance) {
    && c.name in recs
    && (|| Drifts(Value(Get(c.resources.requests, Cpu)), recs[c.name].cpuRequest, tol.cpuPercent, tol.cpuFloor)
        || Drifts(Value(Get(c.resources.requests, Memory)), recs[c.name].memoryRequest, tol.memPercent, tol.memFloor))
  }

  lemma DriftChanges(cs: seq<Container>, init: bool, recs: Recommendation, clamped: Recommendation, tol: Tolerance, i: nat)
    requires i < |cs| && clamped.Keys == recs.Keys
    requires cs[i].name in recs ==> clamped[cs[i].name] == ClampDecreaseToTolerance(cs[i].resources, recs[cs[i].name], tol)
    ensures ChangeAt(cs, init, clamped, i) == RequestChange <==> (!init || cs[i].sidecar) && ContainerDrifts(cs[i], recs, tol)
  {
    if cs[i].name in recs {
      WithheldExactly(cs[i].resources, recs[cs[i].name], tol);
      RequestChangeMeans(cs[i].resources, clamped[cs[i].name]);
    }
  }

  /** A pod counts stale exactly when a request of one of its regular or sidecar containers drifts. */
  lemma StaleExactly(pod: Pod, recs: Recommendation, tol: Tolerance)
    requires DistinctNames(pod)
    ensures PlanOf(pod, recs, tol).Stale() <==>
            exists c :: (c in pod.containers || (c in pod.initContainers && c.sidecar)) && ContainerDrifts(c, recs, tol)
  {
    var clamped := ClampedRecs(PodContainers(pod), recs, tol);
    LargestChangeMeaning(pod.containers, false, clamped, |pod.containers|);
    LargestChangeMeaning(pod.initContainers, true, clamped, |pod.initContainers|);
    forall i | 0 <= i < |pod.containers|
      ensures ChangeAt(pod.containers, false, clamped, i) == RequestChange <==> ContainerDrifts(pod.containers[i], recs, tol)
    {
      assert PodContainers(pod)[i] == pod.containers[i];
      RegularDrifts(pod, recs, tol, i);
    }
    forall i | 0 <= i < |pod.initContainers|
      ensures ChangeAt(pod.initContainers, true, clamped, i) == RequestChange <==>
              pod.initContainers[i].sidecar && ContainerDrifts(pod.initContainers[i], recs, tol)
    {
      SidecarDrifts(pod, recs, tol, i);
    }
  }

  lemma RegularDrifts(pod: Pod, recs: Recommendation, tol: Tolerance, i: nat)
    requires DistinctNames(pod) && i < |pod.containers|
    ensures ChangeAt(pod.containers, false, ClampedRecs(PodContainers(pod), recs, tol), i) == RequestChange <==>
            ContainerDrifts(pod.containers[i], recs, tol)
  {
    assert PodContainers(pod)[i] == pod.containers[i];
    if pod.containers[i].name in recs {
      ClampedAt(pod, recs, tol, i);
    }
    DriftChanges(pod.containers, false, recs, ClampedRecs(PodContainers(pod), recs, tol), tol, i);
  }

  lemma SidecarDrifts(pod: Pod, recs: Recommendation, tol: Tolerance, i: nat)
    requires DistinctNames(pod) && i < |pod.initContainers|
    ensures ChangeAt(pod.initContainers, true, ClampedRecs(PodContainers(pod), recs, tol), i) == RequestChange <==>
            pod.initContainers[i].sidecar && ContainerDrifts(pod.initContainers[i], recs, tol)
  {
    assert PodContainers(pod)[|pod.containers| + i] == pod.initContainers[i];
    if pod.initContainers[i].name in recs {
      ClampedAt(pod, recs, tol, |pod.containers| + i);
    }
    DriftChanges(pod.initContainers, true, recs, ClampedRecs(PodContainers(pod), recs, tol), tol, i);
  }

  lemma RegularChange(pod: Pod, recs: Recommendation, tol: Tolerance, i: nat)
    requires DistinctNames(pod) && i < |pod.containers|
    requires pod.containers[i].name in recs ==> SettledContainer(pod.containers[i], recs, tol)
    ensures ChangeAt(pod.containers, false, ClampedRecs(PodContainers(pod), recs, tol), i) == NoChange
  {
    if pod.containers[i].name in recs {
      assert PodContainers(pod)[i] == pod.containers[i];
      ClampedAt(pod, recs, tol, i);
    }
  }

  lemma SidecarChangeAt(pod: Pod, recs: Recommendation, tol: Tolerance, i: nat)
    requires DistinctNames(pod) && i < |pod.initContainers|
    ensures ChangeAt(pod.initContainers, true, ClampedRecs(PodContainers(pod), recs, tol), i) == SidecarChange(pod, recs, tol, i)
  {
    if pod.initContainers[i].name in recs {
      assert PodContainers(pod)[|pod.containers| + i] == pod.initContainers[i];
      ClampedAt(pod, recs, tol, |pod.containers| + i);
    }
  }

  /** With distinct names and its containers settled, a plan comes to the largest of what its sidecars change, each on its own. */
  lemma PlanMeaning(pod: Pod, recs: Recommendation, tol: Tolerance)
    requires DistinctNames(pod)
    requires forall i :: 0 <= i < |pod.containers| && pod.containers[i].name in recs ==>
               SettledContainer(pod.containers[i], recs, tol)
    ensures PlanOf(pod, recs, tol).change == LargestOf(SidecarChanges(pod, recs, tol))
  {
    var clamped := ClampedRecs(PodContainers(pod), recs, tol);
    var none := seq(|pod.containers|, i => NoChange);
    forall i | 0 <= i < |none| ensures none[i] == ChangeAt(pod.containers, false, clamped, i) {
      RegularChange(pod, recs, tol, i);
    }
    LargestChangeIsLargest(pod.containers, false, clamped, |none|, none);
    LargestOfMeaning(none);
    var changes := SidecarChanges(pod, recs, tol);
    forall i | 0 <= i < |changes| ensures changes[i] == ChangeAt(pod.initContainers, true, clamped, i) {
      SidecarChangeAt(pod, recs, tol, i);
    }
    LargestChangeIsLargest(pod.initContainers, true, clamped, |changes|, changes);
  }

  lemma NamesKept(pod: Pod, other: Pod)
    requires DistinctNames(pod)
    requires |other.containers| == |pod.containers| && |other.initContainers| == |pod.initContainers|
    requires forall i :: 0 <= i < |pod.containers| ==> other.containers[i].name == pod.containers[i].name
    requires forall i :: 0 <= i < |pod.initContainers| ==> other.initContainers[i].name == pod.initContainers[i].name
    ensures DistinctNames(other)
  {
    var cs, ds := PodContainers(pod), PodContainers(other);
    forall i | 0 <= i < |cs| ensures cs[i].name == ds[i].name {
    }
  }

  lemma PairUnchanged(own: Pair, ask: Ask, percent: int, floor: Quantity)
    requires Value(AppliedPair(own, ask).request) == Value(own.request)
    requires Value(AppliedPair(own, ask).limit) == Value(own.limit)
    ensures var p := AppliedPair(own, ClampAsk(own, ask, percent, floor));
            Value(p.request) == Value(own.request) && Value(p.limit) == Value(own.limit)
  {
  }

  /** Whether or not injection had to write a container, the tolerance finds nothing to change in it afterwards. */
  lemma InjectedSettles(current: Requirements, rec: ContainerRecommendation, tol: Tolerance)
    ensures var out := if SameValues(current, Applied(current, rec)) then current else Applied(current, rec);
            ContainerChange(out, ClampDecreaseToTolerance(out, rec, tol)) == NoChange
  {
    if SameValues(current, Applied(current, rec)) {
      UnchangedSettles(current, rec, tol, Cpu);
      UnchangedSettles(current, rec, tol, Memory);
    } else {
      InjectedNeedsNoChange(current, rec, tol);
    }
  }

  lemma UnchangedSettles(current: Requirements, rec: ContainerRecommendation, tol: Tolerance, name: ResourceName)
    requires !name.Other? && SameValues(current, Applied(current, rec))
    ensures var again := Applied(current, ClampDecreaseToTolerance(current, rec, tol));
            && Value(Get(again.requests, name)) == Value(Get(current.requests, name))
            && Value(Get(again.limits, name)) == Value(Get(current.limits, name))
  {
    AppliedPairwise(current, rec, name);
    AppliedPairwise(current, ClampDecreaseToTolerance(current, rec, tol), name);
    assert PairOf(Applied(current, rec), name) == AppliedPair(PairOf(current, name), AskOf(rec, name));
    assert PairOf(Applied(current, ClampDecreaseToTolerance(current, rec, tol)), name) ==
           AppliedPair(PairOf(current, name), AskOf(ClampDecreaseToTolerance(current, rec, tol), name));
    PairUnchanged(PairOf(current, name), AskOf(rec, name), PercentOf(tol, name), FloorOf(tol, name));
  }

  /** A pod resized by its own plan is planned again as no change, so a pass never resizes or evicts it twice. */
  lemma PodPlanIsFixpoint(pod: Pod, recs: Recommendation, tol: Tolerance)
    requires DistinctNames(pod)
    ensures PlanOf(ResizedPod(pod, PlanOf(pod, recs, tol).recs), recs, tol).change == NoChange
  {
    var resized := ResizedPod(pod, ClampedRecs(PodContainers(pod), recs, tol));
    NamesKept(pod, resized);
    forall i | 0 <= i < |pod.containers| && pod.containers[i].name in recs
      ensures SettledContainer(resized.containers[i], recs, tol)
    {
      RegularSettles(pod, recs, tol, i);
    }
    var changes := SidecarChanges(resized, recs, tol);
    forall i | 0 <= i < |changes| ensures changes[i] == NoChange {
      SidecarSettles(pod, recs, tol, i);
    }
    PlanMeaning(resized, recs, tol);
    LargestOfMeaning(changes);
  }

  lemma RegularSettles(pod: Pod, recs: Recommendation, tol: Tolerance, i: nat)
    requires DistinctNames(pod) && i < |pod.containers| && pod.containers[i].name in recs
    ensures SettledContainer(ResizedPod(pod, ClampedRecs(PodContainers(pod), recs, tol)).containers[i], recs, tol)
  {
    var c := pod.containers[i];
    assert PodContainers(pod)[i] == c;
    ClampedAt(pod, recs, tol, i);
    PlannedSettles(c, recs[c.name], tol);
  }

  lemma SidecarSettles(pod: Pod, recs: Recommendation, tol: Tolerance, i: nat)
    requires DistinctNames(pod) && i < |pod.initContainers|
    ensures SidecarChange(ResizedPod(pod, ClampedRecs(PodContainers(pod), recs, tol)), recs, tol, i) == NoChange
  {
    var c := pod.initContainers[i];
    if c.sidecar && c.name in recs {
      assert PodContainers(pod)[|pod.containers| + i] == c;
      ClampedAt(pod, recs, tol, |pod.containers| + i);
      PlannedSettles(c, recs[c.name], tol);
    }
  }

  /** Whether or not its plan had to write a container, it finds nothing to change in it afterwards. */
  lemma PlannedSettles(c: Container, rec: ContainerRecommendation, tol: Tolerance)
    ensures var clamped := ClampDecreaseToTolerance(c.resources, rec, tol);
            var out := if SameValues(c.resources, Applied(c.resources, clamped)) then c.resources else Applied(c.resources, clamped);
            ContainerChange(out, ClampDecreaseToTolerance(out, rec, tol)) == NoChange
  {
    PlanningIsFixpoint(c.resources, rec, tol);
  }

  // ---- Replacements ----

  /**
   * A replacement is planned as no change, or counts stale, by its sidecars alone, and only where the webhook was to
   * leave init containers out: it then runs each sidecar as declared, while the plan goes on comparing it.
   */
  lemma ReplacementIsStaleExactly(pod: Pod, excludeInit: bool, recs: Recommendation, tol: Tolerance)
    requires DistinctNames(pod)
    ensures var change, changes := PlanOf(InjectedPod(pod, excludeInit, recs), recs, tol).change, SidecarChanges(pod, recs, tol);
            && (change == NoChange <==> !excludeInit || forall i :: 0 <= i < |changes| ==> changes[i] == NoChange)
            && (change == RequestChange <==> excludeInit && exists i :: 0 <= i < |changes| && changes[i] == RequestChange)
  {
    var injected := InjectedPod(pod, excludeInit, recs);
    NamesKept(pod, injected);
    forall i | 0 <= i < |pod.containers| && pod.containers[i].name in recs
      ensures SettledContainer(injected.containers[i], recs, tol)
    {
      InjectedContainerSettles(pod, excludeInit, recs, tol, i);
    }
    PlanMeaning(injected, recs, tol);
    var changes := SidecarChanges(injected, recs, tol);
    if excludeInit {
      assert changes == SidecarChanges(pod, recs, tol);
    } else {
      forall i | 0 <= i < |changes| ensures changes[i] == NoChange {
        InjectedSidecarSettles(pod, recs, tol, i);
      }
    }
    LargestOfMeaning(changes);
  }

  lemma InjectedContainerSettles(pod: Pod, excludeInit: bool, recs: Recommendation, tol: Tolerance, i: nat)
    requires i < |pod.containers| && pod.containers[i].name in recs
    ensures SettledContainer(InjectedPod(pod, excludeInit, recs).containers[i], recs, tol)
  {
    InjectedSettles(pod.containers[i].resources, recs[pod.containers[i].name], tol);
  }

  lemma InjectedSidecarSettles(pod: Pod, recs: Recommendation, tol: Tolerance, i: nat)
    requires i < |pod.initContainers|
    ensures SidecarChange(InjectedPod(pod, false, recs), recs, tol, i) == NoChange
  {
    if pod.initContainers[i].name in recs {
      InjectedSettles(pod.initContainers[i].resources, recs[pod.initContainers[i].name], tol);
    }
  }

  predicate AsksRequest(rec: ContainerRecommendation) {
    rec.cpuRequest.Some? || rec.memoryRequest.Some?
  }

  /** No replacement of a pod with sidecars of these names counts stale, under any tolerance. */
  ghost predicate NeverStale(sidecars: set<string>, excludeInit: bool, recs: Recommendation) {
    forall pod, tol | DistinctNames(pod) && SidecarsAmong(pod, sidecars) ::
      !PlanOf(InjectedPod(pod, excludeInit, recs), recs, tol).Stale()
  }

  predicate SidecarsAmong(pod: Pod, sidecars: set<string>) {
    forall i :: 0 <= i < |pod.initContainers| && pod.initContainers[i].sidecar ==> pod.initContainers[i].name in sidecars
  }

  const NO_TOLERANCE := Tolerance(0, 0, 0, 0)

  /** A pod with one sidecar, a thousandth above what `rec` asks of it. */
  function PodAbove(name: string, rec: ContainerRecommendation): Pod {
    var requests: ResourceList :=
      if rec.cpuRequest.Some? then map[Cpu := rec.cpuRequest.value + 1]
      else if rec.memoryRequest.Some? then map[Memory := rec.memoryRequest.value + 1]
      else map[];
    Pod("p", "u", Running, false, false, false, [], [], [Container(name, Requirements(requests, map[]), true)], map[])
  }

  /** Excluded from injection but named by a Recommendation with a request, a sidecar leaves its pod's replacement stale. */
  lemma ExcludedSidecarStaysStale(name: string, recs: Recommendation)
    requires name in recs && AsksRequest(recs[name])
    ensures DistinctNames(PodAbove(name, recs[name]))
    ensures PlanOf(InjectedPod(PodAbove(name, recs[name]), true, recs), recs, NO_TOLERANCE).Stale()
  {
    var pod := PodAbove(name, recs[name]);
    var own := pod.initContainers[0].resources;
    var kept := ClampDecreaseToTolerance(own, recs[name], NO_TOLERANCE);
    AppliedPairwise(own, kept, Cpu);
    AppliedPairwise(own, kept, Memory);
    assert PairOf(Applied(own, kept), Cpu) == AppliedPair(PairOf(own, Cpu), AskOf(kept, Cpu));
    assert PairOf(Applied(own, kept), Memory) == AppliedPair(PairOf(own, Memory), AskOf(kept, Memory));
    assert SidecarChanges(pod, recs, NO_TOLERANCE)[0] == RequestChange;
    ReplacementIsStaleExactly(pod, true, recs, NO_TOLERANCE);
  }

  /**
   * Replacements are never stale exactly when the webhook injects init containers too, or the Recommendation asks a
   * request of no sidecar.
   */
  lemma ReplacementsNeverStaleExactly(sidecars: set<string>, excludeInit: bool, recs: Recommendation)
    ensures NeverStale(sidecars, excludeInit, recs) <==>
            !excludeInit || forall name :: name in sidecars && name in recs ==> !AsksRequest(recs[name])
  {
    if excludeInit && exists name :: name in sidecars && name in recs && AsksRequest(recs[name]) {
      var name :| name in sidecars && name in recs && AsksRequest(recs[name]);
      ExcludedSidecarStaysStale(name, recs);
      assert SidecarsAmong(PodAbove(name, recs[name]), sidecars);
    } else {
      forall pod, tol | DistinctNames(pod) && SidecarsAmong(pod, sidecars)
        ensures !PlanOf(InjectedPod(pod, excludeInit, recs), recs, tol).Stale()
      {
        ReplacementIsStaleExactly(pod, excludeInit, recs, tol);
        forall i | 0 <= i < |pod.initContainers| && excludeInit ensures SidecarChanges(pod, recs, tol)[i] != RequestChange {
          RequestlessChange(pod, recs, tol, i);
        }
      }
    }
  }

  lemma RequestlessChange(pod: Pod, recs: Recommendation, tol: Tolerance, i: nat)
    requires i < |pod.initContainers|
    requires pod.initContainers[i].sidecar && pod.initContainers[i].name in recs ==> !AsksRequest(recs[pod.initContainers[i].name])
    ensures SidecarChange(pod, recs, tol, i) != RequestChange
  {
    var c := pod.initContainers[i];
    if c.sidecar && c.name in recs {
      var kept := ClampDecreaseToTolerance(c.resources, recs[c.name], tol);
      AppliedPairwise(c.resources, kept, Cpu);
      AppliedPairwise(c.resources, kept, Memory);
      assert PairOf(Applied(c.resources, kept), Cpu) == AppliedPair(PairOf(c.resources, Cpu), AskOf(kept, Cpu));
      assert PairOf(Applied(c.resources, kept), Memory) == AppliedPair(PairOf(c.resources, Memory), AskOf(kept, Memory));
    }
  }

  // A regular container and a sidecar sharing one name, which the apiserver admits in no pod.
  const TWIN_REC := ContainerRecommendation(Some(200), None, Some(95), None, false, false)
  const TWIN_TOLERANCE := Tolerance(5, 10, 5, 15)
  const TWIN_SIDECAR := Container("a", Requirements(map[Cpu := 100], map[Cpu := 100]), true)
  const TWIN_REGULAR := Container("a", Requirements(map[Cpu := 100], map[Cpu := 1000]), false)
  const TWIN_POD := Pod("p", "u", Running, false, false, false, [], [TWIN_REGULAR], [TWIN_SIDECAR], map[])
  const RESIZED_SIDECAR := TWIN_SIDECAR.(resources := Requirements(map[Cpu := 200], map[Cpu := 200]))
  const RESIZED_REGULAR := TWIN_REGULAR.(resources := Requirements(map[Cpu := 200], map[Cpu := 1000]))

  lemma TwinFirstPlan()
    ensures PlanOf(TWIN_POD, map["a" := TWIN_REC], TWIN_TOLERANCE).recs == map["a" := TWIN_REC.(cpuLimit := None)]
  {
    assert PodContainers(TWIN_POD) == [TWIN_REGULAR, TWIN_SIDECAR];
    assert Lookup([TWIN_REGULAR, TWIN_SIDECAR], "a", 2) == Some(TWIN_SIDECAR);
  }

  lemma TwinResized()
    ensures ResizedPod(TWIN_POD, map["a" := TWIN_REC.(cpuLimit := None)]) ==
            TWIN_POD.(containers := [RESIZED_REGULAR], initContainers := [RESIZED_SIDECAR])
  {
    var withheld := TWIN_REC.(cpuLimit := None);
    assert Applied(TWIN_SIDECAR.resources, withheld) == RESIZED_SIDECAR.resources;
    assert Applied(TWIN_REGULAR.resources, withheld) == RESIZED_REGULAR.resources;
    assert AppliedTo([TWIN_REGULAR], false, map["a" := withheld]) == [RESIZED_REGULAR];
    assert AppliedTo([TWIN_SIDECAR], true, map["a" := withheld]) == [RESIZED_SIDECAR];
  }

  lemma TwinSecondPlan(pod: Pod)
    requires pod == TWIN_POD.(containers := [RESIZED_REGULAR], initContainers := [RESIZED_SIDECAR])
    ensures PlanOf(pod, map["a" := TWIN_REC], TWIN_TOLERANCE).change == LimitChange
  {
    var recs := map["a" := TWIN_REC];
    assert PodContainers(pod) == [RESIZED_REGULAR, RESIZED_SIDECAR];
    assert Lookup([RESIZED_REGULAR, RESIZED_SIDECAR], "a", 2) == Some(RESIZED_SIDECAR);
    assert ClampedRecs(PodContainers(pod), recs, TWIN_TOLERANCE) == recs;
    assert Applied(RESIZED_REGULAR.resources, TWIN_REC) == Requirements(map[Cpu := 200], map[Cpu := 200]);
    assert Applied(RESIZED_SIDECAR.resources, TWIN_REC) == RESIZED_SIDECAR.resources;
    assert LargestChange([RESIZED_REGULAR], false, recs, 0) == NoChange;
    assert LargestChange([RESIZED_REGULAR], false, recs, 1) == LimitChange;
    assert LargestChange([RESIZED_SIDECAR], true, recs, 0) == NoChange;
    assert LargestChange([RESIZED_SIDECAR], true, recs, 1) == NoChange;
  }

  /**
   * Distinct names are what the fixpoint needs: of a container and a sidecar named alike only the sidecar is compared
   * with the tolerance, so the limit withheld on the first plan is no longer withheld once the sidecar's own was raised.
   */
  lemma SharedNameKeepsChanging()
    ensures var recs := map["a" := TWIN_REC];
            && !DistinctNames(TWIN_POD)
            && PlanOf(ResizedPod(TWIN_POD, PlanOf(TWIN_POD, recs, TWIN_TOLERANCE).recs), recs, TWIN_TOLERANCE).change
               == LimitChange
  {
    assert PodContainers(TWIN_POD)[0].name == PodContainers(TWIN_POD)[1].name;
    TwinFirstPlan();
    TwinResized();
    TwinSecondPlan(ResizedPod(TWIN_POD, map["a" := TWIN_REC.(cpuLimit := None)]));
  }
}
