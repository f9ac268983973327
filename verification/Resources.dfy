/** Container resources, Recommendations, and what applying one sets (internal/workload/inject.go). */
module Resources {
  import opened Common

  /** A quantity in thousandths of its unit: millicores of CPU, milli-bytes of memory. */
  type Quantity = int

  datatype ResourceName = Cpu | Memory | Other(name: string)

  type ResourceList = map<ResourceName, Quantity>

  datatype Requirements = Requirements(requests: ResourceList, limits: ResourceList)

  /** An absent quantity leaves the container's own alone; a remove flag strips the limit. */
  datatype ContainerRecommendation = ContainerRecommendation(
    cpuRequest: Option<Quantity>,
    memoryRequest: Option<Quantity>,
    cpuLimit: Option<Quantity>,
    memoryLimit: Option<Quantity>,
    removeCpuLimit: bool,
    removeMemoryLimit: bool)

  type Recommendation = map<string, ContainerRecommendation>

  /** `sidecar` is an init container whose restartPolicy is Always. */
  datatype Container = Container(name: string, resources: Requirements, sidecar: bool)

  function Get(list: ResourceList, name: ResourceName): Option<Quantity> {
    if name in list then Some(list[name]) else None
  }

  /** `None` counts as 0. */
  function Value(q: Option<Quantity>): Quantity {
    if q.Some? then q.value else 0
  }

  /** The request and the limit of one resource. */
  datatype Pair = Pair(request: Option<Quantity>, limit: Option<Quantity>)

  /** What a Recommendation asks of one resource. */
  datatype Ask = Ask(request: Option<Quantity>, limit: Option<Quantity>, removeLimit: bool)

  function PairOf(r: Requirements, name: ResourceName): Pair {
    Pair(Get(r.requests, name), Get(r.limits, name))
  }

  function AskOf(rec: ContainerRecommendation, name: ResourceName): Ask {
    match name
    case Cpu => Ask(rec.cpuRequest, rec.cpuLimit, rec.removeCpuLimit)
    case Memory => Ask(rec.memoryRequest, rec.memoryLimit, rec.removeMemoryLimit)
    case Other(_) => Ask(None, None, false)
  }

  /** `q` in place of `own`, except that no `q`, or one equal in value, leaves `own` as it is. */
  function Replaced(own: Option<Quantity>, q: Option<Quantity>): Option<Quantity> {
    if q.None? || Value(own) == q.value then own else q
  }

  /** The pair one resource ends up with: a limit that would end below its request is raised to it. */
  function AppliedPair(own: Pair, ask: Ask): Pair {
    var request := Replaced(own.request, ask.request);
    var limit := if ask.removeLimit then None else Replaced(own.limit, ask.limit);
    if request.Some? && limit.Some? && request.value > limit.value
    then Pair(request, request)
    else Pair(request, limit)
  }

  predicate RaisesLimit(own: Pair, ask: Ask) {
    var request := Replaced(own.request, ask.request);
    var limit := if ask.removeLimit then None else Replaced(own.limit, ask.limit);
    request.Some? && limit.Some? && request.value > limit.value
  }

  function With(list: ResourceList, name: ResourceName, q: Option<Quantity>): (r: ResourceList)
    ensures forall m :: Get(r, m) == if m == name then q else Get(list, m)
  {
    if q.Some? then list[name := q.value] else list - {name}
  }

  /** What a container of `current` runs with once `rec` is applied, CPU and memory each on its own. */
  function Applied(current: Requirements, rec: ContainerRecommendation): Requirements {
    var cpu := AppliedPair(PairOf(current, Cpu), AskOf(rec, Cpu));
    var memory := AppliedPair(PairOf(current, Memory), AskOf(rec, Memory));
    Requirements(
      With(With(current.requests, Cpu, cpu.request), Memory, memory.request),
      With(With(current.limits, Cpu, cpu.limit), Memory, memory.limit))
  }

  predicate SameRequests(a: Requirements, b: Requirements) {
    forall name | name in {Cpu, Memory} :: Value(Get(a.requests, name)) == Value(Get(b.requests, name))
  }

  /** `SameRequests`, and the same of limits. */
  predicate SameValues(a: Requirements, b: Requirements) {
    && SameRequests(a, b)
    && forall name | name in {Cpu, Memory} :: Value(Get(a.limits, name)) == Value(Get(b.limits, name))
  }

  function RaisedLimits(current: Requirements, rec: ContainerRecommendation): seq<ResourceName> {
    (if RaisesLimit(PairOf(current, Cpu), AskOf(rec, Cpu)) then [Cpu] else []) +
    (if RaisesLimit(PairOf(current, Memory), AskOf(rec, Memory)) then [Memory] else [])
  }

  lemma AppliedPairwise(current: Requirements, rec: ContainerRecommendation, name: ResourceName)
    ensures name.Other? ==> PairOf(Applied(current, rec), name) == PairOf(current, name)
    ensures !name.Other? ==>
              PairOf(Applied(current, rec), name) == AppliedPair(PairOf(current, name), AskOf(rec, name))
  {
  }

  /** No CPU or memory request ends above its limit, which the apiserver would reject. */
  lemma AppliedIsAdmissible(current: Requirements, rec: ContainerRecommendation, name: ResourceName)
    requires !name.Other?
    ensures var p := PairOf(Applied(current, rec), name);
            p.request.Some? && p.limit.Some? ==> p.request.value <= p.limit.value
  {
    AppliedPairwise(current, rec, name);
  }

  /** The request ends at what was asked, and the limit at what was asked or at the request, whichever is higher. */
  lemma AppliedReachesAsk(current: Requirements, rec: ContainerRecommendation, name: ResourceName)
    ensures var own, ask, p := PairOf(current, name), AskOf(rec, name), PairOf(Applied(current, rec), name);
            && Value(p.request) == (if ask.request.Some? then ask.request.value else Value(own.request))
            && (ask.removeLimit ==> p.limit == None)
            && (!ask.removeLimit && p.limit.Some? && p.request.Some? && !name.Other? ==>
                  p.limit.value == Max(if ask.limit.Some? then ask.limit.value else own.limit.value, p.request.value))
  {
    AppliedPairwise(current, rec, name);
  }

  method SetQuantity(list: ResourceList, name: ResourceName, q: Option<Quantity>) returns (r: ResourceList)
    ensures r == With(list, name, Replaced(Get(list, name), q))
  {
    r := list;
    if q.None? {
      return;
    }
    if Value(Get(list, name)) == q.value {
      return;
    }
    r := r[name := q.value];
  }

  method ApplyLimit(list: ResourceList, name: ResourceName, q: Option<Quantity>, remove: bool) returns (r: ResourceList)
    ensures r == With(list, name, if remove then None else Replaced(Get(list, name), q))
  {
    if !remove {
      r := SetQuantity(list, name, q);
      return;
    }
    r := list - {name};
  }

  /** Raises each CPU or memory limit its request exceeds, and names the resources raised. */
  method RaiseLimits(requests: ResourceList, limits: ResourceList) returns (raised: seq<ResourceName>, r: ResourceList)
    ensures r == RaisedTo(RaisedTo(limits, requests, Cpu), requests, Memory)
    ensures raised == (if Exceeds(requests, limits, Cpu) then [Cpu] else []) +
                      (if Exceeds(requests, limits, Memory) then [Memory] else [])
  {
    var names := [Cpu, Memory];
    r, raised := limits, [];
    for i := 0 to 2
      invariant i == 0 ==> r == limits && raised == []
      invariant i == 1 ==> r == RaisedTo(limits, requests, Cpu)
      invariant i == 1 ==> raised == if Exceeds(requests, limits, Cpu) then [Cpu] else []
      invariant i == 2 ==> r == RaisedTo(RaisedTo(limits, requests, Cpu), requests, Memory)
      invariant i == 2 ==> raised == (if Exceeds(requests, limits, Cpu) then [Cpu] else []) +
                                     (if Exceeds(requests, limits, Memory) then [Memory] else [])
    {
      var name := names[i];
      if name in requests && name in r && requests[name] > r[name] {
        r := r[name := requests[name]];
        raised := raised + [name];
      }
    }
  }

  lemma ListsEqual(a: ResourceList, b: ResourceList)
    requires forall m :: Get(a, m) == Get(b, m)
    ensures a == b
  {
    forall m ensures m in a <==> m in b {
      assert Get(a, m) == Get(b, m);
    }
    forall m | m in a ensures a[m] == b[m] {
      assert Get(a, m) == Get(b, m);
    }
  }

  /** The lists once every value of `rec` is set and no limit raised yet. */
  ghost predicate ValuesSet(current: Requirements, rec: ContainerRecommendation, requests: ResourceList,
                            limits: ResourceList) {
    && (forall m :: Get(requests, m) == Replaced(Get(current.requests, m), AskOf(rec, m).request))
    && (forall m :: Get(limits, m) ==
          if AskOf(rec, m).removeLimit then None else Replaced(Get(current.limits, m), AskOf(rec, m).limit))
  }

  lemma ExceedsAsRaised(current: Requirements, rec: ContainerRecommendation, requests: ResourceList,
                        limits: ResourceList, m: ResourceName)
    requires ValuesSet(current, rec, requests, limits)
    ensures Exceeds(requests, limits, m) == RaisesLimit(PairOf(current, m), AskOf(rec, m))
    ensures AppliedPair(PairOf(current, m), AskOf(rec, m)) == Pair(Get(requests, m), Get(RaisedTo(limits, requests, m), m))
  {
  }

  lemma RaisedOthers(limits: ResourceList, requests: ResourceList, name: ResourceName, m: ResourceName)
    requires m != name
    ensures Get(RaisedTo(limits, requests, name), m) == Get(limits, m)
    ensures Exceeds(requests, RaisedTo(limits, requests, name), m) == Exceeds(requests, limits, m)
  {
  }

  lemma StepwiseAt(current: Requirements, rec: ContainerRecommendation,
                   requests: ResourceList, limits: ResourceList, raised: ResourceList, m: ResourceName)
    requires ValuesSet(current, rec, requests, limits)
    requires raised == RaisedTo(RaisedTo(limits, requests, Cpu), requests, Memory)
    ensures PairOf(Applied(current, rec), m) == Pair(Get(requests, m), Get(raised, m))
  {
    AppliedPairwise(current, rec, m);
    ExceedsAsRaised(current, rec, requests, limits, m);
    if m != Cpu {
      RaisedOthers(limits, requests, Cpu, m);
    }
    if m != Memory {
      RaisedOthers(RaisedTo(limits, requests, Cpu), requests, Memory, m);
    }
  }

  /** Setting every value and only then raising limits comes to applying each resource on its own. */
  lemma AppliedStepwise(current: Requirements, rec: ContainerRecommendation,
                        requests: ResourceList, limits: ResourceList, raised: ResourceList)
    requires ValuesSet(current, rec, requests, limits)
    requires raised == RaisedTo(RaisedTo(limits, requests, Cpu), requests, Memory)
    ensures Requirements(requests, raised) == Applied(current, rec)
    ensures forall m | m in {Cpu, Memory} :: Exceeds(requests, limits, m) == RaisesLimit(PairOf(current, m), AskOf(rec, m))
  {
    var out := Applied(current, rec);
    forall m ensures Get(requests, m) == Get(out.requests, m) && Get(raised, m) == Get(out.limits, m) {
      StepwiseAt(current, rec, requests, limits, raised, m);
    }
    ListsEqual(requests, out.requests);
    ListsEqual(raised, out.limits);
    ExceedsAsRaised(current, rec, requests, limits, Cpu);
    ExceedsAsRaised(current, rec, requests, limits, Memory);
  }

  /** Edits a copy of `current`, then raises each limit its request would exceed. */
  method ApplyTo(current: Requirements, rec: ContainerRecommendation)
    returns (out: Requirements, raised: seq<ResourceName>, changed: bool)
    ensures out == Applied(current, rec)
    ensures raised == RaisedLimits(current, rec)
    ensures changed <==> !SameValues(current, out)
  {
    var requests := SetQuantity(current.requests, Cpu, rec.cpuRequest);
    var limits := ApplyLimit(current.limits, Cpu, rec.cpuLimit, rec.removeCpuLimit);
    requests := SetQuantity(requests, Memory, rec.memoryRequest);
    limits := ApplyLimit(limits, Memory, rec.memoryLimit, rec.removeMemoryLimit);
    ghost var before := limits;
    raised, limits := RaiseLimits(requests, limits);
    AppliedStepwise(current, rec, requests, before, limits);
    out := Requirements(requests, limits);
    changed := !(ValueEqual(current, out));
  }

  predicate ValueEqual(a: Requirements, b: Requirements)
    ensures ValueEqual(a, b) <==> SameValues(a, b)
  {
    && Value(Get(a.requests, Cpu)) == Value(Get(b.requests, Cpu))
    && Value(Get(a.requests, Memory)) == Value(Get(b.requests, Memory))
    && Value(Get(a.limits, Cpu)) == Value(Get(b.limits, Cpu))
    && Value(Get(a.limits, Memory)) == Value(Get(b.limits, Memory))
  }

  ghost predicate Exceeds(requests: ResourceList, limits: ResourceList, name: ResourceName) {
    name in requests && name in limits && requests[name] > limits[name]
  }

  ghost function RaisedTo(limits: ResourceList, requests: ResourceList, name: ResourceName): ResourceList {
    if Exceeds(requests, limits, name) then limits[name := requests[name]] else limits
  }

  /** One container whose resources change, located in its pod. */
  datatype ContainerWrite = ContainerWrite(
    name: string, init: bool, index: nat, resources: Requirements, raisedLimits: seq<ResourceName>)

  datatype Injection = Injection(recs: Recommendation, writes: seq<ContainerWrite>)

  /** What applying `recs` writes to `cs[i]`, if anything. */
  predicate Writes(cs: seq<Container>, recs: Recommendation, i: nat)
    requires i < |cs|
  {
    cs[i].name in recs && !SameValues(cs[i].resources, Applied(cs[i].resources, recs[cs[i].name]))
  }

  function WriteOf(cs: seq<Container>, init: bool, recs: Recommendation, i: nat): ContainerWrite
    requires i < |cs| && cs[i].name in recs
  {
    var rec := recs[cs[i].name];
    ContainerWrite(cs[i].name, init, i, Applied(cs[i].resources, rec), RaisedLimits(cs[i].resources, rec))
  }

  function WritesAt(cs: seq<Container>, init: bool, recs: Recommendation, i: nat): seq<ContainerWrite>
    requires i < |cs|
  {
    if Writes(cs, recs, i) then [WriteOf(cs, init, recs, i)] else []
  }

  /** The writes to the first `n` of `cs`, in declaration order. */
  function WritesTo(cs: seq<Container>, init: bool, recs: Recommendation, n: nat): seq<ContainerWrite>
    requires n <= |cs|
  {
    if n == 0 then [] else WritesTo(cs, init, recs, n - 1) + WritesAt(cs, init, recs, n - 1)
  }

  /** `recs` narrowed to the names of the first `n` of `cs`. */
  function Narrowed(cs: seq<Container>, recs: Recommendation, n: nat): Recommendation
    requires n <= |cs|
  {
    if n == 0 then map[]
    else if cs[n - 1].name in recs then Narrowed(cs, recs, n - 1)[cs[n - 1].name := recs[cs[n - 1].name]]
    else Narrowed(cs, recs, n - 1)
  }

  /** Narrowing keeps exactly the Recommendations of the names declared. */
  lemma {:induction false} NarrowedMeaning(cs: seq<Container>, recs: Recommendation, n: nat, name: string)
    requires n <= |cs|
    ensures name in Narrowed(cs, recs, n) <==> name in recs && exists i :: 0 <= i < n && cs[i].name == name
    ensures name in Narrowed(cs, recs, n) ==> Narrowed(cs, recs, n)[name] == recs[name]
  {
    if n > 0 {
      NarrowedMeaning(cs, recs, n - 1, name);
    }
  }

  lemma NarrowedNext(cs: seq<Container>, recs: Recommendation, i: nat, before: Recommendation)
    requires i < |cs|
    ensures before + Narrowed(cs, recs, i + 1) ==
              if cs[i].name in recs then (before + Narrowed(cs, recs, i))[cs[i].name := recs[cs[i].name]]
              else before + Narrowed(cs, recs, i)
  {
  }

  /** Applies `recs` to one container, adding its write if its values change. */
  method AddWrite(cs: seq<Container>, init: bool, recs: Recommendation, i: nat, inj: Injection) returns (r: Injection)
    requires i < |cs|
    ensures r.writes == inj.writes + WritesAt(cs, init, recs, i)
    ensures r.recs == if cs[i].name in recs then inj.recs[cs[i].name := recs[cs[i].name]] else inj.recs
  {
    r := inj;
    var c := cs[i];
    if c.name in recs {
      var rec := recs[c.name];
      r := r.(recs := r.recs[c.name := rec]);
      var res, raised, changed := ApplyTo(c.resources, rec);
      if changed {
        r := r.(writes := r.writes + [ContainerWrite(c.name, init, i, res, raised)]);
      }
    }
  }

  method AddWrites(cs: seq<Container>, init: bool, recs: Recommendation, inj: Injection) returns (r: Injection)
    ensures r.writes == inj.writes + WritesTo(cs, init, recs, |cs|)
    ensures r.recs == inj.recs + Narrowed(cs, recs, |cs|)
  {
    r := inj;
    for i := 0 to |cs|
      invariant r.writes == inj.writes + WritesTo(cs, init, recs, i)
      invariant r.recs == inj.recs + Narrowed(cs, recs, i)
    {
      Associates(inj.writes, WritesTo(cs, init, recs, i), WritesAt(cs, init, recs, i));
      NarrowedNext(cs, recs, i, inj.recs);
      r := AddWrite(cs, init, recs, i, r);
    }
  }

  /** `WritesTo` and `Narrowed` over both lists, or the first alone. */
  method Inject(containers: seq<Container>, initContainers: seq<Container>, excludeInit: bool, recs: Recommendation)
    returns (inj: Injection)
    ensures inj.writes == WritesTo(containers, false, recs, |containers|) +
                          (if excludeInit then [] else WritesTo(initContainers, true, recs, |initContainers|))
    ensures inj.recs == Narrowed(containers, recs, |containers|) +
                        (if excludeInit then map[] else Narrowed(initContainers, recs, |initContainers|))
  {
    inj := AddWrites(containers, false, recs, Injection(map[], []));
    if !excludeInit {
      inj := AddWrites(initContainers, true, recs, inj);
    }
  }

  lemma {:induction false} WrittenFrom(cs: seq<Container>, init: bool, recs: Recommendation, n: nat, w: ContainerWrite)
    requires n <= |cs| && w in WritesTo(cs, init, recs, n)
    ensures w.index < n && Writes(cs, recs, w.index) && w == WriteOf(cs, init, recs, w.index)
  {
    if w in WritesTo(cs, init, recs, n - 1) {
      WrittenFrom(cs, init, recs, n - 1, w);
    } else {
      assert w in WritesAt(cs, init, recs, n - 1);
    }
  }

  lemma {:induction false} WrittenOnce(cs: seq<Container>, init: bool, recs: Recommendation, n: nat, i: nat)
    requires i < n <= |cs| && Writes(cs, recs, i)
    ensures WriteOf(cs, init, recs, i) in WritesTo(cs, init, recs, n)
  {
    if i < n - 1 {
      WrittenOnce(cs, init, recs, n - 1, i);
    } else {
      assert WriteOf(cs, init, recs, i) in WritesAt(cs, init, recs, n - 1);
    }
  }

  lemma {:induction false} WrittenInOrder(cs: seq<Container>, init: bool, recs: Recommendation, n: nat, j: nat, k: nat)
    requires n <= |cs| && j < k < |WritesTo(cs, init, recs, n)|
    ensures WritesTo(cs, init, recs, n)[j].index < WritesTo(cs, init, recs, n)[k].index
  {
    var before, more := WritesTo(cs, init, recs, n - 1), WritesAt(cs, init, recs, n - 1);
    assert WritesTo(cs, init, recs, n) == before + more;
    if k < |before| {
      WrittenInOrder(cs, init, recs, n - 1, j, k);
    } else {
      assert |more| == 1 && more[0].index == n - 1;
      WrittenFrom(cs, init, recs, n - 1, before[j]);
    }
  }

  /** A container is written exactly when its values change, once, at its own index, with what applying sets. */
  lemma WritesToMeaning(cs: seq<Container>, init: bool, recs: Recommendation, n: nat)
    requires n <= |cs|
    ensures forall w :: w in WritesTo(cs, init, recs, n) ==>
              w.index < n && Writes(cs, recs, w.index) && w == WriteOf(cs, init, recs, w.index)
    ensures forall i :: 0 <= i < n && Writes(cs, recs, i) ==> WriteOf(cs, init, recs, i) in WritesTo(cs, init, recs, n)
    ensures forall j, k :: 0 <= j < k < |WritesTo(cs, init, recs, n)| ==>
              WritesTo(cs, init, recs, n)[j].index < WritesTo(cs, init, recs, n)[k].index
  {
    forall w | w in WritesTo(cs, init, recs, n)
      ensures w.index < n && Writes(cs, recs, w.index) && w == WriteOf(cs, init, recs, w.index)
    {
      WrittenFrom(cs, init, recs, n, w);
    }
    forall i | 0 <= i < n && Writes(cs, recs, i) ensures WriteOf(cs, init, recs, i) in WritesTo(cs, init, recs, n) {
      WrittenOnce(cs, init, recs, n, i);
    }
    forall j, k | 0 <= j < k < |WritesTo(cs, init, recs, n)|
      ensures WritesTo(cs, init, recs, n)[j].index < WritesTo(cs, init, recs, n)[k].index
    {
      WrittenInOrder(cs, init, recs, n, j, k);
    }
  }
}
