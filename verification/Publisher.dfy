/** Who owns each metric series the controller publishes, and when it is deleted (internal/controller/publisher.go). */
module Publisher {
  import opened Common

  datatype Vec =
    | PolicyWorkloadCount | PolicyBlockedCount | PolicyBatchRequested | PolicyBatchResolved
    | RecommendedCpu | RecommendedMemory | TemplateCpu | TemplateMemory
    | PolicyBatchFailures | ReconcileTotal | ReconcileDuration
    | WorkloadPods | WorkloadStalePods | WorkloadRetryState | AutoscalerPresent | AutoscalerTarget
    | WorkloadRetryAttempts | RecycleSuppressed | RecommendationSkipped | OomFloorApplied | OomObserved
    | OomReactionLatency | AutoscalerMismatch

  /** A series is told from the others of its vector by its values, in the order of the vector's labels. */
  datatype Series = Series(vec: Vec, values: seq<string>)

  datatype Owner = OfPolicy(policy: string) | OfIdentity(id: Identity)

  predicate IsGauge(v: Vec) {
    v.PolicyWorkloadCount? || v.PolicyBlockedCount? || v.PolicyBatchRequested? || v.PolicyBatchResolved? || PerContainer(v) ||
    v.WorkloadPods? || v.WorkloadStalePods? || v.WorkloadRetryState? || v.AutoscalerPresent? || v.AutoscalerTarget?
  }

  predicate PerContainer(v: Vec) {
    v.RecommendedCpu? || v.RecommendedMemory? || v.TemplateCpu? || v.TemplateMemory?
  }

  predicate PerPolicy(v: Vec) {
    v.PolicyWorkloadCount? || v.PolicyBlockedCount? || v.PolicyBatchRequested? || v.PolicyBatchResolved? ||
    v.PolicyBatchFailures? || v.ReconcileTotal? || v.ReconcileDuration?
  }

  /** Whom a series describes, read off its labels: the policy label, or the identity's three. */
  function OwnerOf(x: Series): Option<Owner> {
    if PerPolicy(x.vec) then (if |x.values| >= 1 then Some(OfPolicy(x.values[0])) else None)
    else if PerContainer(x.vec) then (if |x.values| == 6 then Some(OfPolicy(x.values[5])) else None)
    else if |x.values| >= 3 then Some(OfIdentity(Identity(x.values[0], x.values[1], x.values[2]))) else None
  }

  datatype Published = Published(gauges: set<Series>, counters: set<Series>) {
    function All(): set<Series> {
      gauges + counters
    }
  }

  datatype PolicyPublished = PolicyPublished(series: Published, identities: set<Identity>)

  /** What the publisher tracks, and the series the registry holds. */
  datatype State = State(policies: map<string, PolicyPublished>, identities: map<Identity, Published>, live: set<Series>)

  const NOTHING := Published({}, {})

  predicate Tracked(st: State, x: Series) {
    match OwnerOf(x)
    case Some(OfPolicy(p)) => p in st.policies && x in st.policies[p].series.All()
    case Some(OfIdentity(id)) => id in st.identities && x in st.identities[id].All()
    case None => false
  }

  ghost predicate OwnedBy(p: Published, owner: Owner) {
    && (forall x :: x in p.gauges ==> OwnerOf(x) == Some(owner) && IsGauge(x.vec))
    && (forall x :: x in p.counters ==> OwnerOf(x) == Some(owner) && !IsGauge(x.vec))
  }

  ghost predicate Owned(st: State) {
    && (forall p :: p in st.policies ==> OwnedBy(st.policies[p].series, OfPolicy(p)))
    && (forall id :: id in st.identities ==> OwnedBy(st.identities[id], OfIdentity(id)))
  }

  /** Some Policy's last pass, or an OOM kill it was told of since, includes the identity. */
  predicate Included(policies: map<string, PolicyPublished>, id: Identity) {
    exists p :: p in policies && id in policies[p].identities
  }

  ghost predicate Consistent(st: State) {
    && Owned(st)
    && (forall x :: x in st.live <==> Tracked(st, x))
    && (forall id :: id in st.identities <==> Included(st.policies, id))
  }

  // ---- What consistency means ----

  /** The live series are the union of what the owners track, and no series is tracked twice. */
  lemma LiveIsDisjointUnion(st: State)
    requires Consistent(st)
    ensures forall x :: x in st.live <==>
              || (exists p :: p in st.policies && x in st.policies[p].series.All())
              || (exists id :: id in st.identities && x in st.identities[id].All())
    ensures forall p, q :: p in st.policies && q in st.policies && p != q ==>
              st.policies[p].series.All() !! st.policies[q].series.All()
    ensures forall id, jd :: id in st.identities && jd in st.identities && id != jd ==>
              st.identities[id].All() !! st.identities[jd].All()
    ensures forall p, id :: p in st.policies && id in st.identities ==>
              st.policies[p].series.All() !! st.identities[id].All()
    ensures forall p :: p in st.policies ==> st.policies[p].series.gauges !! st.policies[p].series.counters
  {
    forall x ensures x in st.live <==>
                       || (exists p :: p in st.policies && x in st.policies[p].series.All())
                       || (exists id :: id in st.identities && x in st.identities[id].All())
    {
      if p :| p in st.policies && x in st.policies[p].series.All() {
        assert OwnerOf(x) == Some(OfPolicy(p));
      }
      if id :| id in st.identities && x in st.identities[id].All() {
        assert OwnerOf(x) == Some(OfIdentity(id));
      }
    }
  }

  /**
   * What a call for `policy` that publishes the identities `published` leaves of everyone else's series: another Policy's
   * are live as before, an identity's too while some Policy includes it, and none of an identity nobody includes.
   */
  ghost predicate OthersSpared(before: State, after: State, policy: string, published: set<Identity>) {
    forall x ::
      match OwnerOf(x)
      case Some(OfPolicy(q)) => q != policy ==> (x in after.live <==> x in before.live)
      case Some(OfIdentity(id)) =>
        if !Included(after.policies, id) then x !in after.live
        else id !in published ==> (x in after.live <==> x in before.live)
      case None => x !in after.live && x !in before.live
  }

  /** Between consistent states, records left alone are series left alone, whatever was deleted to get there. */
  lemma DeletionSparesOthers(before: State, after: State, policy: string, published: set<Identity>)
    requires Consistent(before) && Consistent(after)
    requires after.policies - {policy} == before.policies - {policy}
    requires forall id :: Included(after.policies, id) && id !in published ==>
               id in before.identities && after.identities[id] == before.identities[id]
    ensures OthersSpared(before, after, policy, published)
  {
    forall x, q | OwnerOf(x) == Some(OfPolicy(q)) && q != policy ensures x in after.live <==> x in before.live {
      assert q in (after.policies - {policy}) <==> q in (before.policies - {policy});
      assert q in after.policies ==> (after.policies - {policy})[q] == (before.policies - {policy})[q];
    }
  }

  // ---- Publications ----

  datatype ContainerSeries = ContainerSeries(
    name: string, kind: string, recCpu: bool, recMemory: bool, templateCpu: bool, templateMemory: bool)

  datatype MemberSeries = MemberSeries(kind: string, name: string, containers: seq<ContainerSeries>, suppressed: set<string>)

  datatype Autoscaler = NoAutoscaler | Targeting(kind: string, targets: set<string>)

  datatype OomFloor = OomFloor(container: string, live: bool)

  /** `autoscaler` is `None` when the pass did not compute the identity, and `blockedOn` when no member is Blocked. */
  datatype IdentitySeries = IdentitySeries(
    key: Identity, measured: bool, blockedOn: Option<string>, attempts: nat, autoscaler: Option<Autoscaler>,
    members: seq<MemberSeries>, tooYoung: bool, floors: seq<OomFloor>, mismatch: bool)

  datatype Publication = Publication(fetchFailed: nat, identities: seq<IdentitySeries>)

  function PolicyGauges(policy: string): set<Series> {
    {Series(PolicyWorkloadCount, [policy]), Series(PolicyBlockedCount, [policy]),
     Series(PolicyBatchRequested, [policy]), Series(PolicyBatchResolved, [policy])}
  }

  function ContainerGauges(policy: string, id: Identity, m: MemberSeries, c: ContainerSeries): set<Series> {
    var lv := [id.namespace, m.kind, m.name, c.name, c.kind, policy];
    (if c.recCpu then {Series(RecommendedCpu, lv)} else {}) + (if c.recMemory then {Series(RecommendedMemory, lv)} else {}) +
    (if c.templateCpu then {Series(TemplateCpu, lv)} else {}) + (if c.templateMemory then {Series(TemplateMemory, lv)} else {})
  }

  /** `x` is one of the gauges of the members' containers of `s`. */
  predicate MemberDesires(policy: string, s: IdentitySeries, x: Series) {
    exists m, c :: m in s.members && c in m.containers && x in ContainerGauges(policy, s.key, m, c)
  }

  predicate PolicyDesires(policy: string, pub: Publication, x: Series) {
    x in PolicyGauges(policy) || exists s :: s in pub.identities && MemberDesires(policy, s, x)
  }

  function Labels(id: Identity): seq<string> {
    [id.namespace, id.kind, id.name]
  }

  /** The gauges one pass desires of an identity, given those it has: an autoscaler the pass did not read stays. */
  predicate IdentityDesires(s: IdentitySeries, prev: set<Series>, x: Series) {
    var lv := Labels(s.key);
    || (s.measured && x in {Series(WorkloadPods, lv), Series(WorkloadStalePods, lv)})
    || (s.blockedOn.Some? && x == Series(WorkloadRetryState, lv + [s.blockedOn.value]))
    || (s.autoscaler.None? && x in prev && (x.vec.AutoscalerPresent? || x.vec.AutoscalerTarget?))
    || (s.autoscaler.Some? && s.autoscaler.value.Targeting? &&
          (x == Series(AutoscalerPresent, lv + [s.autoscaler.value.kind]) ||
           exists r :: r in s.autoscaler.value.targets && x == Series(AutoscalerTarget, lv + [s.autoscaler.value.kind, r])))
  }

  /** The counters one pass adds to. */
  predicate IdentityCounts(s: IdentitySeries, x: Series) {
    var lv := Labels(s.key);
    || (s.attempts > 0 && x == Series(WorkloadRetryAttempts, lv))
    || (exists m, r :: m in s.members && r in m.suppressed && x == Series(RecycleSuppressed, lv + [r]))
    || (s.tooYoung && x == Series(RecommendationSkipped, lv + ["workload_too_young"]))
    || (exists f :: f in s.floors && (x == Series(OomFloorApplied, lv + [f.container]) ||
                                      (f.live && x == Series(OomReactionLatency, lv))))
    || (s.mismatch && x == Series(AutoscalerMismatch, lv))
  }

  lemma IdentitySeriesAreOwned(s: IdentitySeries, prev: set<Series>, x: Series)
    requires forall y :: y in prev ==> OwnerOf(y) == Some(OfIdentity(s.key)) && IsGauge(y.vec)
    ensures IdentityDesires(s, prev, x) ==> OwnerOf(x) == Some(OfIdentity(s.key)) && IsGauge(x.vec)
    ensures IdentityCounts(s, x) ==> OwnerOf(x) == Some(OfIdentity(s.key)) && !IsGauge(x.vec)
  {
  }

  lemma PolicySeriesAreOwned(policy: string, pub: Publication, x: Series)
    requires PolicyDesires(policy, pub, x)
    ensures OwnerOf(x) == Some(OfPolicy(policy)) && IsGauge(x.vec)
  {
  }

  // ---- Sets of series written to the registry as they are built ----

  /** The gauges of the containers of `ms`. */
  method MembersGauges(policy: string, s: IdentitySeries) returns (gauges: set<Series>)
    ensures forall x :: x in gauges <==> MemberDesires(policy, s, x)
  {
    gauges := {};
    for i := 0 to |s.members|
      invariant forall x :: x in gauges <==>
                  exists m, c :: m in s.members[..i] && c in m.containers && x in ContainerGauges(policy, s.key, m, c)
    {
      var m := s.members[i];
      ghost var before := gauges;
      for j := 0 to |m.containers|
        invariant forall x :: x in gauges <==>
                    x in before || exists c :: c in m.containers[..j] && x in ContainerGauges(policy, s.key, m, c)
      {
        assert m.containers[..j + 1] == m.containers[..j] + [m.containers[j]];
        gauges := gauges + ContainerGauges(policy, s.key, m, m.containers[j]);
      }
      assert m.containers[..|m.containers|] == m.containers;
      assert s.members[..i + 1] == s.members[..i] + [m];
    }
    assert s.members[..|s.members|] == s.members;
  }

  /** The gauges a pass desires of an identity. */
  method GaugesOf(s: IdentitySeries, prev: set<Series>) returns (gauges: set<Series>)
    ensures forall x :: x in gauges <==> IdentityDesires(s, prev, x)
  {
    var lv := Labels(s.key);
    gauges := {};
    if s.measured {
      gauges := gauges + {Series(WorkloadPods, lv), Series(WorkloadStalePods, lv)};
    }
    if s.blockedOn.Some? {
      gauges := gauges + {Series(WorkloadRetryState, lv + [s.blockedOn.value])};
    }
    match s.autoscaler {
      case None =>
        gauges := gauges + set x | x in prev && (x.vec.AutoscalerPresent? || x.vec.AutoscalerTarget?);
      case Some(NoAutoscaler) =>
      case Some(Targeting(kind, targets)) =>
        gauges := gauges + {Series(AutoscalerPresent, lv + [kind])} +
                  set r | r in targets :: Series(AutoscalerTarget, lv + [kind, r]);
    }
  }

  /** The counters a pass adds to for an identity. */
  method CountersOf(s: IdentitySeries) returns (counters: set<Series>)
    ensures forall x :: x in counters <==> IdentityCounts(s, x)
  {
    var lv := Labels(s.key);
    counters := {};
    if s.attempts > 0 {
      counters := counters + {Series(WorkloadRetryAttempts, lv)};
    }
    ghost var c0 := counters;
    for i := 0 to |s.members|
      invariant forall x :: x in counters <==>
                  x in c0 || exists m, r :: m in s.members[..i] && r in m.suppressed && x == Series(RecycleSuppressed, lv + [r])
    {
      assert s.members[..i + 1] == s.members[..i] + [s.members[i]];
      counters := counters + set r | r in s.members[i].suppressed :: Series(RecycleSuppressed, lv + [r]);
    }
    assert s.members[..|s.members|] == s.members;
    if s.tooYoung {
      counters := counters + {Series(RecommendationSkipped, lv + ["workload_too_young"])};
    }
    ghost var c1 := counters;
    for i := 0 to |s.floors|
      invariant forall x :: x in counters <==>
                  x in c1 || exists f :: f in s.floors[..i] && (x == Series(OomFloorApplied, lv + [f.container]) ||
                                                                (f.live && x == Series(OomReactionLatency, lv)))
    {
      var f := s.floors[i];
      assert s.floors[..i + 1] == s.floors[..i] + [f];
      counters := counters + {Series(OomFloorApplied, lv + [f.container])};
      if f.live {
        counters := counters + {Series(OomReactionLatency, lv)};
      }
    }
    assert s.floors[..|s.floors|] == s.floors;
    if s.mismatch {
      counters := counters + {Series(AutoscalerMismatch, lv)};
    }
  }

  // ---- States in the middle of a publication ----

  /** `pending` are gauges `policy` already wrote but does not track yet; `including` what its pass includes so far. */
  ghost predicate Mid(st: State, policy: string, pending: set<Series>, including: set<Identity>) {
    && Owned(st) && OwnedBy(Published(pending, {}), OfPolicy(policy)) && LiveWith(st, pending)
    && (forall id :: id in st.identities <==> Included(st.policies, id) || id in including)
  }

  ghost predicate LiveWith(st: State, pending: set<Series>) {
    forall x :: x in st.live <==> Tracked(st, x) || x in pending
  }

  function Of(identities: map<Identity, Published>, id: Identity): Published {
    if id in identities then identities[id] else NOTHING
  }

  function PolicyOf(policies: map<string, PolicyPublished>, policy: string): PolicyPublished {
    if policy in policies then policies[policy] else PolicyPublished(NOTHING, {})
  }

  /** The registry and the records once an identity's gauges are replaced and counters of it added. */
  function Replaced(st: State, key: Identity, gauges: set<Series>, counters: set<Series>): State {
    var prev := Of(st.identities, key);
    State(st.policies, st.identities[key := Published(gauges, prev.counters + counters)],
          ((st.live + gauges) - (prev.gauges - gauges)) + counters)
  }

  /** Replacing an identity's gauges and adding counters keeps what is live and what is tracked together. */
  lemma IdentityReplaced(st: State, policy: string, pending: set<Series>, including: set<Identity>,
                         s: IdentitySeries, gauges: set<Series>, counters: set<Series>)
    requires Mid(st, policy, pending, including)
    requires forall x :: x in gauges <==> IdentityDesires(s, Of(st.identities, s.key).gauges, x)
    requires forall x :: x in counters <==> IdentityCounts(s, x)
    ensures Mid(Replaced(st, s.key, gauges, counters), policy, pending, including + {s.key})
  {
    var prev := Of(st.identities, s.key);
    forall x ensures x in gauges ==> OwnerOf(x) == Some(OfIdentity(s.key)) && IsGauge(x.vec) {
      IdentitySeriesAreOwned(s, prev.gauges, x);
    }
    forall x ensures x in counters ==> OwnerOf(x) == Some(OfIdentity(s.key)) && !IsGauge(x.vec) {
      IdentitySeriesAreOwned(s, prev.gauges, x);
    }
    ReplacedOwned(st, s.key, gauges, counters);
    var st' := Replaced(st, s.key, gauges, counters);
    forall x ensures x in st'.live <==> Tracked(st', x) || x in pending {
      ReplacedTracked(st, policy, pending, s.key, gauges, counters, x);
    }
  }

  lemma ReplacedOwned(st: State, key: Identity, gauges: set<Series>, counters: set<Series>)
    requires Owned(st) && OwnedBy(Published(gauges, counters), OfIdentity(key))
    ensures Owned(Replaced(st, key, gauges, counters))
  {
    assert OwnedBy(Of(st.identities, key), OfIdentity(key));
  }

  lemma ReplacedTracked(st: State, policy: string, pending: set<Series>, key: Identity, gauges: set<Series>,
                        counters: set<Series>, x: Series)
    requires Owned(st) && OwnedBy(Published(pending, {}), OfPolicy(policy))
    requires x in st.live <==> Tracked(st, x) || x in pending
    requires OwnedBy(Published(gauges, counters), OfIdentity(key))
    ensures x in Replaced(st, key, gauges, counters).live <==> Tracked(Replaced(st, key, gauges, counters), x) || x in pending
  {
    assert OwnedBy(Of(st.identities, key), OfIdentity(key));
  }

  /** What a Policy's publication leaves of each identity. */
  ghost predicate IdentityPublished(before: map<Identity, Published>, after: map<Identity, Published>, s: IdentitySeries) {
    && s.key in after
    && (forall x :: x in after[s.key].gauges <==> IdentityDesires(s, Of(before, s.key).gauges, x))
    && (forall x :: x in after[s.key].counters <==> x in Of(before, s.key).counters || IdentityCounts(s, x))
  }

  /** After a pass an identity has pod gauges exactly when it was measured, and a retry state only of its Blocked step. */
  lemma StatePublished(before: map<Identity, Published>, after: map<Identity, Published>, s: IdentitySeries, step: string)
    requires IdentityPublished(before, after, s)
    ensures var lv, gauges := [s.key.namespace, s.key.kind, s.key.name], after[s.key].gauges;
            && (Series(WorkloadPods, lv) in gauges <==> s.measured)
            && (Series(WorkloadStalePods, lv) in gauges <==> s.measured)
            && (Series(WorkloadRetryState, lv + [step]) in gauges <==> s.blockedOn == Some(step))
  {
    var lv := [s.key.namespace, s.key.kind, s.key.name];
    assert (lv + [step])[3] == step;
    assert s.blockedOn.Some? ==> (lv + [s.blockedOn.value])[3] == s.blockedOn.value;
  }

  /** Its autoscaler gauges are those of the autoscaler the pass read, or as they were when it read none. */
  lemma AutoscalerPublished(before: map<Identity, Published>, after: map<Identity, Published>, s: IdentitySeries,
                            kind: string, resource: string)
    requires IdentityPublished(before, after, s)
    ensures var lv, gauges := [s.key.namespace, s.key.kind, s.key.name], after[s.key].gauges;
            var present, target := Series(AutoscalerPresent, lv + [kind]), Series(AutoscalerTarget, lv + [kind, resource]);
            if s.autoscaler.None? then
              && (present in gauges <==> s.key in before && present in before[s.key].gauges)
              && (target in gauges <==> s.key in before && target in before[s.key].gauges)
            else if s.autoscaler.value.NoAutoscaler? then present !in gauges && target !in gauges
            else
              && (present in gauges <==> kind == s.autoscaler.value.kind)
              && (target in gauges <==> kind == s.autoscaler.value.kind && resource in s.autoscaler.value.targets)
  {
    var lv := [s.key.namespace, s.key.kind, s.key.name];
    var present, target := Series(AutoscalerPresent, lv + [kind]), Series(AutoscalerTarget, lv + [kind, resource]);
    assert present.values[3] == kind && target.values[3] == kind && target.values[4] == resource;
    if s.autoscaler.Some? && s.autoscaler.value.Targeting? {
      assert (lv + [s.autoscaler.value.kind])[3] == s.autoscaler.value.kind;
      forall r ensures (lv + [s.autoscaler.value.kind, r])[3] == s.autoscaler.value.kind && (lv + [s.autoscaler.value.kind, r])[4] == r {
      }
    }
  }

  /** It has a counter once some pass had something to count in it. */
  lemma CountersPublished(before: map<Identity, Published>, after: map<Identity, Published>, s: IdentitySeries)
    requires IdentityPublished(before, after, s)
    ensures var lv, counters := [s.key.namespace, s.key.kind, s.key.name], after[s.key].counters;
            var was := if s.key in before then before[s.key].counters else {};
            var attempts, mismatch := Series(WorkloadRetryAttempts, lv), Series(AutoscalerMismatch, lv);
            var skipped := Series(RecommendationSkipped, lv + ["workload_too_young"]);
            && (attempts in counters <==> s.attempts > 0 || attempts in was)
            && (mismatch in counters <==> s.mismatch || mismatch in was)
            && (skipped in counters <==> s.tooYoung || skipped in was)
  {
  }

  /** So with the reasons some member's recycling was suppressed for, and the kills some memory was held up for. */
  lemma ReasonsPublished(before: map<Identity, Published>, after: map<Identity, Published>, s: IdentitySeries,
                         reason: string, container: string)
    requires IdentityPublished(before, after, s)
    ensures var lv, counters := [s.key.namespace, s.key.kind, s.key.name], after[s.key].counters;
            var was := if s.key in before then before[s.key].counters else {};
            var suppressed, applied := Series(RecycleSuppressed, lv + [reason]), Series(OomFloorApplied, lv + [container]);
            var latency := Series(OomReactionLatency, lv);
            && (suppressed in counters <==> (exists m :: m in s.members && reason in m.suppressed) || suppressed in was)
            && (applied in counters <==> (exists f :: f in s.floors && f.container == container) || applied in was)
            && (latency in counters <==> (exists f :: f in s.floors && f.live) || latency in was)
  {
    var lv := Labels(s.key);
    assert (lv + [reason])[3] == reason && (lv + [container])[3] == container;
    forall r ensures (lv + [r])[3] == r {
    }
  }

  /**
   * The Policy has a container's gauge exactly when a member of some identity of the pass has that container with that
   * number recommended or declared, and its own four always.
   */
  lemma ContainersPublished(gauges: set<Series>, policy: string, pub: Publication, lv: seq<string>)
    requires (forall x :: x in gauges <==> PolicyDesires(policy, pub, x)) && |lv| == 6 && lv[5] == policy
    ensures Series(RecommendedCpu, lv) in gauges <==> exists s, m, c :: Holds(pub, lv, s, m, c) && c.recCpu
    ensures Series(RecommendedMemory, lv) in gauges <==> exists s, m, c :: Holds(pub, lv, s, m, c) && c.recMemory
    ensures Series(TemplateCpu, lv) in gauges <==> exists s, m, c :: Holds(pub, lv, s, m, c) && c.templateCpu
    ensures Series(TemplateMemory, lv) in gauges <==> exists s, m, c :: Holds(pub, lv, s, m, c) && c.templateMemory
    ensures Series(PolicyWorkloadCount, [policy]) in gauges && Series(PolicyBlockedCount, [policy]) in gauges
    ensures Series(PolicyBatchRequested, [policy]) in gauges && Series(PolicyBatchResolved, [policy]) in gauges
  {
    ContainerPublished(policy, pub, RecommendedCpu, lv);
    ContainerPublished(policy, pub, RecommendedMemory, lv);
    ContainerPublished(policy, pub, TemplateCpu, lv);
    ContainerPublished(policy, pub, TemplateMemory, lv);
    forall x | x in PolicyGauges(policy) ensures x in gauges {
      assert PolicyDesires(policy, pub, x);
    }
  }

  /** The container of a member of an identity of the pass that the first five labels name. */
  ghost predicate Holds(pub: Publication, lv: seq<string>, s: IdentitySeries, m: MemberSeries, c: ContainerSeries)
    requires |lv| == 6
  {
    && s in pub.identities && m in s.members && c in m.containers
    && s.key.namespace == lv[0] && m.kind == lv[1] && m.name == lv[2] && c.name == lv[3] && c.kind == lv[4]
  }

  predicate Shows(c: ContainerSeries, v: Vec) {
    (v.RecommendedCpu? && c.recCpu) || (v.RecommendedMemory? && c.recMemory) ||
    (v.TemplateCpu? && c.templateCpu) || (v.TemplateMemory? && c.templateMemory)
  }

  lemma ContainerPublished(policy: string, pub: Publication, v: Vec, lv: seq<string>)
    requires PerContainer(v) && |lv| == 6 && lv[5] == policy
    ensures PolicyDesires(policy, pub, Series(v, lv)) <==> exists s, m, c :: Holds(pub, lv, s, m, c) && Shows(c, v)
  {
    var x := Series(v, lv);
    if s, m, c :| Holds(pub, lv, s, m, c) && Shows(c, v) {
      ContainerShows(policy, s.key, m, c, v, lv);
      assert MemberDesires(policy, s, x);
    }
    if PolicyDesires(policy, pub, x) {
      var s :| s in pub.identities && MemberDesires(policy, s, x);
      var m, c :| m in s.members && c in m.containers && x in ContainerGauges(policy, s.key, m, c);
      ContainerShows(policy, s.key, m, c, v, lv);
      assert Holds(pub, lv, s, m, c);
    }
  }

  lemma ContainerShows(policy: string, id: Identity, m: MemberSeries, c: ContainerSeries, v: Vec, lv: seq<string>)
    requires PerContainer(v) && |lv| == 6 && lv[5] == policy
    ensures Series(v, lv) in ContainerGauges(policy, id, m, c) <==>
            && id.namespace == lv[0] && m.kind == lv[1] && m.name == lv[2] && c.name == lv[3] && c.kind == lv[4] && Shows(c, v)
  {
    var own := [id.namespace, m.kind, m.name, c.name, c.kind, policy];
    assert own == lv <==> own[0] == lv[0] && own[1] == lv[1] && own[2] == lv[2] && own[3] == lv[3] && own[4] == lv[4];
  }

  ghost predicate AllPublished(before: map<Identity, Published>, after: map<Identity, Published>, ss: seq<IdentitySeries>) {
    forall s :: s in ss ==> IdentityPublished(before, after, s)
  }

  /** What some Policy includes is tracked as it was. */
  ghost predicate IncludedStand(policies: map<string, PolicyPublished>, before: map<Identity, Published>,
                                after: map<Identity, Published>) {
    forall id :: Included(policies, id) ==> id in after && id in before && after[id] == before[id]
  }

  /** Of what is included once a publication is closed, the identities it published are as it left them. */
  lemma PublicationStands(policies: map<string, PolicyPublished>, before: map<Identity, Published>,
                          published: map<Identity, Published>,
                          after: map<Identity, Published>, ss: seq<IdentitySeries>)
    requires IncludedStand(policies, published, after) && forall id :: id in KeysOf(ss) ==> Included(policies, id)
    requires AllPublished(before, published, ss)
    ensures AllPublished(before, after, ss)
  {
    forall s | s in ss ensures IdentityPublished(before, after, s) {
      assert s.key in KeysOf(ss);
    }
  }

  lemma OthersStand(policies: map<string, PolicyPublished>, before: map<Identity, Published>,
                    published: map<Identity, Published>,
                    after: map<Identity, Published>, but: set<Identity>)
    requires IncludedStand(policies, published, after) && IdentitiesUntouched(before, published, but)
    ensures forall id :: Included(policies, id) && id !in but ==> id in after && id in before && after[id] == before[id]
  {
  }

  ghost predicate MembersWritten(policy: string, own: set<Series>, ss: seq<IdentitySeries>, gauges: set<Series>) {
    forall x :: x in gauges <==> (x in own || exists s :: s in ss && MemberDesires(policy, s, x))
  }

  lemma MembersWrittenNext(policy: string, own: set<Series>, ss: seq<IdentitySeries>, gauges: set<Series>,
                           s: IdentitySeries, more: set<Series>)
    requires MembersWritten(policy, own, ss, gauges) && forall x :: x in more <==> MemberDesires(policy, s, x)
    ensures MembersWritten(policy, own, ss + [s], gauges + more)
  {
    assert s in ss + [s];
  }

  ghost predicate IdentitiesUntouched(before: map<Identity, Published>, after: map<Identity, Published>,
                                      but: set<Identity>) {
    forall id :: id !in but ==>
      (id in after <==> id in before) && (id in after ==> after[id] == before[id])
  }

  lemma OneMorePublished(first: map<Identity, Published>, before: map<Identity, Published>, after: map<Identity, Published>,
                         pub: Publication, i: nat)
    requires i < |pub.identities| && DistinctKeys(pub)
    requires IdentitiesUntouched(first, before, KeysOf(pub.identities[..i]))
    requires AllPublished(first, before, pub.identities[..i])
    requires var s := pub.identities[i];
             IdentityPublished(before, after, s) && after == before[s.key := after[s.key]]
    ensures AllPublished(first, after, pub.identities[..i + 1])
  {
    var s := pub.identities[i];
    assert s.key !in KeysOf(pub.identities[..i]);
    assert Of(before, s.key) == Of(first, s.key);
    forall r | r in pub.identities[..i + 1] ensures IdentityPublished(first, after, r) {
      if r in pub.identities[..i] {
        assert IdentityPublished(first, before, r) && r.key != s.key;
      }
    }
  }

  ghost predicate DistinctKeys(pub: Publication) {
    forall i, j :: 0 <= i < j < |pub.identities| ==> pub.identities[i].key != pub.identities[j].key
  }

  function KeysOf(ss: seq<IdentitySeries>): set<Identity> {
    set s | s in ss :: s.key
  }

  class Publisher {
    var policies: map<string, PolicyPublished>
    var identities: map<Identity, Published>
    // the registry
    var live: set<Series>

    ghost function Model(): State
      reads this
    {
      State(policies, identities, live)
    }

    constructor ()
      ensures Consistent(Model()) && policies == map[] && identities == map[]
    {
      policies, identities, live := map[], map[], {};
    }

    /** Replaces the gauges of an identity, creating it, and adds to its counters. */
    method PublishIdentity(s: IdentitySeries, ghost policy: string, ghost pending: set<Series>,
                           ghost including: set<Identity>)
      requires Mid(Model(), policy, pending, including)
      modifies this
      ensures Mid(Model(), policy, pending, including + {s.key})
      ensures policies == old(policies) && identities == old(identities)[s.key := identities[s.key]]
      ensures IdentityPublished(old(identities), identities, s)
    {
      var prev := Of(identities, s.key);
      var gauges := GaugesOf(s, prev.gauges);
      var counters := CountersOf(s);
      IdentityReplaced(Model(), policy, pending, including, s, gauges, counters);
      live := live + gauges;
      live := live - (prev.gauges - gauges);
      live := live + counters;
      identities := identities[s.key := Published(gauges, prev.counters + counters)];
    }

    /** Restores consistency where only identities of `ids` are tracked without being `Included`. */
    method DropLocked(ids: set<Identity>)
      requires Owned(Model()) && forall x :: x in live <==> Tracked(Model(), x)
      requires forall id :: Included(policies, id) ==> id in identities
      requires forall id :: id in identities ==> Included(policies, id) || id in ids
      modifies this
      ensures Consistent(Model())
      ensures policies == old(policies)
      ensures IncludedStand(policies, old(identities), identities)
    {
      var left := ids;
      while left != {}
        invariant left <= ids
        invariant policies == old(policies)
        invariant Owned(Model()) && forall x :: x in live <==> Tracked(Model(), x)
        invariant IncludedStand(policies, old(identities), identities)
        invariant forall id :: id in identities ==> Included(policies, id) || id in left
        decreases left
      {
        var key :| key in left;
        left := left - {key};
        if !Included(policies, key) && key in identities {
          live := live - identities[key].gauges;
          live := live - identities[key].counters;
          identities := identities - {key};
        }
      }
    }

    /** Publishes every identity of a pass, and writes its members' gauges beside the Policy's own. */
    method PublishIdentities(policy: string, pub: Publication, own: set<Series>)
      returns (gauges: set<Series>, included: set<Identity>)
      requires Mid(Model(), policy, own, {})
      modifies this
      ensures policies == old(policies)
      ensures Mid(Model(), policy, gauges, included)
      ensures included == KeysOf(pub.identities)
      ensures MembersWritten(policy, own, pub.identities, gauges)
      ensures IdentitiesUntouched(old(identities), identities, included)
      ensures DistinctKeys(pub) ==> AllPublished(old(identities), identities, pub.identities)
    {
      gauges, included := own, {};
      for i := 0 to |pub.identities|
        invariant policies == old(policies)
        invariant Mid(Model(), policy, gauges, included)
        invariant included == KeysOf(pub.identities[..i])
        invariant MembersWritten(policy, own, pub.identities[..i], gauges)
        invariant IdentitiesUntouched(old(identities), identities, included)
        invariant DistinctKeys(pub) ==> AllPublished(old(identities), identities, pub.identities[..i])
      {
        var s := pub.identities[i];
        assert pub.identities[..i + 1] == pub.identities[..i] + [s];
        var more := MembersGauges(policy, s);
        MoreGauges(Model(), policy, gauges, included, s, more);
        MembersWrittenNext(policy, own, pub.identities[..i], gauges, s, more);
        live := live + more;
        gauges := gauges + more;
        ghost var before := identities;
        PublishIdentity(s, policy, gauges, included);
        if DistinctKeys(pub) {
          OneMorePublished(old(identities), before, identities, pub, i);
        }
        included := included + {s.key};
      }
      assert pub.identities[..|pub.identities|] == pub.identities;
    }

    /** Replaces what the Policy's last pass published, then deletes what nothing desires any more. */
    method Publish(policy: string, pub: Publication)
      requires Consistent(Model())
      modifies this
      ensures Consistent(Model())
      ensures policy in policies && policies == old(policies)[policy := policies[policy]]
      ensures policies[policy].identities == KeysOf(pub.identities)
      ensures forall x :: x in policies[policy].series.gauges <==> PolicyDesires(policy, pub, x)
      ensures policies[policy].series.counters == PolicyOf(old(policies), policy).series.counters +
                if pub.fetchFailed > 0 then {Series(PolicyBatchFailures, [policy])} else {}
      ensures forall id :: Included(policies, id) && id !in KeysOf(pub.identities) ==>
                id in identities && id in old(identities) && identities[id] == old(identities)[id]
      ensures DistinctKeys(pub) ==> AllPublished(old(identities), identities, pub.identities)
      ensures OthersSpared(old(Model()), Model(), policy, KeysOf(pub.identities))
    {
      OpenPublication(policy, pub);
      var gauges, included := PublishIdentities(policy, pub, PolicyGauges(policy));
      ghost var published := identities;
      ClosePublication(policy, gauges, included);
      if DistinctKeys(pub) {
        PublicationStands(policies, old(identities), published, identities, pub.identities);
      }
      OthersStand(policies, old(identities), published, identities, included);
      DeletionSparesOthers(old(Model()), Model(), policy, included);
    }

    /** Creates the Policy if need be, counts its failed fetches and writes its own gauges. */
    method OpenPublication(policy: string, pub: Publication)
      requires Consistent(Model())
      modifies this
      ensures policy in policies && Mid(Model(), policy, PolicyGauges(policy), {})
      ensures var was := PolicyOf(old(policies), policy);
              policies == old(policies)[policy :=
                was.(series := was.series.(counters := was.series.counters + FailureCounters(policy, pub)))]
      ensures identities == old(identities)
    {
      var pol := PolicyOf(policies, policy);
      var failures := FailureCounters(policy, pub);
      PolicyCounted(Model(), policy, pol.identities, failures);
      live := live + failures;
      policies := policies[policy := pol.(series := pol.series.(counters := pol.series.counters + failures))];
      Opened(Model(), policy);
      live := live + PolicyGauges(policy);
    }

    /** Makes the gauges written the Policy's, and drops what nothing includes any more. */
    method ClosePublication(policy: string, gauges: set<Series>, included: set<Identity>)
      requires policy in policies && Mid(Model(), policy, gauges, included)
      modifies this
      ensures Consistent(Model())
      ensures policies == old(policies)[policy :=
                PolicyPublished(old(policies)[policy].series.(gauges := gauges), included)]
      ensures IncludedStand(policies, old(identities), identities)
      ensures forall id :: id in included ==> Included(policies, id)
    {
      var prev := policies[policy];
      GaugesReplaced(Model(), policy, gauges, included);
      live := live - (prev.series.gauges - gauges);
      policies := policies[policy := PolicyPublished(prev.series.(gauges := gauges), included)];
      DropLocked(prev.identities);
    }

    /** Counts a reconcile and its duration. */
    method Reconciled(policy: string, result: string)
      requires Consistent(Model())
      modifies this
      ensures Consistent(Model()) && identities == old(identities)
      ensures policy in policies && policies == old(policies)[policy := policies[policy]]
      ensures policies[policy] == var was := PolicyOf(old(policies), policy);
                was.(series := was.series.(counters := was.series.counters +
                       {Series(ReconcileTotal, [policy, result]), Series(ReconcileDuration, [policy])}))
    {
      var pol := PolicyOf(policies, policy);
      var counters := {Series(ReconcileTotal, [policy, result]), Series(ReconcileDuration, [policy])};
      PolicyCounted(Model(), policy, pol.identities, counters);
      live := live + counters;
      policies := policies[policy := pol.(series := pol.series.(counters := pol.series.counters + counters))];
    }

    /** Counts an OOM kill: the Policy includes the identity until its next pass. */
    method ObservedOOM(policy: string, id: Identity, container: string)
      requires Consistent(Model())
      modifies this
      ensures Consistent(Model())
      ensures var was := PolicyOf(old(policies), policy);
              policies == old(policies)[policy := was.(identities := was.identities + {id})]
      ensures var was := Of(old(identities), id);
              identities == old(identities)[id := was.(counters := was.counters + {Series(OomObserved, Labels(id) + [container])})]
    {
      var pol := PolicyOf(policies, policy);
      var was := Of(identities, id);
      var x := Series(OomObserved, Labels(id) + [container]);
      KillCounted(Model(), policy, id, x);
      live := live + {x};
      policies := policies[policy := pol.(identities := pol.identities + {id})];
      identities := identities[id := was.(counters := was.counters + {x})];
    }

    /** Drops the Policy and its series, then `DropLocked` what it alone included. */
    method Forget(policy: string)
      requires Consistent(Model())
      modifies this
      ensures Consistent(Model())
      ensures policies == old(policies) - {policy}
      ensures forall x :: x in live ==> OwnerOf(x) != Some(OfPolicy(policy))
      ensures IncludedStand(policies, old(identities), identities)
      ensures OthersSpared(old(Model()), Model(), policy, {})
    {
      if policy !in policies {
        assert policies == policies - {policy};
        DeletionSparesOthers(Model(), Model(), policy, {});
        return;
      }
      var pol := policies[policy];
      PolicyForgotten(Model(), policy);
      policies := policies - {policy};
      live := live - pol.series.gauges;
      live := live - pol.series.counters;
      DropLocked(pol.identities);
      DeletionSparesOthers(old(Model()), Model(), policy, {});
    }
  }

  /** Empty rather than a count of nothing. */
  function FailureCounters(policy: string, pub: Publication): set<Series> {
    if pub.fetchFailed > 0 then {Series(PolicyBatchFailures, [policy])} else {}
  }

  lemma Opened(st: State, policy: string)
    requires Consistent(st)
    ensures Mid(State(st.policies, st.identities, st.live + PolicyGauges(policy)), policy, PolicyGauges(policy), {})
  {
  }

  lemma MoreGauges(st: State, policy: string, pending: set<Series>, including: set<Identity>, s: IdentitySeries,
                   more: set<Series>)
    requires Mid(st, policy, pending, including)
    requires forall x :: x in more <==> MemberDesires(policy, s, x)
    ensures Mid(State(st.policies, st.identities, st.live + more), policy, pending + more, including)
  {
    var pub := Publication(0, [s]);
    forall x | x in more ensures OwnerOf(x) == Some(OfPolicy(policy)) && IsGauge(x.vec) {
      assert s in pub.identities;
      PolicySeriesAreOwned(policy, pub, x);
    }
  }

  /** Once the Policy tracks the gauges it wrote, only identities its last pass included may be left over. */
  lemma GaugesReplaced(st: State, policy: string, gauges: set<Series>, included: set<Identity>)
    requires Mid(st, policy, gauges, included) && policy in st.policies
    ensures var prev := st.policies[policy];
            var st' := State(st.policies[policy := PolicyPublished(prev.series.(gauges := gauges), included)],
                             st.identities, st.live - (prev.series.gauges - gauges));
            && Owned(st') && (forall x :: x in st'.live <==> Tracked(st', x))
            && (forall id :: Included(st'.policies, id) ==> id in st.identities)
            && (forall id :: id in st.identities ==> Included(st'.policies, id) || id in prev.identities)
            && (forall id :: id in included ==> Included(st'.policies, id))
  {
    var prev := st.policies[policy];
    var policies := st.policies[policy := PolicyPublished(prev.series.(gauges := gauges), included)];
    forall id | Included(policies, id) ensures id in st.identities {
      var p :| p in policies && id in policies[p].identities;
      if p != policy {
        assert p in st.policies && id in st.policies[p].identities;
      }
    }
    forall id | id in included ensures Included(policies, id) {
      assert policy in policies && id in policies[policy].identities;
    }
    forall id | id in st.identities ensures Included(policies, id) || id in prev.identities {
      if Included(st.policies, id) {
        var p :| p in st.policies && id in st.policies[p].identities;
        if p != policy {
          assert p in policies && id in policies[p].identities;
        }
      }
    }
  }

  /** Adding counters to a Policy, creating it, keeps the state consistent. */
  lemma PolicyCounted(st: State, policy: string, ids: set<Identity>, counters: set<Series>)
    requires Consistent(st) && ids == PolicyOf(st.policies, policy).identities
    requires forall x :: x in counters ==> OwnerOf(x) == Some(OfPolicy(policy)) && !IsGauge(x.vec)
    ensures var pol := PolicyOf(st.policies, policy);
            Consistent(State(st.policies[policy := PolicyPublished(pol.series.(counters := pol.series.counters + counters), ids)],
                             st.identities, st.live + counters))
  {
    var pol := PolicyOf(st.policies, policy);
    var policies := st.policies[policy := PolicyPublished(pol.series.(counters := pol.series.counters + counters), ids)];
    IncludedKept(st.policies, policies, policy);
  }

  lemma IncludedKept(policies: map<string, PolicyPublished>, policies': map<string, PolicyPublished>, policy: string)
    requires policies' == policies[policy := PolicyOf(policies', policy)]
    requires PolicyOf(policies', policy).identities == PolicyOf(policies, policy).identities
    ensures forall id :: Included(policies', id) <==> Included(policies, id)
  {
    forall id ensures Included(policies', id) <==> Included(policies, id) {
      if p :| p in policies && id in policies[p].identities {
        assert p in policies' && id in policies'[p].identities;
      }
      if p :| p in policies' && id in policies'[p].identities {
        assert p in policies && id in policies[p].identities;
      }
    }
  }

  lemma KillCounted(st: State, policy: string, id: Identity, x: Series)
    requires Consistent(st) && OwnerOf(x) == Some(OfIdentity(id)) && !IsGauge(x.vec)
    ensures Consistent(Counted(st, policy, id, x))
  {
    KillIncludes(st.policies, policy, id);
    KillOwned(st, policy, id, x);
    KillTracked(st, policy, id, x);
  }

  /** The registry and the publisher's records once a kill of the identity is counted in `x`. */
  ghost function Counted(st: State, policy: string, id: Identity, x: Series): State {
    var pol, was := PolicyOf(st.policies, policy), Of(st.identities, id);
    State(st.policies[policy := pol.(identities := pol.identities + {id})],
          st.identities[id := was.(counters := was.counters + {x})], st.live + {x})
  }

  lemma KillOwned(st: State, policy: string, id: Identity, x: Series)
    requires Owned(st) && OwnerOf(x) == Some(OfIdentity(id)) && !IsGauge(x.vec)
    ensures Owned(Counted(st, policy, id, x))
  {
  }

  lemma KillTracked(st: State, policy: string, id: Identity, x: Series)
    requires Consistent(st) && OwnerOf(x) == Some(OfIdentity(id))
    ensures forall y :: y in Counted(st, policy, id, x).live <==> Tracked(Counted(st, policy, id, x), y)
  {
    forall y ensures y in Counted(st, policy, id, x).live <==> Tracked(Counted(st, policy, id, x), y) {
      assert y in st.live <==> Tracked(st, y);
    }
  }

  lemma KillIncludes(before: map<string, PolicyPublished>, policy: string, id: Identity)
    ensures var pol := PolicyOf(before, policy);
            forall jd :: Included(before[policy := pol.(identities := pol.identities + {id})], jd) <==> Included(before, jd) || jd == id
  {
    var pol := PolicyOf(before, policy);
    var policies := before[policy := pol.(identities := pol.identities + {id})];
    forall jd ensures Included(policies, jd) <==> Included(before, jd) || jd == id {
      assert policy in policies && id in policies[policy].identities;
      if p :| p in before && jd in before[p].identities {
        assert p in policies && jd in policies[p].identities;
      }
      if p :| p in policies && jd in policies[p].identities && jd != id {
        assert p in before && jd in before[p].identities;
      }
    }
  }

  lemma PolicyForgotten(st: State, policy: string)
    requires Consistent(st) && policy in st.policies
    ensures var pol := st.policies[policy];
            var st' := State(st.policies - {policy}, st.identities, st.live - pol.series.gauges - pol.series.counters);
            && Owned(st') && (forall x :: x in st'.live <==> Tracked(st', x))
            && (forall id :: Included(st'.policies, id) ==> id in st.identities)
            && (forall id :: id in st.identities ==> Included(st'.policies, id) || id in pol.identities)
            && (forall x :: x in st'.live ==> OwnerOf(x) != Some(OfPolicy(policy)))
  {
    var policies := st.policies - {policy};
    forall id ensures Included(policies, id) ==> Included(st.policies, id) {
      if p :| p in policies && id in policies[p].identities {
        assert p in st.policies && id in st.policies[p].identities;
      }
    }
    forall id | Included(st.policies, id) ensures Included(policies, id) || id in st.policies[policy].identities {
      var p :| p in st.policies && id in st.policies[p].identities;
      if p != policy {
        assert p in policies && id in policies[p].identities;
      }
    }
  }
}
