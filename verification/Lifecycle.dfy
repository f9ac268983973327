/** A stored WorkloadRecommendation: what each write makes of it and what it means to a pod (internal/wlrcache). */
module Lifecycle {
  import opened Common
  import opened Resources
  import opened MergePatch

  const REFRESH_INTERVAL: int := 10 * MINUTE
  const MIN_STALENESS_BUDGET: int := 30 * MINUTE
  const SWEEP_GRACE: int := 10 * MINUTE

  datatype RecordedOutcome = Computed | NoData | TooYoung | FetchFailed | Conflicted

  /** The members of a container's stored object; a false flag is not stored. */
  datatype Slot = CpuRequest | MemoryRequest | CpuLimit | MemoryLimit | RemoveCpuLimit | RemoveMemoryLimit | Init

  type Fields = map<Slot, int>

  type Table = map<string, Fields>

  /** No policy is the empty name, and an unset time is `None`. */
  datatype Status = Status(
    observedAt: Option<Time>,
    outcome: Option<RecordedOutcome>,
    computedBy: string,
    departed: bool,
    servableUntil: Option<Time>,
    containers: Table,
    observed: Table)

  datatype Object = Object(name: string, uid: nat, rv: nat, created: Time, policy: string, policyLabel: string, status: Status)

  datatype Lifetimes = Lifetimes(reconcileInterval: int, retention: int) {
    predicate Valid() {
      reconcileInterval > 0 && retention > 0
    }

    function StalenessBudget(): int {
      Max(MIN_STALENESS_BUDGET, 3 * reconcileInterval)
    }
  }

  // ---- Stored Recommendations ----

  function SlotOf(f: Fields, s: Slot): Option<int> {
    if s in f then Some(f[s]) else None
  }

  const SLOTS: set<Slot> := {CpuRequest, MemoryRequest, CpuLimit, MemoryLimit, RemoveCpuLimit, RemoveMemoryLimit}

  function Flag(b: bool): Option<int> {
    if b then Some(1) else None
  }

  function MemberOf(rec: ContainerRecommendation, s: Slot): Option<int> {
    match s
    case CpuRequest => rec.cpuRequest
    case MemoryRequest => rec.memoryRequest
    case CpuLimit => rec.cpuLimit
    case MemoryLimit => rec.memoryLimit
    case RemoveCpuLimit => Flag(rec.removeCpuLimit)
    case RemoveMemoryLimit => Flag(rec.removeMemoryLimit)
    case Init => None
  }

  function Encode(rec: ContainerRecommendation): Fields {
    map s | s in SLOTS && MemberOf(rec, s).Some? :: MemberOf(rec, s).value
  }

  function Decode(f: Fields): ContainerRecommendation {
    ContainerRecommendation(
      SlotOf(f, CpuRequest), SlotOf(f, MemoryRequest), SlotOf(f, CpuLimit), SlotOf(f, MemoryLimit),
      RemoveCpuLimit in f, RemoveMemoryLimit in f)
  }

  function EncodeAll(recs: Recommendation): Table {
    map name | name in recs :: Encode(recs[name])
  }

  function DecodeAll(containers: Table): Recommendation {
    map name | name in containers :: Decode(containers[name])
  }

  /** A Recommendation is served as it was stored. */
  lemma DecodeEncode(recs: Recommendation)
    ensures DecodeAll(EncodeAll(recs)) == recs
  {
    forall name | name in recs ensures Decode(Encode(recs[name])) == recs[name] {
      DecodeEncodeOne(recs[name]);
    }
  }

  lemma DecodeEncodeOne(rec: ContainerRecommendation)
    ensures Decode(Encode(rec)) == rec
  {
    var f := Encode(rec);
    assert forall s | s in SLOTS :: SlotOf(f, s) == MemberOf(rec, s);
    assert SlotOf(f, CpuRequest) == rec.cpuRequest && SlotOf(f, MemoryRequest) == rec.memoryRequest;
    assert SlotOf(f, CpuLimit) == rec.cpuLimit && SlotOf(f, MemoryLimit) == rec.memoryLimit;
  }

  // ---- Equality that ignores how a value is written ----

  /** An unset quantity and an explicit zero are the same. */
  predicate QuantityEqual(a: Option<int>, b: Option<int>) {
    var aZero, bZero := a.None? || a.value == 0, b.None? || b.value == 0;
    if aZero || bZero then aZero == bZero else a.value == b.value
  }

  predicate RecEquivalent(a: ContainerRecommendation, b: ContainerRecommendation) {
    && QuantityEqual(a.cpuRequest, b.cpuRequest) && QuantityEqual(a.memoryRequest, b.memoryRequest)
    && QuantityEqual(a.cpuLimit, b.cpuLimit) && QuantityEqual(a.memoryLimit, b.memoryLimit)
    && a.removeCpuLimit == b.removeCpuLimit && a.removeMemoryLimit == b.removeMemoryLimit
  }

  /** Every quantity has the same value, unset counting zero, and every limit is removed or not in both. */
  lemma EquivalentExactly(a: ContainerRecommendation, b: ContainerRecommendation)
    ensures RecEquivalent(a, b) <==>
            && Value(a.cpuRequest) == Value(b.cpuRequest) && Value(a.memoryRequest) == Value(b.memoryRequest)
            && Value(a.cpuLimit) == Value(b.cpuLimit) && Value(a.memoryLimit) == Value(b.memoryLimit)
            && (a.removeCpuLimit <==> b.removeCpuLimit) && (a.removeMemoryLimit <==> b.removeMemoryLimit)
  {
  }

  /** The same containers, each with equivalent values. */
  predicate RecsEquivalent(a: Recommendation, b: Recommendation) {
    |a| == |b| && forall name | name in a :: name in b && RecEquivalent(a[name], b[name])
  }

  predicate ObservedEqual(a: Table, b: Table) {
    && |a| == |b|
    && forall name | name in a ::
         name in b && RecEquivalent(Decode(a[name]), Decode(b[name])) && (Init in a[name] <==> Init in b[name])
  }

  predicate StatusEquivalent(a: Status, b: Status) {
    && a.outcome == b.outcome && a.computedBy == b.computedBy && a.departed == b.departed
    && RecsEquivalent(DecodeAll(a.containers), DecodeAll(b.containers))
    && ObservedEqual(a.observed, b.observed)
  }

  lemma SameSizeSubset<T>(a: set<T>, b: set<T>)
    requires a <= b && |a| == |b|
    ensures a == b
  {
    if x :| x in b && x !in a {
      assert a <= b - {x};
      SubsetIsSmaller(a, b - {x});
    }
  }

  lemma SubsetIsSmaller<T>(a: set<T>, b: set<T>)
    requires a <= b
    ensures |a| <= |b|
  {
    if a != {} {
      var x :| x in a;
      SubsetIsSmaller(a - {x}, b - {x});
    }
  }

  /** Comparing sizes and looking every name up one way is equality of the names: equivalence is symmetric. */
  lemma EquivalenceIsSymmetric(a: Recommendation, b: Recommendation)
    requires RecsEquivalent(a, b)
    ensures a.Keys == b.Keys && RecsEquivalent(b, a)
  {
    assert |a.Keys| == |a| && |b.Keys| == |b|;
    SameSizeSubset(a.Keys, b.Keys);
  }

  /** Two snapshots are equal exactly when they name the same containers, each of the same values and the same kind. */
  lemma ObservedEqualExactly(a: Table, b: Table)
    ensures ObservedEqual(a, b) <==>
            && a.Keys == b.Keys
            && forall name :: name in a ==>
                 && (forall s :: s in {CpuRequest, MemoryRequest, CpuLimit, MemoryLimit} ==>
                       Value(SlotOf(a[name], s)) == Value(SlotOf(b[name], s)))
                 && (forall s :: s in {RemoveCpuLimit, RemoveMemoryLimit, Init} ==> (s in a[name] <==> s in b[name]))
  {
    if ObservedEqual(a, b) {
      assert |a.Keys| == |a| && |b.Keys| == |b|;
      SameSizeSubset(a.Keys, b.Keys);
    }
    if a.Keys == b.Keys {
      assert |a.Keys| == |a| && |b.Keys| == |b|;
      forall name | name in a ensures ContainersAlike(a[name], b[name]) <==> FieldsAlike(a[name], b[name]) {
        AlikeExactly(a[name], b[name]);
      }
    }
  }

  predicate ContainersAlike(f: Fields, g: Fields) {
    RecEquivalent(Decode(f), Decode(g)) && (Init in f <==> Init in g)
  }

  predicate FieldsAlike(f: Fields, g: Fields) {
    && (forall s | s in {CpuRequest, MemoryRequest, CpuLimit, MemoryLimit} :: Value(SlotOf(f, s)) == Value(SlotOf(g, s)))
    && (forall s | s in {RemoveCpuLimit, RemoveMemoryLimit, Init} :: s in f <==> s in g)
  }

  lemma AlikeExactly(f: Fields, g: Fields)
    ensures ContainersAlike(f, g) <==> FieldsAlike(f, g)
  {
    EquivalentExactly(Decode(f), Decode(g));
  }

  // ---- Stamps ----

  /** The last computation, or the creation when nothing was computed since. */
  function LastComputed(created: Time, observedAt: Option<Time>): Time {
    if observedAt.None? || created > observedAt.value then created else observedAt.value
  }

  predicate Frozen(status: Status) {
    status.departed || status.outcome == Some(Conflicted)
  }

  function Window(l: Lifetimes, status: Status): int {
    if Frozen(status) then l.retention else l.StalenessBudget()
  }

  function ServableUntil(l: Lifetimes, created: Time, status: Status): Option<Time> {
    if status.containers == map[] then None
    else Some(ToSecond(ToSecond(LastComputed(created, status.observedAt)) + Window(l, status)))
  }

  /** Without `computed`, an unset stamp stays unset. */
  function Stamp(l: Lifetimes, known: Object, status: Status, computed: bool): Option<Time> {
    if known.status.servableUntil.None? && !computed then None
    else ServableUntil(l, known.created, status)
  }

  function OptToSecond(t: Option<Time>): Option<Time> {
    if t.Some? then Some(ToSecond(t.value)) else None
  }

  /** A status as the API stores it: times to the second. */
  function Serialized(status: Status): Status {
    status.(observedAt := OptToSecond(status.observedAt), servableUntil := OptToSecond(status.servableUntil))
  }

  lemma ToSecondIsIdempotent(t: Time)
    ensures ToSecond(ToSecond(t)) == ToSecond(t) && ToSecond(t) <= t < ToSecond(t) + SECOND
  {
  }

  /** Truncating a computation's time before or after it is stored stamps the same second. */
  lemma StampSurvivesStorage(l: Lifetimes, created: Time, status: Status)
    requires ToSecond(created) == created
    ensures ServableUntil(l, created, Serialized(status)) == ServableUntil(l, created, status)
    ensures OptToSecond(ServableUntil(l, created, status)) == ServableUntil(l, created, status)
  {
    if status.observedAt.Some? {
      var t := status.observedAt.value;
      ToSecondIsIdempotent(t);
      WholeSecondAbove(created, t);
    }
    if status.containers != map[] {
      ToSecondIsIdempotent(ToSecond(LastComputed(created, status.observedAt)) + Window(l, status));
    }
  }

  lemma WholeSecondAbove(a: Time, t: Time)
    requires ToSecond(a) == a
    ensures a > t ==> a > ToSecond(t)
    ensures a <= t ==> a <= ToSecond(t)
  {
  }

  // ---- Reading ----

  datatype Verdict = Absent | Undecided | NoRecommendation | Withheld | Stale | Fresh | Retained {
    predicate Injects() {
      Fresh? || Retained?
    }
  }

  datatype Reading = Reading(verdict: Verdict, recs: Recommendation)

  /** Naming the Policy comes first, then holding anything, then who computed it, then the stamp. */
  function Read(known: Option<Object>, policy: string, now: Time): Reading {
    if known.None? then Reading(Absent, map[])
    else
      var o := known.value;
      if o.policy != policy then Reading(Withheld, map[])
      else if o.status.containers == map[] then
        Reading(if o.status.outcome.None? then Undecided else NoRecommendation, map[])
      else if o.status.computedBy != policy then Reading(Withheld, map[])
      else if o.status.servableUntil.None? || now >= o.status.servableUntil.value then Reading(Stale, map[])
      else if Frozen(o.status) then Reading(Retained, DecodeAll(o.status.containers))
      else Reading(Fresh, DecodeAll(o.status.containers))
  }

  /** `Read` without its conditions on the object's own Policy and on time. */
  function Held(known: Option<Object>, policy: string): Option<Recommendation> {
    if known.None? || known.value.status.computedBy != policy || known.value.status.containers == map[] then None
    else Some(DecodeAll(known.value.status.containers))
  }

  /** A pod is injected exactly by its own Policy's unexpired numbers, on an object naming that Policy. */
  lemma InjectsExactly(known: Option<Object>, policy: string, now: Time)
    ensures Read(known, policy, now).verdict.Injects() <==>
            && known.Some? && known.value.policy == policy
            && Held(known, policy).Some?
            && known.value.status.servableUntil.Some? && now < known.value.status.servableUntil.value
    ensures Read(known, policy, now).verdict.Injects() ==> Some(Read(known, policy, now).recs) == Held(known, policy)
    ensures Read(known, policy, now).verdict.Injects() ==>
              (Read(known, policy, now).verdict.Retained? <==>
                 known.value.status.departed || known.value.status.outcome == Some(Conflicted))
  {
  }

  // ---- Writing ----

  function EmptyStatus(): Status {
    Status(None, None, "", false, None, map[], map[])
  }

  /** What a status patch computed from `known` makes of the status stored by then. */
  function PatchStatus(stored: Status, known: Status, desired: Status): Status {
    var k, d := Serialized(known), Serialized(desired);
    Status(
      PatchScalar(stored.observedAt, k.observedAt, d.observedAt),
      PatchScalar(stored.outcome, k.outcome, d.outcome),
      PatchScalar(stored.computedBy, k.computedBy, d.computedBy),
      PatchScalar(stored.departed, k.departed, d.departed),
      PatchScalar(stored.servableUntil, k.servableUntil, d.servableUntil),
      ApplyTable(stored.containers, DiffTable(k.containers, d.containers)),
      ApplyTable(stored.observed, DiffTable(k.observed, d.observed)))
  }

  /** Whether the webhook has a snapshot to add: a container the pod runs and an unattended object of its Policy lacks. */
  predicate ShouldRequest(known: Option<Object>, policy: string, observed: Table) {
    if known.None? then true
    else
      var o := known.value;
      && o.policy == policy && observed != map[]
      && (o.status.departed || o.status.observed == map[])
      && exists name :: name in observed && name !in o.status.observed
  }

  /** The webhook's snapshot write: what `known` holds wins over what the pod runs. */
  function RequestDesired(known: Object, observed: Table): Status {
    known.status.(observed := observed + known.status.observed)
  }

  /** Where there is nothing to request, a pod of the object's Policy runs nothing an unattended snapshot lacks. */
  lemma NothingToRequest(o: Object, policy: string, observed: Table)
    requires !ShouldRequest(Some(o), policy, observed) && o.policy == policy
    requires o.status.departed || o.status.observed == map[]
    ensures forall name :: name in observed ==> name in o.status.observed
  {
  }

  /** What a claim makes of the stored object: the spec and the label, patched from `known`. */
  function ClaimPatched(stored: Object, knownPolicy: string, knownLabel: string, policy: string): Object {
    stored.(policy := PatchScalar(stored.policy, knownPolicy, policy),
            policyLabel := PatchScalar(stored.policyLabel, knownLabel, policy))
  }

  predicate EnsureWrites(known: Object, observed: Option<Table>) {
    known.status.departed || (observed.Some? && !ObservedEqual(known.status.observed, observed.value))
  }

  function EnsureDesired(known: Object, observed: Option<Table>, l: Lifetimes): Status {
    var s := known.status.(departed := false,
                           observed := if observed.Some? then observed.value else known.status.observed);
    s.(servableUntil := Stamp(l, known, s, false))
  }

  datatype Decision = Decision(outcome: RecordedOutcome, recs: Recommendation, departed: bool)

  function RecordDesired(known: Object, d: Decision, now: Time, l: Lifetimes): Status {
    var s := known.status.(outcome := Some(d.outcome), departed := d.departed);
    var s := if !d.outcome.Computed? then s
             else
               var c := s.(computedBy := known.policy, containers := EncodeAll(d.recs));
               if !StatusEquivalent(known.status, c) || Due(known.status.observedAt, now)
               then c.(observedAt := Some(now)) else c;
    s.(servableUntil := Stamp(l, known, s, d.outcome.Computed?))
  }

  predicate Due(observedAt: Option<Time>, now: Time) {
    observedAt.None? || now - observedAt.value >= REFRESH_INTERVAL
  }

  predicate RecordWrites(known: Object, d: Decision, now: Time, l: Lifetimes) {
    var desired := RecordDesired(known, d, now, l);
    !(StatusEquivalent(known.status, desired) && desired.observedAt == known.status.observedAt &&
      desired.servableUntil == known.status.servableUntil)
  }

  // ---- One object ----

  /** Stored times are whole seconds. */
  predicate OnSeconds(o: Object) {
    && ToSecond(o.created) == o.created
    && OptToSecond(o.status.observedAt) == o.status.observedAt
    && OptToSecond(o.status.servableUntil) == o.status.servableUntil
  }

  lemma WholeSecondsShift(t: Time, window: int)
    requires ToSecond(t) == t
    ensures ToSecond(t + window) == t + ToSecond(window)
  {
  }

  /** With its times on whole seconds, a stamp is the last computation plus the window's whole seconds. */
  lemma StampByWindow(l: Lifetimes, o: Object, status: Status)
    requires OnSeconds(o) && status.observedAt == o.status.observedAt && status.containers != map[]
    ensures ServableUntil(l, o.created, status) ==
            Some(LastComputed(o.created, o.status.observedAt) + ToSecond(Window(l, status)))
  {
    var last := LastComputed(o.created, o.status.observedAt);
    assert ToSecond(last) == last;
    WholeSecondsShift(last, Window(l, status));
  }

  /** The stamp is unset, or what the formula makes of the rest of the object. */
  predicate StampAgrees(o: Object, l: Lifetimes) {
    o.status.servableUntil.Some? ==> o.status.servableUntil == ServableUntil(l, o.created, o.status)
  }

  /** `known` is `o`, but for a snapshot and a revision that may be older. */
  predicate Reflects(known: Object, o: Object) {
    o == known.(rv := o.rv, status := known.status.(observed := o.status.observed))
  }

  lemma PatchReaches(o: Object, known: Object, desired: Status)
    requires OnSeconds(o) && Reflects(known, o)
    ensures var s := PatchStatus(o.status, known.status, desired);
            s == Serialized(desired).(observed := s.observed)
  {
    TableRoundTrip(known.status.containers, desired.containers);
  }

  lemma EquivalenceIsReflexive(status: Status)
    ensures StatusEquivalent(status, status)
  {
  }

  /** A decision recorded again within the refresh interval costs no write, whatever the second its times were cut to. */
  lemma RepeatedDecisionWritesNothing(o: Object, d: Decision, now: Time, again: Time, l: Lifetimes, o': Object)
    requires OnSeconds(o)
    requires o' == if RecordWrites(o, d, now, l)
                   then o.(rv := o'.rv, status := PatchStatus(o.status, o.status, RecordDesired(o, d, now, l))) else o
    requires o'.status.observedAt.Some? && d.outcome.Computed? ==> again - o'.status.observedAt.value < REFRESH_INTERVAL
    ensures !RecordWrites(o', d, again, l)
  {
    if RecordWrites(o, d, now, l) {
      WrittenDecisionIsStable(o, d, now, again, l, o');
    } else {
      UnwrittenDecisionIsStable(o, d, now, again, l);
    }
  }

  lemma UnwrittenDecisionIsStable(o: Object, d: Decision, now: Time, again: Time, l: Lifetimes)
    requires !RecordWrites(o, d, now, l)
    requires o.status.observedAt.Some? && d.outcome.Computed? ==> again - o.status.observedAt.value < REFRESH_INTERVAL
    ensures !RecordWrites(o, d, again, l)
  {
    if d.outcome.Computed? {
      var c := o.status.(outcome := Some(d.outcome), departed := d.departed, computedBy := o.policy, containers := EncodeAll(d.recs));
      TimesDoNotCount(o.status, RecordDesired(o, d, now, l), c);
      assert RecordDesired(o, d, now, l) == RecordDesired(o, d, again, l);
    }
  }

  lemma TimesDoNotCount(status: Status, a: Status, b: Status)
    requires b == a.(observedAt := b.observedAt, servableUntil := b.servableUntil)
    ensures StatusEquivalent(status, a) <==> StatusEquivalent(status, b)
  {
  }

  /** `o` already holds `d`, stamped. */
  predicate Holds(o: Object, d: Decision, l: Lifetimes) {
    && o.status.outcome == Some(d.outcome) && o.status.departed == d.departed
    && (d.outcome.Computed? ==> o.status.computedBy == o.policy && o.status.containers == EncodeAll(d.recs))
    && o.status.servableUntil == Stamp(l, o, o.status, d.outcome.Computed?)
  }

  lemma HeldDecisionWritesNothing(o: Object, d: Decision, again: Time, l: Lifetimes)
    requires Holds(o, d, l)
    requires d.outcome.Computed? ==> !Due(o.status.observedAt, again)
    ensures !RecordWrites(o, d, again, l)
  {
    EquivalenceIsReflexive(o.status);
    var s := RecordDesired(o, d, again, l);
    assert s == o.status;
  }

  lemma RecordedIsHeld(o: Object, d: Decision, now: Time, l: Lifetimes, o': Object)
    requires OnSeconds(o)
    requires o' == o.(rv := o'.rv, status := Serialized(RecordDesired(o, d, now, l)))
    ensures Holds(o', d, l)
    ensures d.outcome.Computed? ==> o'.status.observedAt.Some?
  {
    StampSurvivesStorage(l, o.created, RecordDesired(o, d, now, l));
  }

  lemma WrittenDecisionIsStable(o: Object, d: Decision, now: Time, again: Time, l: Lifetimes, o': Object)
    requires OnSeconds(o)
    requires o' == o.(rv := o'.rv, status := PatchStatus(o.status, o.status, RecordDesired(o, d, now, l)))
    requires o'.status.observedAt.Some? && d.outcome.Computed? ==> again - o'.status.observedAt.value < REFRESH_INTERVAL
    ensures !RecordWrites(o', d, again, l)
  {
    var desired := RecordDesired(o, d, now, l);
    TableRoundTrip(o.status.observed, o.status.observed);
    PatchReaches(o, o, desired);
    RecordedIsHeld(o, d, now, l, o');
    HeldDecisionWritesNothing(o', d, again, l);
  }
}
