/**
 * The WorkloadRecommendation of one identity over whole runs: the governing Policy's cycle (Ensure, then Record) one
 * apiserver request at a time, with webhook requests, conditional deletes and the Conflicted records of every other
 * Policy in between (internal/wlrcache/write.go).
 */
module LifecycleRuns {
  import opened Common
  import opened Resources
  import opened MergePatch
  import opened Lifecycle

  /** Where the cycle of the Policy governing the identity stands. */
  datatype Pass =
    | Idle
    | Creating(policy: string, observed: Option<Table>)
    // about to claim; knownPolicy and knownLabel are what the patch is computed from, empty for a blind claim
    | Claiming(policy: string, observed: Option<Table>, knownPolicy: string, knownLabel: string)
    | Claimed(policy: string, observed: Option<Table>, known: Object)
    | Holding(policy: string, known: Object)

  /**
   * `versions` are all the versions ever stored, which a lagging cache may still show. `recorded` is specification
   * state: per Policy, the last Recommendation it recorded into the object now stored while that object named it.
   */
  datatype World = World(
    stored: Option<Object>,
    nextUid: nat,
    nextRv: nat,
    versions: set<Object>,
    pass: Pass,
    recorded: map<string, Recommendation>)

  datatype Step =
    | EnsureGet(policy: string, declared: Option<Table>, cached: Option<Object>)
    | EnsureCreate(now: Time)
    | EnsureClaim
    | EnsureStatus
    // a Departed identity: Ensure is not called, the pass records into the object the inventory read
    | TakeInventory(policy: string, view: Object)
    | Record(decision: Decision, now: Time)
    // a Conflicted identity: a Policy party to it, whichever the object names, records into what its inventory read
    | PartyRecord(policy: string, view: Object, now: Time)
    | Abandon
    | RequestStub(policy: string, now: Time)
    | RequestSnapshot(policy: string, observed: Table, view: Object)
    | DeleteJudged(judged: Object)

  /** Stores `o` as a new version. */
  function Store(w: World, o: Object): World {
    var o' := o.(rv := w.nextRv);
    w.(stored := Some(o'), nextRv := w.nextRv + 1, versions := w.versions + {o'})
  }

  function CreateObject(w: World, policy: string, now: Time): World {
    var o := Object("", w.nextUid, w.nextRv, ToSecond(now), policy, policy, EmptyStatus());
    Store(w, o).(nextUid := w.nextUid + 1, recorded := map[])
  }

  function PolicyOf(pass: Pass): Option<string> {
    if pass.Idle? then None else Some(pass.policy)
  }

  /** What a party records. */
  const CONFLICT := Decision(Conflicted, map[], false)

  /**
   * What may happen next. The webhook, the parties to a conflict and a cycle about to claim may have read any version ever
   * stored; of an object that names its Policy already the cycle reads what is stored, up to snapshot and revision. A
   * Policy's deletion paths never run during its own cycle.
   */
  ghost predicate Enabled(w: World, s: Step) {
    match s
    case EnsureGet(policy, _, view) =>
      && w.pass.Idle? && policy != ""
      && (view.Some? ==> if Names(view.value, policy) then w.stored.Some? && Reflects(view.value, w.stored.value)
                         else view.value in w.versions)
    case EnsureCreate(_) => w.pass.Creating?
    case EnsureClaim => w.pass.Claiming?
    case EnsureStatus => w.pass.Claimed?
    case TakeInventory(policy, view) =>
      w.pass.Idle? && policy != "" && w.stored.Some? && Reflects(view, w.stored.value) && view.policy == policy
    case Record(_, _) => w.pass.Holding?
    case PartyRecord(policy, view, _) => policy != "" && view in w.versions
    case Abandon => true
    case RequestStub(policy, _) => policy != ""
    case RequestSnapshot(policy, observed, view) => view in w.versions && ShouldRequest(Some(view), policy, observed)
    case DeleteJudged(judged) => judged in w.versions && PolicyOf(w.pass) != Some(judged.policy)
  }

  /** Spec and label name the Policy, so that Ensure claims nothing. */
  predicate Names(o: Object, policy: string) {
    o.policy == policy && o.policyLabel == policy
  }

  function Next(w: World, s: Step, l: Lifetimes): World {
    match s
    case EnsureGet(policy, observed, view) =>
      if view.None? then w.(pass := Creating(policy, observed))
      else if !Names(view.value, policy) then
        w.(pass := Claiming(policy, observed, view.value.policy, view.value.policyLabel))
      else w.(pass := Claimed(policy, observed, view.value))
    case EnsureCreate(now) => if w.pass.Creating? then NextCreate(w, now) else w
    case EnsureClaim => if w.pass.Claiming? then NextClaim(w) else w
    case EnsureStatus => if w.pass.Claimed? then NextStatus(w, l) else w
    case TakeInventory(policy, view) => w.(pass := Holding(policy, view))
    case Record(d, now) => if w.pass.Holding? then NextRecord(w, d, now, l) else w
    case PartyRecord(_, view, now) => NextPartyRecord(w, view, now, l)
    case Abandon => w.(pass := Idle)
    case RequestStub(policy, now) => if w.stored.Some? then w else CreateObject(w, policy, now)
    case RequestSnapshot(_, observed, view) => NextSnapshot(w, observed, view)
    case DeleteJudged(judged) => NextDelete(w, judged)
  }

  function NextCreate(w: World, now: Time): World
    requires w.pass.Creating?
  {
    var p := w.pass;
    if w.stored.Some? then w.(pass := Claiming(p.policy, p.observed, "", ""))
    else
      var w' := CreateObject(w, p.policy, now);
      w'.(pass := Claimed(p.policy, p.observed, w'.stored.value))
  }

  function NextClaim(w: World): World
    requires w.pass.Claiming?
  {
    var p := w.pass;
    if w.stored.None? then w.(pass := Idle)
    else
      var w' := Store(w, ClaimPatched(w.stored.value, p.knownPolicy, p.knownLabel, p.policy));
      w'.(pass := Claimed(p.policy, p.observed, w'.stored.value))
  }

  function NextStatus(w: World, l: Lifetimes): World
    requires w.pass.Claimed?
  {
    var p := w.pass;
    if !EnsureWrites(p.known, p.observed) then w.(pass := Holding(p.policy, p.known))
    else if w.stored.None? then w.(pass := Idle)
    else
      var w' := PatchStored(w, p.known.status, EnsureDesired(p.known, p.observed, l));
      w'.(pass := Holding(p.policy, w'.stored.value))
  }

  function NextRecord(w: World, d: Decision, now: Time, l: Lifetimes): World
    requires w.pass.Holding?
  {
    var p := w.pass;
    var w' := if !RecordWrites(p.known, d, now, l) || w.stored.None? then w
              else PatchStored(w, p.known.status, RecordDesired(p.known, d, now, l));
    var failed := RecordWrites(p.known, d, now, l) && w.stored.None?;
    w'.(pass := Idle, recorded := if d.outcome.Computed? && !failed then w.recorded[p.known.policy := d.recs] else w.recorded)
  }

  function NextPartyRecord(w: World, view: Object, now: Time, l: Lifetimes): World {
    if w.stored.None? || !RecordWrites(view, CONFLICT, now, l) then w
    else PatchStored(w, view.status, RecordDesired(view, CONFLICT, now, l))
  }

  function NextSnapshot(w: World, observed: Table, view: Object): World {
    if w.stored.None? then w else PatchStored(w, view.status, RequestDesired(view, observed))
  }

  function NextDelete(w: World, judged: Object): World {
    if w.stored.Some? && w.stored.value.uid == judged.uid && w.stored.value.rv == judged.rv
    then w.(stored := None, recorded := map[]) else w
  }

  /** A status patch, from `known` to `desired`, against whatever is stored. */
  function PatchStored(w: World, known: Status, desired: Status): World
    requires w.stored.Some?
  {
    Store(w, w.stored.value.(status := PatchStatus(w.stored.value.status, known, desired)))
  }

  // ---- What every run keeps: whose numbers an object holds ----

  /** What is held for a Policy is equivalent to what that Policy last recorded. */
  ghost predicate Faithful(o: Object, recorded: map<string, Recommendation>) {
    o.status.computedBy != "" && o.status.containers != map[] ==>
      o.status.computedBy in recorded && RecsEquivalent(DecodeAll(o.status.containers), recorded[o.status.computedBy])
  }

  ghost predicate ObjectInv(o: Object, recorded: map<string, Recommendation>) {
    o.policyLabel == o.policy && OnSeconds(o) && Faithful(o, recorded)
  }

  /** A revision is never reused: the cluster's versions are told apart by UID and resourceVersion. */
  ghost predicate VersionsInv(w: World) {
    && (forall v :: v in w.versions ==> v.uid < w.nextUid && v.rv < w.nextRv && v.policyLabel == v.policy)
    && (forall u, v :: u in w.versions && v in w.versions && u.uid == v.uid && u.rv == v.rv ==> u == v)
    && (w.stored.Some? ==> w.stored.value in w.versions)
  }

  /** `known` is `o`, but for the revision, the snapshot, and what a party's record moves. */
  predicate SameNumbers(known: Object, o: Object) {
    o == known.(rv := o.rv, status := known.status.(
           observed := o.status.observed, outcome := o.status.outcome, departed := o.status.departed,
           servableUntil := o.status.servableUntil))
  }

  ghost predicate PassInv(w: World) {
    match w.pass
    case Idle => true
    case Creating(policy, _) => policy != ""
    case Claiming(policy, _, knownPolicy, knownLabel) => policy != "" && knownPolicy != policy && knownLabel != policy
    case Claimed(policy, _, known) => Holds(w, policy, known)
    case Holding(policy, known) => Holds(w, policy, known)
  }

  ghost predicate Holds(w: World, policy: string, known: Object) {
    policy != "" && w.stored.Some? && w.stored.value.policy == policy && SameNumbers(known, w.stored.value)
  }

  ghost predicate Inv(w: World) {
    && VersionsInv(w) && PassInv(w)
    && (w.stored.Some? ==> ObjectInv(w.stored.value, w.recorded))
  }

  /** Nothing stored, or an object from before attribution and stamps existed. */
  ghost predicate Initial(w: World) {
    && w.pass.Idle? && w.recorded == map[]
    && (w.stored.None? ==> w.versions == {})
    && (w.stored.Some? ==>
          var o := w.stored.value;
          && w.versions == {o} && o.uid < w.nextUid && o.rv < w.nextRv
          && o.policyLabel == o.policy && OnSeconds(o) && o.status.servableUntil.None? && o.status.computedBy == "")
  }

  lemma InitialInv(w: World)
    requires Initial(w)
    ensures Inv(w)
  {
  }

  /** A patch's numbers, attribution and time of computation reach a stored object of the same numbers. */
  lemma NumbersReach(o: Object, known: Object, desired: Status)
    requires OnSeconds(o) && SameNumbers(known, o)
    ensures var s := PatchStatus(o.status, known.status, desired);
            s.containers == desired.containers && s.computedBy == desired.computedBy &&
            s.observedAt == OptToSecond(desired.observedAt)
  {
    TableRoundTrip(known.status.containers, desired.containers);
  }

  lemma PatchKeepsSeconds(o: Object, known: Object, desired: Status, o': Object)
    requires OnSeconds(o)
    requires o' == o.(rv := o'.rv, status := PatchStatus(o.status, known.status, desired))
    ensures OnSeconds(o')
  {
    if desired.observedAt.Some? {
      ToSecondIsIdempotent(desired.observedAt.value);
    }
    if desired.servableUntil.Some? {
      ToSecondIsIdempotent(desired.servableUntil.value);
    }
  }

  lemma EnsureKeepsObject(o: Object, known: Object, observed: Option<Table>, recorded: map<string, Recommendation>,
                          l: Lifetimes, o': Object)
    requires ObjectInv(o, recorded) && SameNumbers(known, o)
    requires o' == o.(rv := o'.rv, status := PatchStatus(o.status, known.status, EnsureDesired(known, observed, l)))
    ensures ObjectInv(o', recorded)
    ensures o'.status.containers == o.status.containers && o'.status.computedBy == o.status.computedBy
    ensures o'.status.observedAt == o.status.observedAt
  {
    NumbersReach(o, known, EnsureDesired(known, observed, l));
    PatchKeepsSeconds(o, known, EnsureDesired(known, observed, l), o');
  }

  lemma RecordKeepsObject(o: Object, known: Object, d: Decision, now: Time, recorded: map<string, Recommendation>,
                          l: Lifetimes, o': Object)
    requires ObjectInv(o, recorded) && SameNumbers(known, o) && o.policy != ""
    requires o' == if RecordWrites(known, d, now, l)
                   then o.(rv := o'.rv, status := PatchStatus(o.status, known.status, RecordDesired(known, d, now, l))) else o
    ensures ObjectInv(o', if d.outcome.Computed? then recorded[o.policy := d.recs] else recorded)
  {
    DecodeEncode(d.recs);
    if RecordWrites(known, d, now, l) {
      NumbersReach(o, known, RecordDesired(known, d, now, l));
      PatchKeepsSeconds(o, known, RecordDesired(known, d, now, l), o');
      RecsReflexive(d.recs);
    } else if d.outcome.Computed? {
      UnwrittenIsEquivalent(known, d, now, l);
    }
  }

  lemma UnwrittenIsEquivalent(known: Object, d: Decision, now: Time, l: Lifetimes)
    requires !RecordWrites(known, d, now, l) && d.outcome.Computed?
    ensures known.status.computedBy == known.policy
    ensures RecsEquivalent(DecodeAll(known.status.containers), DecodeAll(EncodeAll(d.recs)))
    ensures known.status.outcome == Some(d.outcome) && known.status.departed == d.departed
  {
    assert StatusEquivalent(known.status, RecordDesired(known, d, now, l));
  }

  lemma RecsReflexive(recs: Recommendation)
    ensures RecsEquivalent(recs, recs)
  {
  }

  /** A party's record, however old its view, leaves every number, its attribution and the snapshot alone. */
  lemma PartyRecordKeepsNumbers(o: Object, view: Object, now: Time, l: Lifetimes, rv: nat)
    ensures var o' := o.(rv := rv, status := PatchStatus(o.status, view.status, RecordDesired(view, CONFLICT, now, l)));
            SameNumbers(o, o') && o'.status.observed == o.status.observed && (OnSeconds(o) ==> OnSeconds(o'))
  {
    if OnSeconds(o) {
      PatchKeepsSeconds(o, view, RecordDesired(view, CONFLICT, now, l),
                        o.(rv := rv, status := PatchStatus(o.status, view.status, RecordDesired(view, CONFLICT, now, l))));
    }
  }

  /** The webhook's snapshot touches nothing but the snapshot, and only adds to it, however old its view. */
  lemma SnapshotChangesNothingElse(o: Object, view: Object, observed: Table, rv: nat)
    ensures var o' := o.(rv := rv, status := PatchStatus(o.status, view.status, RequestDesired(view, observed)));
            && o' == o.(rv := rv, status := o.status.(observed := o'.status.observed))
            && (forall name :: name in o.status.observed ==> name in o'.status.observed)
            && (forall name :: name in o'.status.observed ==>
                  name in o.status.observed || (name in observed && name !in view.status.observed))
  {
    AdditionsKeepEntries(o.status.observed, view.status.observed, observed + view.status.observed);
  }

  /**
   * A webhook's request adds to the stored snapshot exactly the containers its pod runs and its view lacks, each with
   * every member the pod gives it, and leaves every other container and the rest of the object as they are, whatever is
   * stored by then and however old the view.
   */
  lemma RequestAddsExactly(w: World, policy: string, observed: Table, view: Object, l: Lifetimes)
    requires w.stored.Some?
    ensures Next(w, RequestSnapshot(policy, observed, view), l).stored.Some?
    ensures var o, o' := w.stored.value, Next(w, RequestSnapshot(policy, observed, view), l).stored.value;
            && o' == o.(rv := w.nextRv, status := o.status.(observed := o'.status.observed))
            && (forall name :: name in o'.status.observed <==>
                  name in o.status.observed || (name in observed && name !in view.status.observed))
            && (forall name, slot :: name in observed && name !in view.status.observed && slot in observed[name] ==>
                  slot in o'.status.observed[name] && o'.status.observed[name][slot] == observed[name][slot])
            && (forall name, slot :: name in observed && name !in view.status.observed && slot !in observed[name] ==>
                  SlotOf(o'.status.observed[name], slot) == SlotOf(Entry(o.status.observed, name), slot))
            && (forall name :: name in o.status.observed && (name !in observed || name in view.status.observed) ==>
                  o'.status.observed[name] == o.status.observed[name])
  {
    var o := w.stored.value;
    SnapshotChangesNothingElse(o, view, observed, w.nextRv);
    RequestedEntries(o.status.observed, view.status.observed, observed);
  }

  lemma RequestedEntries(stored: Table, viewed: Table, observed: Table)
    ensures var result := ApplyTable(stored, DiffTable(viewed, observed + viewed));
            && (forall name :: name in observed && name !in viewed ==>
                  name in result && result[name] == Entry(stored, name) + observed[name])
            && (forall name :: name in stored && (name !in observed || name in viewed) ==>
                  name in result && result[name] == stored[name])
  {
    var desired := observed + viewed;
    AdditionsKeepEntries(stored, viewed, desired);
    var result := ApplyTable(stored, DiffTable(viewed, desired));
    forall name | name in observed && name !in viewed ensures name in result && result[name] == Entry(stored, name) + observed[name] {
      assert viewed != desired && desired != map[];
      AddedFields(Entry(stored, name), observed[name]);
    }
  }

  lemma AddedFields<F, V>(stored: map<F, V>, added: map<F, V>)
    ensures ApplyFields(stored, DiffFields(map[], added)) == stored + added
  {
  }

  /** A request from an up-to-date view leaves the next pod of the kind nothing to request. */
  lemma RequestedOnce(w: World, policy: string, observed: Table, view: Object, l: Lifetimes)
    requires w.stored.Some? && view.status.observed == w.stored.value.status.observed
    ensures !ShouldRequest(Next(w, RequestSnapshot(policy, observed, view), l).stored, policy, observed)
  {
    RequestAddsExactly(w, policy, observed, view, l);
  }

  /** A stub names its Policy and holds nothing, so that its pods are undecided about. */
  lemma StubIsUndecided(w: World, policy: string, now: Time, at: Time, l: Lifetimes)
    requires w.stored.None?
    ensures var o := Next(w, RequestStub(policy, now), l).stored;
            && o.Some? && o.value.uid == w.nextUid && o.value.status == Status(None, None, "", false, None, map[], map[])
            && Read(o, policy, at).verdict == Undecided
            && forall other :: other != policy ==> Read(o, other, at).verdict == Withheld
  {
  }

  lemma StoreKeepsVersions(w: World, o: Object)
    requires VersionsInv(w) && o.uid < w.nextUid && o.policyLabel == o.policy
    ensures VersionsInv(Store(w, o))
  {
  }

  lemma CreateKeepsInv(w: World, policy: string, now: Time)
    requires VersionsInv(w) && w.stored.None?
    ensures var w' := CreateObject(w, policy, now);
            VersionsInv(w') && ObjectInv(w'.stored.value, w'.recorded) && w'.stored.value.policy == policy
  {
    ToSecondIsIdempotent(now);
  }

  lemma EnsureStepKeepsInv(w: World, s: Step, l: Lifetimes)
    requires Inv(w) && Enabled(w, s)
    requires s.EnsureGet? || s.EnsureCreate? || s.EnsureClaim? || s.EnsureStatus?
    ensures Inv(Next(w, s, l))
  {
    if s.EnsureCreate? && w.stored.None? {
      CreateKeepsInv(w, w.pass.policy, s.now);
    } else if s.EnsureClaim? && w.stored.Some? {
      var o := ClaimPatched(w.stored.value, w.pass.knownPolicy, w.pass.knownLabel, w.pass.policy);
      StoreKeepsVersions(w, o);
      assert ObjectInv(o, w.recorded);
    } else if s.EnsureStatus? {
      EnsureStatusKeepsInv(w, l);
    }
  }

  lemma EnsureStatusKeepsInv(w: World, l: Lifetimes)
    requires Inv(w) && w.pass.Claimed?
    ensures Inv(NextStatus(w, l))
  {
    var p := w.pass;
    if EnsureWrites(p.known, p.observed) {
      var o := w.stored.value;
      var o' := NextStatus(w, l).stored.value;
      EnsureKeepsObject(o, p.known, p.observed, w.recorded, l, o');
      StoreKeepsVersions(w, o.(status := PatchStatus(o.status, p.known.status, EnsureDesired(p.known, p.observed, l))));
    }
  }

  lemma RecordKeepsInv(w: World, d: Decision, now: Time, l: Lifetimes)
    requires Inv(w) && w.pass.Holding?
    ensures Inv(NextRecord(w, d, now, l))
  {
    var p, o := w.pass, w.stored.value;
    var o' := NextRecord(w, d, now, l).stored.value;
    RecordKeepsObject(o, p.known, d, now, w.recorded, l, o');
    if RecordWrites(p.known, d, now, l) {
      StoreKeepsVersions(w, o.(status := PatchStatus(o.status, p.known.status, RecordDesired(p.known, d, now, l))));
    }
  }

  lemma PartyRecordKeepsInv(w: World, view: Object, now: Time, l: Lifetimes)
    requires Inv(w)
    ensures Inv(NextPartyRecord(w, view, now, l))
  {
    if w.stored.Some? && RecordWrites(view, CONFLICT, now, l) {
      var o := w.stored.value;
      PartyRecordKeepsNumbers(o, view, now, l, w.nextRv);
      StoreKeepsVersions(w, o.(status := PatchStatus(o.status, view.status, RecordDesired(view, CONFLICT, now, l))));
    }
  }

  lemma SnapshotKeepsInv(w: World, observed: Table, view: Object)
    requires Inv(w)
    ensures Inv(NextSnapshot(w, observed, view))
  {
    if w.stored.Some? {
      var o := w.stored.value;
      SnapshotChangesNothingElse(o, view, observed, w.nextRv);
      StoreKeepsVersions(w, o.(status := PatchStatus(o.status, view.status, RequestDesired(view, observed))));
    }
  }

  /** A conditional delete removes only the version judged, so no other Policy's deletion can take a claimed object. */
  lemma DeleteKeepsInv(w: World, judged: Object)
    requires Inv(w) && Enabled(w, DeleteJudged(judged))
    ensures Inv(NextDelete(w, judged))
    ensures w.stored.Some? && NextDelete(w, judged).stored.None? ==> w.stored.value == judged
    ensures w.pass.Claimed? || w.pass.Holding? ==> NextDelete(w, judged) == w
  {
  }

  /** Every step of every writer keeps the invariant, a party's record of the oldest view included. */
  lemma StepKeepsInv(w: World, s: Step, l: Lifetimes)
    requires Inv(w) && Enabled(w, s)
    ensures Inv(Next(w, s, l))
  {
    match s
    case Record(d, now) => RecordKeepsInv(w, d, now, l);
    case PartyRecord(_, view, now) => PartyRecordKeepsInv(w, view, now, l);
    case RequestStub(policy, now) =>
      if w.stored.None? {
        CreateKeepsInv(w, policy, now);
      }
    case RequestSnapshot(policy, observed, view) => SnapshotKeepsInv(w, observed, view);
    case DeleteJudged(judged) => DeleteKeepsInv(w, judged);
    case TakeInventory(policy, view) =>
    case Abandon =>
    case EnsureGet(_, _, _) => EnsureStepKeepsInv(w, s, l);
    case EnsureCreate(_) => EnsureStepKeepsInv(w, s, l);
    case EnsureClaim => EnsureStepKeepsInv(w, s, l);
    case EnsureStatus => EnsureStepKeepsInv(w, s, l);
  }

  // ---- Whole runs ----

  type Run = seq<Step>

  function Exec(w: World, run: Run, l: Lifetimes): World {
    if run == [] then w else Next(Exec(w, run[..|run| - 1], l), run[|run| - 1], l)
  }

  ghost predicate Valid(w: World, run: Run, l: Lifetimes) {
    Throughout(w, run, l, Enabled)
  }

  lemma ValidPrefix(w: World, run: Run, l: Lifetimes)
    requires Valid(w, run, l) && run != []
    ensures Valid(w, run[..|run| - 1], l) && Enabled(Exec(w, run[..|run| - 1], l), run[|run| - 1])
  {
    ThroughoutPrefix(w, run, l, Enabled);
  }

  /** `ok` holds of every step of a run, in the state it is taken in. */
  ghost predicate Throughout(w: World, run: Run, l: Lifetimes, ok: (World, Step) -> bool) {
    forall i :: 0 <= i < |run| ==> ok(Exec(w, run[..i], l), run[i])
  }

  lemma ThroughoutPrefix(w: World, run: Run, l: Lifetimes, ok: (World, Step) -> bool)
    requires run != []
    ensures var prefix, s := run[..|run| - 1], run[|run| - 1];
            Throughout(w, run, l, ok) <==> Throughout(w, prefix, l, ok) && ok(Exec(w, prefix, l), s)
  {
    var prefix := run[..|run| - 1];
    forall i | 0 <= i < |prefix| ensures ok(Exec(w, run[..i], l), run[i]) <==> ok(Exec(w, prefix[..i], l), prefix[i]) {
      assert prefix[..i] == run[..i];
    }
  }

  lemma {:induction false} RunKeepsInv(w: World, run: Run, l: Lifetimes)
    requires Inv(w) && Valid(w, run, l)
    ensures Inv(Exec(w, run, l))
  {
    if run != [] {
      ValidPrefix(w, run, l);
      RunKeepsInv(w, run[..|run| - 1], l);
      StepKeepsInv(Exec(w, run[..|run| - 1], l), run[|run| - 1], l);
    }
  }

  /** `s` records a Recommendation computed under `policy`. */
  predicate ComputesFor(w: World, s: Step, policy: string) {
    s.Record? && s.decision.outcome.Computed? && w.pass.Holding? && w.pass.policy == policy
  }

  /** The object stored is another one after `s`, or none. */
  predicate Replaces(w: World, w': World) {
    w'.stored.None? || w.stored.None? || w'.stored.value.uid != w.stored.value.uid
  }

  /** What `policy` last recorded into the object now stored, read off the run's steps backwards. */
  function LastRecorded(w: World, run: Run, policy: string, l: Lifetimes): Option<Recommendation> {
    if run == [] then None
    else
      var before, s := Exec(w, run[..|run| - 1], l), run[|run| - 1];
      if Replaces(before, Next(before, s, l)) then None
      else if ComputesFor(before, s, policy) then Some(s.decision.recs)
      else LastRecorded(w, run[..|run| - 1], policy, l)
  }

  /** What a step leaves of the record of what `policy` recorded. */
  predicate RecordsStep(w: World, s: Step, policy: string, w': World) {
    && (w'.stored.None? ==> w'.recorded == map[])
    && (Replaces(w, w') ==> w'.recorded == map[])
    && (!Replaces(w, w') ==>
          if ComputesFor(w, s, policy) then policy in w'.recorded && w'.recorded[policy] == s.decision.recs
          else (policy in w'.recorded <==> policy in w.recorded) &&
               (policy in w.recorded ==> w'.recorded[policy] == w.recorded[policy]))
  }

  lemma EnsureStepRecords(w: World, s: Step, policy: string, l: Lifetimes)
    requires s.EnsureGet? || s.EnsureCreate? || s.EnsureClaim? || s.EnsureStatus?
    requires Inv(w) && Enabled(w, s) && (w.stored.None? ==> w.recorded == map[])
    ensures RecordsStep(w, s, policy, Next(w, s, l))
  {
  }

  lemma RecordStepRecords(w: World, s: Step, policy: string, l: Lifetimes)
    requires s.Record? && Inv(w) && Enabled(w, s) && (w.stored.None? ==> w.recorded == map[])
    ensures RecordsStep(w, s, policy, Next(w, s, l))
  {
  }

  lemma StepRecords(w: World, s: Step, policy: string, l: Lifetimes)
    requires Inv(w) && Enabled(w, s) && (w.stored.None? ==> w.recorded == map[])
    ensures RecordsStep(w, s, policy, Next(w, s, l))
  {
    if s.EnsureGet? || s.EnsureCreate? || s.EnsureClaim? || s.EnsureStatus? {
      EnsureStepRecords(w, s, policy, l);
    } else if s.Record? {
      RecordStepRecords(w, s, policy, l);
    }
  }

  /** The specification state is what the run's own steps say it is. */
  lemma {:induction false} RecordedIsLast(w: World, run: Run, policy: string, l: Lifetimes)
    requires Initial(w) && Valid(w, run, l)
    ensures var r := Exec(w, run, l).recorded;
            LastRecorded(w, run, policy, l) == if policy in r then Some(r[policy]) else None
    ensures Exec(w, run, l).stored.None? ==> Exec(w, run, l).recorded == map[]
  {
    if run != [] {
      ValidPrefix(w, run, l);
      RecordedIsLast(w, run[..|run| - 1], policy, l);
      InitialInv(w);
      RunKeepsInv(w, run[..|run| - 1], l);
      StepRecords(Exec(w, run[..|run| - 1], l), run[|run| - 1], policy, l);
    }
  }

  /**
   * In every reachable state, what Read injects for a Policy is equivalent to the last Recommendation that Policy itself
   * recorded into the object; with none recorded, nothing is injected, so an adopter is never served what it adopted.
   */
  lemma ServedIsWhatItsPolicyRecorded(w: World, run: Run, l: Lifetimes, policy: string, now: Time)
    requires Initial(w) && Valid(w, run, l) && policy != ""
    requires Read(Exec(w, run, l).stored, policy, now).verdict.Injects()
    ensures LastRecorded(w, run, policy, l).Some?
    ensures RecsEquivalent(Read(Exec(w, run, l).stored, policy, now).recs, LastRecorded(w, run, policy, l).value)
  {
    InitialInv(w);
    RunKeepsInv(w, run, l);
    RecordedIsLast(w, run, policy, l);
    InjectsExactly(Exec(w, run, l).stored, policy, now);
  }

  /**
   * While nothing stored is of a Policy's own computing, as when it has just adopted an object, nothing is injected for
   * it until its own Computed record, whether or not it recorded into the object under an earlier reign.
   */
  lemma {:induction false} NothingServedBeforeOwnRecord(w: World, run: Run, l: Lifetimes, policy: string, now: Time)
    requires Inv(w) && Valid(w, run, l) && policy != "" && Held(w.stored, policy).None?
    requires forall i :: 0 <= i < |run| ==> !ComputesFor(Exec(w, run[..i], l), run[i], policy)
    ensures Held(Exec(w, run, l).stored, policy).None?
    ensures !Read(Exec(w, run, l).stored, policy, now).verdict.Injects()
  {
    if run != [] {
      var prefix := run[..|run| - 1];
      ValidPrefix(w, run, l);
      forall i | 0 <= i < |prefix| ensures !ComputesFor(Exec(w, prefix[..i], l), prefix[i], policy) {
        assert prefix[..i] == run[..i];
      }
      NothingServedBeforeOwnRecord(w, prefix, l, policy, now);
      RunKeepsInv(w, prefix, l);
      assert !ComputesFor(Exec(w, prefix, l), run[|run| - 1], policy);
      NothingComesToBeHeld(Exec(w, prefix, l), run[|run| - 1], l, policy);
    }
    InjectsExactly(Exec(w, run, l).stored, policy, now);
  }

  lemma NothingComesToBeHeld(w: World, s: Step, l: Lifetimes, policy: string)
    requires Inv(w) && Enabled(w, s) && policy != "" && Held(w.stored, policy).None? && !ComputesFor(w, s, policy)
    ensures Held(Next(w, s, l).stored, policy).None?
  {
    if s.EnsureStatus? || s.Record? {
      NothingWrittenIsHeld(w, s, l, policy);
    } else if s.PartyRecord? && w.stored.Some? {
      PartyRecordKeepsNumbers(w.stored.value, s.view, s.now, l, w.nextRv);
    } else if s.RequestSnapshot? && w.stored.Some? {
      SnapshotChangesNothingElse(w.stored.value, s.view, s.observed, w.nextRv);
    }
  }

  lemma NothingWrittenIsHeld(w: World, s: Step, l: Lifetimes, policy: string)
    requires Inv(w) && Enabled(w, s) && policy != "" && Held(w.stored, policy).None? && !ComputesFor(w, s, policy)
    requires s.EnsureStatus? || s.Record?
    ensures Held(Next(w, s, l).stored, policy).None?
  {
    var known := w.pass.known;
    if s.EnsureStatus? && EnsureWrites(known, w.pass.observed) {
      NumbersReach(w.stored.value, known, EnsureDesired(known, w.pass.observed, l));
    } else if s.Record? && RecordWrites(known, s.decision, s.now, l) {
      NumbersReach(w.stored.value, known, RecordDesired(known, s.decision, s.now, l));
    }
  }

  // ---- Writes from a view that lags in the snapshot alone ----

  /** A status patch from a view that differs in the snapshot alone gives exactly the status desired, snapshot aside. */
  lemma PatchedObject(o: Object, known: Object, desired: Status, rv: nat)
    requires OnSeconds(o) && Reflects(known, o)
    ensures var o' := o.(rv := rv, status := PatchStatus(o.status, known.status, desired));
            o'.status == Serialized(desired).(observed := o'.status.observed)
  {
    PatchReaches(o, known, desired);
  }

  /** What a record that writes stores. */
  lemma RecordedObject(o: Object, known: Object, d: Decision, now: Time, l: Lifetimes, o': Object)
    requires OnSeconds(o) && Reflects(known, o)
    requires o' == o.(rv := o'.rv, status := PatchStatus(o.status, known.status, RecordDesired(known, d, now, l)))
    ensures OnSeconds(o') && StampAgrees(o', l)
    ensures o'.status.outcome == Some(d.outcome) && o'.status.departed == d.departed
    ensures d.outcome.Computed? ==> o'.status.computedBy == o.policy && o'.status.containers == EncodeAll(d.recs)
    ensures !d.outcome.Computed? ==>
              && o'.status.computedBy == o.status.computedBy && o'.status.containers == o.status.containers
              && o'.status.observedAt == o.status.observedAt
              && (o.status.servableUntil.None? ==> o'.status.servableUntil.None?)
    ensures d.outcome.Computed? && o'.status.containers != map[] ==> o'.status.servableUntil.Some?
  {
    var desired := RecordDesired(known, d, now, l);
    PatchedObject(o, known, desired, o'.rv);
    StampSurvivesStorage(l, o.created, desired);
    assert o'.status == Serialized(desired).(observed := o'.status.observed);
    assert desired.observedAt in {Some(now), known.status.observedAt};
    if desired.observedAt == Some(now) {
      ToSecondIsIdempotent(now);
    }
  }

  /** A Computed record moves the time of computation exactly when it decides anything anew or that time is ten minutes old. */
  lemma RecordedTime(o: Object, known: Object, d: Decision, now: Time, l: Lifetimes, o': Object)
    requires OnSeconds(o) && Reflects(known, o) && d.outcome.Computed?
    requires o' == o.(rv := o'.rv, status := PatchStatus(o.status, known.status, RecordDesired(known, d, now, l)))
    ensures var due := o.status.observedAt.None? || now - o.status.observedAt.value >= 10 * MINUTE;
            var same := && o.status.outcome == Some(Computed) && o.status.computedBy == o.policy
                        && o.status.departed == d.departed && RecsEquivalent(DecodeAll(o.status.containers), d.recs);
            o'.status.observedAt == if same && !due then o.status.observedAt else Some(ToSecond(now))
  {
    var desired := RecordDesired(known, d, now, l);
    PatchedObject(o, known, desired, o'.rv);
    DecidesAnew(known, d, now, l);
  }

  lemma DecidesAnew(known: Object, d: Decision, now: Time, l: Lifetimes)
    requires d.outcome.Computed?
    ensures var same := && known.status.outcome == Some(Computed) && known.status.computedBy == known.policy
                        && known.status.departed == d.departed && RecsEquivalent(DecodeAll(known.status.containers), d.recs);
            RecordDesired(known, d, now, l).observedAt ==
              if same && !Due(known.status.observedAt, now) then known.status.observedAt else Some(now)
  {
    DecodeEncode(d.recs);
    EquivalenceIsReflexive(known.status);
  }

  // ---- Claims ----

  /** `o'` is `o` claimed for `policy`: live, with the snapshot given, and every number in place. */
  ghost predicate ClaimedFor(o: Object, o': Object, policy: string, observed: Option<Table>) {
    && o'.policy == policy && o'.policyLabel == policy && !o'.status.departed
    && (if observed.Some? then ObservedEqual(o'.status.observed, observed.value) else o'.status.observed == o.status.observed)
    && o'.status.containers == o.status.containers && o'.status.computedBy == o.status.computedBy
    && o'.status.outcome == o.status.outcome && o'.status.observedAt == o.status.observedAt
  }

  lemma ObservedReflexive(t: Table)
    ensures ObservedEqual(t, t)
  {
  }

  lemma EnsureStatusClaims(w: World, l: Lifetimes)
    requires Inv(w) && w.pass.Claimed? && w.stored == Some(w.pass.known) && w.pass.known.policyLabel == w.pass.policy
    ensures var w' := NextStatus(w, l);
            && w'.stored.Some? && w'.pass == Holding(w.pass.policy, w'.stored.value)
            && ClaimedFor(w.pass.known, w'.stored.value, w.pass.policy, w.pass.observed)
  {
    var known, observed := w.pass.known, w.pass.observed;
    if EnsureWrites(known, observed) {
      var o' := NextStatus(w, l).stored.value;
      EnsureKeepsObject(known, known, observed, w.recorded, l, o');
      PatchedObject(known, known, EnsureDesired(known, observed, l), o'.rv);
      TableRoundTrip(known.status.observed, EnsureDesired(known, observed, l).observed);
      ObservedReflexive(o'.status.observed);
    }
  }

  /** The cycle after its read and, where the object names another Policy, its claim. */
  function Claim(w: World, policy: string, observed: Option<Table>, o: Object, l: Lifetimes): World {
    var w1 := Next(w, EnsureGet(policy, observed, Some(o)), l);
    if w1.pass.Claiming? then NextClaim(w1) else w1
  }

  /** An uninterrupted Ensure leaves the object claimed, and hands it to Record as stored. */
  lemma EnsureClaimsObject(w: World, policy: string, observed: Option<Table>, l: Lifetimes)
    requires Inv(w) && w.pass.Idle? && w.stored.Some? && policy != ""
    ensures Claim(w, policy, observed, w.stored.value, l).pass.Claimed?
    ensures var w' := NextStatus(Claim(w, policy, observed, w.stored.value, l), l);
            && w'.stored.Some? && w'.pass == Holding(policy, w'.stored.value)
            && ClaimedFor(w.stored.value, w'.stored.value, policy, observed)
  {
    var s1 := EnsureGet(policy, observed, Some(w.stored.value));
    var w1 := Next(w, s1, l);
    EnsureStepKeepsInv(w, s1, l);
    if w1.pass.Claiming? {
      EnsureStepKeepsInv(w1, EnsureClaim, l);
    }
    EnsureStatusClaims(Claim(w, policy, observed, w.stored.value, l), l);
  }

  /** Where there is none, it creates the object its Policy's, with the snapshot given and nothing decided. */
  lemma EnsureCreatesObject(w: World, policy: string, observed: Option<Table>, now: Time, l: Lifetimes, w1: World)
    requires Inv(w) && w.pass.Idle? && w.stored.None? && policy != ""
    requires w1 == Next(Next(w, EnsureGet(policy, observed, None), l), EnsureCreate(now), l)
    ensures w1.pass.Claimed?
    ensures var w' := NextStatus(w1, l);
            && w'.stored.Some? && w'.pass == Holding(policy, w'.stored.value)
            && w'.stored.value.policy == policy && w'.stored.value.policyLabel == policy
            && w'.stored.value.status.(observed := map[]) == EmptyStatus()
            && ObservedEqual(w'.stored.value.status.observed, if observed.Some? then observed.value else map[])
  {
    CreatesEmpty(w, policy, observed, now, l, w1);
    EnsureFillsEmpty(w1, l);
  }

  lemma CreatesEmpty(w: World, policy: string, observed: Option<Table>, now: Time, l: Lifetimes, w1: World)
    requires Inv(w) && w.pass.Idle? && w.stored.None? && policy != ""
    requires w1 == Next(Next(w, EnsureGet(policy, observed, None), l), EnsureCreate(now), l)
    ensures Inv(w1) && w1.stored.Some? && w1.pass == Claimed(policy, observed, w1.stored.value)
    ensures w1.stored.value.policy == policy && w1.stored.value.policyLabel == policy && w1.stored.value.status == EmptyStatus()
  {
    var s1, s2 := EnsureGet(policy, observed, None), EnsureCreate(now);
    EnsureStepKeepsInv(w, s1, l);
    EnsureStepKeepsInv(Next(w, s1, l), s2, l);
  }

  lemma EnsureFillsEmpty(w: World, l: Lifetimes)
    requires Inv(w) && w.pass.Claimed? && w.stored == Some(w.pass.known) && w.pass.known.policyLabel == w.pass.policy
    requires w.pass.known.status == EmptyStatus()
    ensures var w', observed := NextStatus(w, l), w.pass.observed;
            && w'.stored.Some? && w'.pass == Holding(w.pass.policy, w'.stored.value)
            && w'.stored.value.policy == w.pass.policy && w'.stored.value.policyLabel == w.pass.policy
            && w'.stored.value.status.(observed := map[]) == EmptyStatus()
            && ObservedEqual(w'.stored.value.status.observed, if observed.Some? then observed.value else map[])
  {
    EnsureStatusClaims(w, l);
    var known := w.pass.known;
    if EnsureWrites(known, w.pass.observed) {
      PatchedObject(known, known, EnsureDesired(known, w.pass.observed, l), w.nextRv);
    } else {
      ObservedReflexive(map[]);
    }
  }

  // ---- Why a Policy's deletions must not run during its cycle ----

  /**
   * A Computed record onto an empty successor of the object it was computed from stores what was decided exactly when
   * no member decided is as it was known, since the patch carries no other.
   */
  lemma RecordOntoStubIsWholeExactly(stub: Object, known: Object, d: Decision, now: Time, l: Lifetimes)
    requires stub.status.containers == map[] && d.outcome.Computed?
    ensures var decided := EncodeAll(d.recs);
            PatchStatus(stub.status, known.status, RecordDesired(known, d, now, l)).containers == decided <==>
            decided == map[] ||
            (forall name :: name in decided && name in known.status.containers ==>
               decided[name] != known.status.containers[name] &&
               forall slot :: slot in decided[name] && slot in known.status.containers[name] ==>
                 decided[name][slot] != known.status.containers[name][slot])
  {
    TableReachesExactly(map[], known.status.containers, EncodeAll(d.recs));
    EmptyAgreesExactly(known.status.containers, EncodeAll(d.recs));
  }

  lemma EmptyAgreesExactly(before: Table, decided: Table)
    ensures TablesAgree(map[], before, decided) <==>
            decided == map[] ||
            (forall name :: name in decided && name in before ==>
               decided[name] != before[name] &&
               forall slot :: slot in decided[name] && slot in before[name] ==> decided[name][slot] != before[name][slot])
  {
    var empty: Table := map[];
    forall name | name in decided
      ensures FieldsAgree(Entry(empty, name), Entry(before, name), decided[name]) <==>
              (name in before ==>
                 forall slot :: slot in decided[name] && slot in before[name] ==> decided[name][slot] != before[name][slot])
    {
    }
    if before == decided && decided != map[] {
      var name :| name in decided;
      assert decided[name] == before[name];
    }
  }

  const BEFORE := ContainerRecommendation(Some(100), Some(200), None, None, false, false)
  const DECIDED := ContainerRecommendation(Some(100), Some(300), None, None, false, false)
  const LIFETIMES := Lifetimes(5 * MINUTE, 168 * HOUR)
  const DECISION := Decision(Computed, map["app" := DECIDED], false)

  /** Policy "new" has just adopted an object holding numbers of Policy "old". */
  function Adopted(): World {
    var o := Object("", 0, 0, 0, "new", "new",
                    Status(Some(0), Some(Computed), "old", false, Some(30 * MINUTE), map["app" := Encode(BEFORE)], map[]));
    World(Some(o), 1, 1, {o}, Holding("new", o), map["old" := map["app" := BEFORE]])
  }

  lemma AdoptedInv()
    ensures Inv(Adopted()) && StampAgrees(Adopted().stored.value, LIFETIMES)
  {
    DecodeEncode(map["app" := BEFORE]);
    assert EncodeAll(map["app" := BEFORE]) == map["app" := Encode(BEFORE)];
    RecsReflexive(map["app" := BEFORE]);
    var o := Adopted().stored.value;
    assert LIFETIMES.StalenessBudget() == 30 * MINUTE;
    assert ToSecond(0) == 0 && ToSecond(30 * MINUTE) == 30 * MINUTE;
    assert o.status.containers != map[] by {
      assert "app" in o.status.containers;
    }
    assert ServableUntil(LIFETIMES, 0, o.status) == Some(30 * MINUTE);
  }

  /** The object deleted under the cycle's hands, created anew by the webhook, and only then recorded into. */
  function Recreated(): World {
    var w := NextDelete(Adopted(), Adopted().stored.value);
    NextRecord(CreateObject(w, "new", 0), DECISION, MINUTE, LIFETIMES)
  }

  lemma EncodedExamples()
    ensures Encode(BEFORE) == map[CpuRequest := 100, MemoryRequest := 200]
    ensures EncodeAll(map["app" := DECIDED]) == map["app" := map[CpuRequest := 100, MemoryRequest := 300]]
  {
    assert Encode(DECIDED) == map[CpuRequest := 100, MemoryRequest := 300];
  }

  lemma RecordDecides()
    ensures var known := Adopted().stored.value;
            var desired := RecordDesired(known, DECISION, MINUTE, LIFETIMES);
            && RecordWrites(known, DECISION, MINUTE, LIFETIMES)
            && desired.containers == EncodeAll(map["app" := DECIDED]) && desired.computedBy == "new"
            && desired.outcome == Some(Computed) && !desired.departed
            && desired.observedAt == Some(MINUTE) && desired.servableUntil == Some(31 * MINUTE)
  {
    EncodedExamples();
    var known := Adopted().stored.value;
    var desired := RecordDesired(known, DECISION, MINUTE, LIFETIMES);
    assert desired.computedBy != known.status.computedBy;
    assert LIFETIMES.StalenessBudget() == 30 * MINUTE;
    assert ToSecond(MINUTE) == MINUTE && ToSecond(31 * MINUTE) == 31 * MINUTE;
    assert "app" in desired.containers;
  }

  /** Of the two members decided, the patch carries the one that differs from what was adopted. */
  lemma PatchCarriesDifference()
    ensures DiffTable(map["app" := Encode(BEFORE)], EncodeAll(map["app" := DECIDED])) ==
            Entries(map["app" := Merge(map[MemoryRequest := Put(300)])])
  {
    EncodedExamples();
    var known, desired := map["app" := Encode(BEFORE)], EncodeAll(map["app" := DECIDED]);
    assert DiffFields(known["app"], desired["app"]) == map[MemoryRequest := Put(300)];
    assert known["app"][MemoryRequest] == 200 && desired["app"][MemoryRequest] == 300;
    assert "app" in desired;
    assert Entry(known, "app") == known["app"];
  }

  lemma PatchOntoNothing()
    ensures ApplyTable(map[], Entries(map["app" := Merge(map[MemoryRequest := Put(300)])])) ==
            map["app" := map[MemoryRequest := 300]]
  {
    var empty: Table := map[];
    assert Entry(empty, "app") == map[];
    assert ApplyFields(Entry(empty, "app"), map[MemoryRequest := Put(300)]) == map[MemoryRequest := 300];
  }

  lemma RecreatedTakesOver(o: Object)
    requires Recreated().stored == Some(o)
    ensures Recreated().recorded == map["new" := map["app" := DECIDED]]
    ensures o.policy == "new" && o.status.computedBy == "new" && o.status.servableUntil == Some(31 * MINUTE)
  {
    RecordDecides();
    assert ToSecond(31 * MINUTE) == 31 * MINUTE;
  }

  lemma RecreatedHolds(o: Object)
    requires Recreated().stored == Some(o)
    ensures o.status.containers == map["app" := map[MemoryRequest := 300]]
  {
    RecordDecides();
    PatchCarriesDifference();
    PatchOntoNothing();
  }

  lemma ServedLacksMember(o: Object)
    requires o.policy == "new" && o.status.computedBy == "new" && o.status.servableUntil == Some(31 * MINUTE)
    requires o.status.containers == map["app" := map[MemoryRequest := 300]]
    ensures var r := Read(Some(o), "new", 2 * MINUTE);
            r.verdict.Injects() && !RecsEquivalent(r.recs, map["app" := DECIDED])
  {
    assert "app" in o.status.containers;
    var served := DecodeAll(o.status.containers);
    assert "app" in served && served["app"].cpuRequest == None;
    assert !RecEquivalent(served["app"], DECIDED);
  }

  /**
   * From a state that keeps every invariant, a deletion of the Policy's own inside its cycle and a stub in the object's
   * place: the record lands on the stub, and the pod would be injected a Recommendation nobody decided.
   */
  lemma RecordOntoSuccessorServesAnother(o: Object)
    requires Recreated().stored == Some(o)
    ensures Inv(Adopted()) && StampAgrees(Adopted().stored.value, LIFETIMES)
    ensures var r := Read(Some(o), "new", 2 * MINUTE);
            r.verdict.Injects() && "new" in Recreated().recorded && !RecsEquivalent(r.recs, Recreated().recorded["new"])
  {
    AdoptedInv();
    SuccessorServesAnother(o, Recreated().recorded);
  }

  lemma SuccessorServesAnother(o: Object, recorded: map<string, Recommendation>)
    requires Recreated().stored == Some(o) && Recreated().recorded == recorded
    ensures var r := Read(Some(o), "new", 2 * MINUTE);
            r.verdict.Injects() && "new" in recorded && !RecsEquivalent(r.recs, recorded["new"])
  {
    RecreatedTakesOver(o);
    RecreatedHolds(o);
    ServedLacksMember(o);
  }
}
