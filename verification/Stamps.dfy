/**
 * The stamp of one identity's WorkloadRecommendation over whole runs: which writes keep it what the formula makes of the
 * rest of the object, and what that gives the pods (internal/wlrcache/wlrcache.go).
 */
module Stamps {
  import opened Common
  import opened Resources
  import opened MergePatch
  import opened Lifecycle
  import opened LifecycleRuns

  /** Both windows end stamps at the same second. */
  predicate SameWindows(l: Lifetimes) {
    ToSecond(l.retention) == ToSecond(l.StalenessBudget())
  }

  function TimeOf(o: Object): Time {
    LastComputed(o.created, o.status.observedAt)
  }

  // ---- What a party's record makes of a stamp ----

  /** Whether `o` is frozen once a party that read `view` has recorded. */
  predicate FrozenAfter(o: Object, view: Object) {
    || view.status.outcome != Some(Conflicted) || o.status.outcome == Some(Conflicted)
    || (!view.status.departed && o.status.departed)
  }

  /** A party that read `view` carries a stamp of its own into whatever is stored: `view` is live and has one. */
  predicate Restamps(view: Object, l: Lifetimes) {
    view.status.servableUntil.Some? && !Frozen(view.status) && !SameWindows(l)
  }

  /**
   * Whether what a party that read `view` records into `o` keeps `o`'s stamp the formula's. Where it carries a stamp, what
   * is stored by then must hold a Recommendation of the same time; otherwise the stored object must have no stamp or stay
   * in its window.
   */
  predicate StampSafe(o: Object, view: Object, l: Lifetimes) {
    || SameWindows(l)
    || if Restamps(view, l) then o.status.containers != map[] && TimeOf(o) == TimeOf(view)
       else o.status.servableUntil.None? || Frozen(o.status) == FrozenAfter(o, view)
  }

  /** What a party's record makes of outcome, mark and stamp; one it does not write would change nothing. */
  lemma PartyPatch(o: Object, view: Object, now: Time, l: Lifetimes)
    requires OnSeconds(o) && OnSeconds(view)
    ensures var s := PatchStatus(o.status, view.status, RecordDesired(view, CONFLICT, now, l));
            var frozen := view.status.(outcome := Some(Conflicted), departed := false);
            var stamp := Stamp(l, view, frozen, false);
            && s == o.status.(outcome := s.outcome, departed := s.departed, servableUntil := s.servableUntil)
            && s.servableUntil == PatchScalar(o.status.servableUntil, view.status.servableUntil, stamp)
            && Frozen(s) == FrozenAfter(o, view)
            && (!RecordWrites(view, CONFLICT, now, l) ==> s == o.status)
  {
    var desired := RecordDesired(view, CONFLICT, now, l);
    StampSurvivesStorage(l, view.created, desired);
    PartyRecordKeepsNumbers(o, view, now, l, o.rv);
  }

  lemma ViewStamps(view: Object, l: Lifetimes)
    requires OnSeconds(view) && StampAgrees(view, l)
    ensures var stamp := Stamp(l, view, view.status.(outcome := Some(Conflicted), departed := false), false);
            && (stamp != view.status.servableUntil <==> Restamps(view, l))
            && (Restamps(view, l) ==> stamp == Some(TimeOf(view) + ToSecond(l.retention)))
  {
    if view.status.containers != map[] {
      StampByWindow(l, view, view.status);
      StampByWindow(l, view, view.status.(outcome := Some(Conflicted), departed := false));
    }
  }

  /** A party's record keeps the stamp the formula's in exactly the states `StampSafe` describes. */
  lemma PartyRecordStampsExactly(o: Object, view: Object, now: Time, l: Lifetimes, o': Object)
    requires OnSeconds(o) && StampAgrees(o, l) && OnSeconds(view) && StampAgrees(view, l)
    requires o' == if RecordWrites(view, CONFLICT, now, l)
                   then o.(rv := o'.rv, status := PatchStatus(o.status, view.status, RecordDesired(view, CONFLICT, now, l)))
                   else o
    ensures StampAgrees(o', l) <==> StampSafe(o, view, l)
    ensures o'.status.servableUntil.Some? <==> o.status.servableUntil.Some? || Restamps(view, l)
  {
    PartyPatch(o, view, now, l);
    ViewStamps(view, l);
    if o.status.containers != map[] {
      StampByWindow(l, o, o.status);
      StampByWindow(l, o, o'.status);
    }
  }

  // ---- What a governing write makes of a stamp ----

  /** `desired` is stamped by the formula, and moves numbers only with `computed`. */
  predicate Stamped(known: Object, desired: Status, computed: bool, l: Lifetimes) {
    && desired.servableUntil == Stamp(l, known, desired, computed)
    && (!computed ==> desired.containers == known.status.containers && desired.observedAt == known.status.observedAt)
  }

  lemma EnsureIsStamped(known: Object, observed: Option<Table>, l: Lifetimes)
    ensures Stamped(known, EnsureDesired(known, observed, l), false, l)
  {
  }

  lemma RecordIsStamped(known: Object, d: Decision, now: Time, l: Lifetimes)
    ensures Stamped(known, RecordDesired(known, d, now, l), d.outcome.Computed?, l)
  {
  }

  /** Whether a patch from `known` to `desired` leaves `o` frozen. */
  predicate FrozenLeft(o: Status, known: Status, desired: Status) {
    || PatchScalar(o.departed, known.departed, desired.departed)
    || PatchScalar(o.outcome, known.outcome, desired.outcome) == Some(Conflicted)
  }

  /** Writing `desired` leaves the second of the last computation where it was. */
  predicate SameTime(known: Object, desired: Status) {
    LastComputed(known.created, OptToSecond(desired.observedAt)) == TimeOf(known)
  }

  /**
   * Whether a governing Policy's write, computed from `known`, keeps the stamp of `o` the formula's, parties having moved
   * `o` away from `known`. A patch that carries a stamp must leave the object frozen or live as that stamp takes it to be;
   * one that carries none must leave it as the stamp already there does.
   */
  predicate WriteSafe(o: Object, known: Object, desired: Status, l: Lifetimes) {
    var left := FrozenLeft(o.status, known.status, desired);
    if desired.servableUntil != known.status.servableUntil then
      desired.servableUntil.None? || SameWindows(l) || left == Frozen(desired)
    else
      || o.status.servableUntil.None?
      || (&& desired.containers != map[]
          && (|| SameWindows(l)
              || if SameTime(known, desired) then left == Frozen(o.status)
                 else Frozen(o.status) == Frozen(known.status) && left == Frozen(desired)))
  }

  /** What such a write leaves: its own numbers, the stamp patched or as it was, and `FrozenLeft`. */
  lemma WrittenStatus(o: Object, known: Object, desired: Status, computed: bool, l: Lifetimes, o': Object)
    requires OnSeconds(o) && OnSeconds(known) && SameNumbers(known, o) && Stamped(known, desired, computed, l)
    requires o' == o.(rv := o'.rv, status := PatchStatus(o.status, known.status, desired))
    ensures OnSeconds(o') && o'.created == known.created
    ensures o'.status.containers == desired.containers && o'.status.observedAt == OptToSecond(desired.observedAt)
    ensures o'.status.servableUntil == PatchScalar(o.status.servableUntil, known.status.servableUntil, desired.servableUntil)
    ensures Frozen(o'.status) == FrozenLeft(o.status, known.status, desired)
  {
    NumbersReach(o, known, desired);
    PatchKeepsSeconds(o, known, desired, o');
    StampSurvivesStorage(l, known.created, desired);
  }

  lemma DesiredStamp(o': Object, known: Object, desired: Status, computed: bool, l: Lifetimes)
    requires OnSeconds(known) && StampAgrees(known, l) && Stamped(known, desired, computed, l)
    requires OnSeconds(o') && o'.created == known.created && o'.status.observedAt == OptToSecond(desired.observedAt)
    ensures desired.servableUntil.Some? ==>
              desired.containers != map[] && desired.servableUntil == Some(TimeOf(o') + ToSecond(Window(l, desired)))
    ensures desired.servableUntil.None? ==> computed || known.status.servableUntil.None?
    ensures desired.servableUntil.None? && computed ==> desired.containers == map[]
    ensures TimeOf(o') == TimeOf(known) <==> SameTime(known, desired)
  {
    if desired.containers != map[] {
      StampSurvivesStorage(l, known.created, desired);
      StampByWindow(l, o', Serialized(desired));
    }
  }

  lemma StampOf(o: Object, l: Lifetimes)
    requires OnSeconds(o) && StampAgrees(o, l)
    ensures o.status.servableUntil.Some? ==>
              o.status.containers != map[] && o.status.servableUntil == Some(TimeOf(o) + ToSecond(Window(l, o.status)))
  {
    if o.status.containers != map[] {
      StampByWindow(l, o, o.status);
    }
  }

  lemma AgreesByWindow(o: Object, l: Lifetimes)
    requires OnSeconds(o)
    ensures StampAgrees(o, l) <==>
            (o.status.servableUntil.Some? ==>
               o.status.containers != map[] && o.status.servableUntil == Some(TimeOf(o) + ToSecond(Window(l, o.status))))
  {
    if o.status.containers != map[] {
      StampByWindow(l, o, o.status);
    }
  }

  /** A governing write keeps the stamp the formula's in exactly the states `WriteSafe` describes. */
  lemma GoverningWriteStampsExactly(o: Object, known: Object, desired: Status, computed: bool, l: Lifetimes, o': Object)
    requires OnSeconds(o) && OnSeconds(known) && SameNumbers(known, o) && StampAgrees(known, l)
    requires Stamped(known, desired, computed, l)
    requires StampAgrees(o, l) || desired.servableUntil != known.status.servableUntil
    requires o' == o.(rv := o'.rv, status := PatchStatus(o.status, known.status, desired))
    ensures StampAgrees(o', l) <==> WriteSafe(o, known, desired, l)
  {
    WrittenStatus(o, known, desired, computed, l, o');
    DesiredStamp(o', known, desired, computed, l);
    AgreesByWindow(o', l);
    StampOf(known, l);
    if StampAgrees(o, l) {
      StampOf(o, l);
    }
    assert TimeOf(o) == TimeOf(known);
  }

  /** From a view that differs in the snapshot alone every governing write is safe. */
  lemma UnmovedWriteIsSafe(o: Object, known: Object, desired: Status, computed: bool, l: Lifetimes, o': Object)
    requires OnSeconds(o) && StampAgrees(o, l) && Reflects(known, o) && Stamped(known, desired, computed, l)
    requires o' == o.(rv := o'.rv, status := PatchStatus(o.status, known.status, desired))
    ensures WriteSafe(o, known, desired, l)
  {
    WrittenStatus(o, known, desired, computed, l, o');
    DesiredStamp(o', known, desired, computed, l);
    StampOf(known, l);
    AgreesByWindow(o', l);
    GoverningWriteStampsExactly(o, known, desired, computed, l, o');
  }

  // ---- Runs ----

  ghost predicate AllAgree(versions: set<Object>, l: Lifetimes) {
    forall v :: v in versions ==> OnSeconds(v) && StampAgrees(v, l)
  }

  /** What a pass reads is stamped by the formula, and the stored object is stamped if that is. */
  predicate PassAgrees(w: World, l: Lifetimes) {
    (w.pass.Claimed? || w.pass.Holding?) && w.stored.Some? ==>
      && OnSeconds(w.pass.known) && StampAgrees(w.pass.known, l)
      && (w.pass.known.status.servableUntil.Some? ==> w.stored.value.status.servableUntil.Some?)
  }

  ghost predicate StampInv(w: World, l: Lifetimes) {
    Inv(w) && AllAgree(w.versions, l) && PassAgrees(w, l)
  }

  lemma InitialStamps(w: World, l: Lifetimes)
    requires Initial(w)
    ensures StampInv(w, l)
  {
    InitialInv(w);
  }

  /** The write `s` makes, if it makes one, keeps the stamp of what is stored. */
  predicate Safe(w: World, s: Step, l: Lifetimes) {
    w.stored.Some? ==>
      var o := w.stored.value;
      match s
      case PartyRecord(_, view, _) => StampSafe(o, view, l)
      case EnsureStatus =>
        w.pass.Claimed? && EnsureWrites(w.pass.known, w.pass.observed) ==>
          WriteSafe(o, w.pass.known, EnsureDesired(w.pass.known, w.pass.observed, l), l)
      case Record(d, now) =>
        w.pass.Holding? && RecordWrites(w.pass.known, d, now, l) ==>
          WriteSafe(o, w.pass.known, RecordDesired(w.pass.known, d, now, l), l)
      case _ => true
  }

  /** A new version is stored, or nothing is: what was stored agrees, so all versions do exactly when the new one does. */
  lemma StoredAgrees(w: World, o: Object, l: Lifetimes)
    requires AllAgree(w.versions, l)
    ensures AllAgree(Store(w, o).versions, l) <==> OnSeconds(o) && StampAgrees(o, l)
  {
    var w' := Store(w, o);
    assert w'.stored.value in w'.versions;
    assert StampAgrees(w'.stored.value, l) == StampAgrees(o, l);
    assert OnSeconds(w'.stored.value) == OnSeconds(o);
  }

  lemma EnsureStatusStamps(w: World, l: Lifetimes)
    requires StampInv(w, l) && w.pass.Claimed?
    ensures AllAgree(NextStatus(w, l).versions, l) <==> Safe(w, EnsureStatus, l)
    ensures Safe(w, EnsureStatus, l) ==> PassAgrees(NextStatus(w, l), l)
  {
    var p := w.pass;
    if EnsureWrites(p.known, p.observed) {
      var o, desired := w.stored.value, EnsureDesired(p.known, p.observed, l);
      var o' := o.(status := PatchStatus(o.status, p.known.status, desired));
      EnsureIsStamped(p.known, p.observed, l);
      WrittenStatus(o, p.known, desired, false, l, o');
      GoverningWriteStampsExactly(o, p.known, desired, false, l, o');
      StoredAgrees(w, o', l);
    }
  }

  lemma RecordStamps(w: World, d: Decision, now: Time, l: Lifetimes)
    requires StampInv(w, l) && w.pass.Holding?
    ensures AllAgree(NextRecord(w, d, now, l).versions, l) <==> Safe(w, Record(d, now), l)
  {
    var p := w.pass;
    if RecordWrites(p.known, d, now, l) {
      var o, desired := w.stored.value, RecordDesired(p.known, d, now, l);
      var o' := o.(status := PatchStatus(o.status, p.known.status, desired));
      RecordIsStamped(p.known, d, now, l);
      WrittenStatus(o, p.known, desired, d.outcome.Computed?, l, o');
      GoverningWriteStampsExactly(o, p.known, desired, d.outcome.Computed?, l, o');
      StoredAgrees(w, o', l);
    }
  }

  lemma PartyRecordStamps(w: World, policy: string, view: Object, now: Time, l: Lifetimes)
    requires StampInv(w, l) && view in w.versions
    ensures AllAgree(NextPartyRecord(w, view, now, l).versions, l) <==> Safe(w, PartyRecord(policy, view, now), l)
    ensures PassAgrees(NextPartyRecord(w, view, now, l), l)
  {
    if w.stored.Some? {
      var o := w.stored.value;
      var o' := if RecordWrites(view, CONFLICT, now, l)
                then o.(status := PatchStatus(o.status, view.status, RecordDesired(view, CONFLICT, now, l))) else o;
      PartyRecordStampsExactly(o, view, now, l, o');
      PartyRecordKeepsNumbers(o, view, now, l, o.rv);
      StoredAgrees(w, o', l);
    }
  }

  lemma SnapshotStamps(w: World, observed: Table, view: Object, l: Lifetimes)
    requires StampInv(w, l)
    ensures AllAgree(NextSnapshot(w, observed, view).versions, l) && PassAgrees(NextSnapshot(w, observed, view), l)
  {
    if w.stored.Some? {
      SnapshotKeepsStamp(w.stored.value, view, observed, l);
      StoredAgrees(w, Snapshot(w.stored.value, view, observed), l);
    }
  }

  function Snapshot(o: Object, view: Object, observed: Table): Object {
    o.(status := PatchStatus(o.status, view.status, RequestDesired(view, observed)))
  }

  lemma SnapshotKeepsStamp(o: Object, view: Object, observed: Table, l: Lifetimes)
    ensures var o' := Snapshot(o, view, observed);
            && (OnSeconds(o') <==> OnSeconds(o)) && (StampAgrees(o', l) <==> StampAgrees(o, l))
            && o'.status.servableUntil == o.status.servableUntil
  {
    SnapshotChangesNothingElse(o, view, observed, o.rv);
  }

  lemma CreateStamps(w: World, policy: string, now: Time, l: Lifetimes)
    requires StampInv(w, l) && w.stored.None?
    ensures var w' := CreateObject(w, policy, now);
            AllAgree(w'.versions, l) && OnSeconds(w'.stored.value) && StampAgrees(w'.stored.value, l)
  {
    ToSecondIsIdempotent(now);
    StoredAgrees(w, Object("", w.nextUid, w.nextRv, ToSecond(now), policy, policy, EmptyStatus()), l);
  }

  lemma ClaimStamps(w: World, s: Step, l: Lifetimes)
    requires StampInv(w, l) && Enabled(w, s) && (s.EnsureGet? || s.EnsureCreate? || s.EnsureClaim?)
    ensures AllAgree(Next(w, s, l).versions, l) && PassAgrees(Next(w, s, l), l)
  {
    if s.EnsureCreate? && w.stored.None? {
      CreateStamps(w, w.pass.policy, s.now, l);
    } else if s.EnsureClaim? && w.stored.Some? {
      StoredAgrees(w, ClaimPatched(w.stored.value, w.pass.knownPolicy, w.pass.knownLabel, w.pass.policy), l);
    }
  }

  lemma OtherStamps(w: World, s: Step, l: Lifetimes)
    requires StampInv(w, l) && Enabled(w, s)
    requires s.TakeInventory? || s.Abandon? || s.RequestStub? || s.DeleteJudged?
    ensures AllAgree(Next(w, s, l).versions, l) && PassAgrees(Next(w, s, l), l)
  {
    if s.RequestStub? && w.stored.None? {
      CreateStamps(w, s.policy, s.now, l);
    }
  }

  /** A step stores nothing but stamps by the formula exactly when it is safe. */
  lemma StepStampsExactly(w: World, s: Step, l: Lifetimes)
    requires StampInv(w, l) && Enabled(w, s)
    ensures AllAgree(Next(w, s, l).versions, l) <==> Safe(w, s, l)
    ensures Safe(w, s, l) ==> StampInv(Next(w, s, l), l)
  {
    StepKeepsInv(w, s, l);
    if s.EnsureStatus? {
      EnsureStatusStamps(w, l);
    } else if s.Record? {
      RecordStamps(w, s.decision, s.now, l);
    } else if s.PartyRecord? {
      PartyRecordStamps(w, s.policy, s.view, s.now, l);
    } else if s.RequestSnapshot? {
      SnapshotStamps(w, s.observed, s.view, l);
    } else if s.EnsureGet? || s.EnsureCreate? || s.EnsureClaim? {
      ClaimStamps(w, s, l);
    } else {
      OtherStamps(w, s, l);
    }
  }

  ghost function SafeStep(l: Lifetimes): (World, Step) -> bool {
    (w: World, s: Step) => Safe(w, s, l)
  }

  ghost predicate SafeRun(w: World, run: Run, l: Lifetimes) {
    Valid(w, run, l) && Throughout(w, run, l, SafeStep(l))
  }

  lemma SafePrefix(w: World, run: Run, l: Lifetimes)
    requires Valid(w, run, l) && run != []
    ensures var prefix, s := run[..|run| - 1], run[|run| - 1];
            SafeRun(w, run, l) <==> SafeRun(w, prefix, l) && Safe(Exec(w, prefix, l), s, l)
  {
    ValidPrefix(w, run, l);
    ThroughoutPrefix(w, run, l, SafeStep(l));
    SafeStepIs(Exec(w, run[..|run| - 1], l), run[|run| - 1], l);
  }

  lemma SafeStepIs(w: World, s: Step, l: Lifetimes)
    ensures SafeStep(l)(w, s) <==> Safe(w, s, l)
  {
  }

  lemma VersionsStay(w: World, s: Step, l: Lifetimes)
    ensures w.versions <= Next(w, s, l).versions
  {
  }

  /** Every stamp a run stores is the formula's exactly when each of its writes is safe. */
  lemma {:induction false} RunStampsExactly(w: World, run: Run, l: Lifetimes)
    requires StampInv(w, l) && Valid(w, run, l)
    ensures AllAgree(Exec(w, run, l).versions, l) <==> SafeRun(w, run, l)
    ensures SafeRun(w, run, l) ==> StampInv(Exec(w, run, l), l)
  {
    if run != [] {
      var prefix, s := run[..|run| - 1], run[|run| - 1];
      ValidPrefix(w, run, l);
      RunStampsExactly(w, prefix, l);
      VersionsStay(Exec(w, prefix, l), s, l);
      SafePrefix(w, run, l);
      if SafeRun(w, prefix, l) {
        StepStampsExactly(Exec(w, prefix, l), s, l);
      }
    }
  }

  /** The stamp is unset, or the last computation plus the window the object's status selects, to the second. */
  predicate StampedForItsStatus(o: Object, l: Lifetimes) {
    o.status.servableUntil.Some? ==>
      var window := if o.status.departed || o.status.outcome == Some(Conflicted) then l.retention
                    else Max(30 * MINUTE, 3 * l.reconcileInterval);
      && o.status.containers != map[]
      && o.status.servableUntil.value == ToSecond(LastComputed(o.created, o.status.observedAt) + window)
  }

  lemma StampMeaning(o: Object, l: Lifetimes)
    requires OnSeconds(o)
    ensures StampAgrees(o, l) <==> StampedForItsStatus(o, l)
  {
    assert ToSecond(TimeOf(o)) == TimeOf(o);
  }

  /** From any initial state, every object a run stores is stamped for its status exactly when each write was safe. */
  lemma StampFormula(w: World, run: Run, l: Lifetimes)
    requires Initial(w) && Valid(w, run, l)
    ensures (forall v :: v in Exec(w, run, l).versions ==> OnSeconds(v) && StampedForItsStatus(v, l)) <==> SafeRun(w, run, l)
  {
    InitialStamps(w, l);
    RunStampsExactly(w, run, l);
    forall v | v in Exec(w, run, l).versions && OnSeconds(v) ensures StampAgrees(v, l) <==> StampedForItsStatus(v, l) {
      StampMeaning(v, l);
    }
  }

  // ---- Parties that read what is stored ----

  /** A pass's view is the stored object but for snapshot and revision. */
  predicate Current(w: World) {
    w.pass.Claimed? || w.pass.Holding? ==> w.stored.Some? && Reflects(w.pass.known, w.stored.value)
  }

  /** A party, if `s` is its record, read what is stored but for snapshot and revision, outside a claim and its record. */
  predicate UpToDate(w: World, s: Step) {
    s.PartyRecord? ==>
      (w.stored.Some? ==> Reflects(s.view, w.stored.value)) && !w.pass.Claimed? && !w.pass.Holding?
  }

  ghost predicate UpToDateRun(w: World, run: Run, l: Lifetimes) {
    Valid(w, run, l) && Throughout(w, run, l, UpToDate)
  }

  lemma UpToDateStepIsSafe(w: World, s: Step, l: Lifetimes)
    requires StampInv(w, l) && Current(w) && Enabled(w, s) && UpToDate(w, s)
    ensures Safe(w, s, l)
  {
    if s.EnsureStatus? && EnsureWrites(w.pass.known, w.pass.observed) {
      var o, known, desired := w.stored.value, w.pass.known, EnsureDesired(w.pass.known, w.pass.observed, l);
      EnsureIsStamped(known, w.pass.observed, l);
      UnmovedWriteIsSafe(o, known, desired, false, l, o.(status := PatchStatus(o.status, known.status, desired)));
    } else if s.Record? && RecordWrites(w.pass.known, s.decision, s.now, l) {
      var o, known, desired := w.stored.value, w.pass.known, RecordDesired(w.pass.known, s.decision, s.now, l);
      RecordIsStamped(known, s.decision, s.now, l);
      UnmovedWriteIsSafe(o, known, desired, s.decision.outcome.Computed?, l,
                         o.(status := PatchStatus(o.status, known.status, desired)));
    }
  }

  lemma UpToDateStepKeepsCurrent(w: World, s: Step, l: Lifetimes)
    requires Inv(w) && Current(w) && Enabled(w, s) && UpToDate(w, s)
    ensures Current(Next(w, s, l))
  {
    if s.RequestSnapshot? && w.stored.Some? {
      SnapshotChangesNothingElse(w.stored.value, s.view, s.observed, w.nextRv);
    } else if s.DeleteJudged? {
      DeleteKeepsInv(w, s.judged);
    }
  }

  lemma UpToDatePrefix(w: World, run: Run, l: Lifetimes)
    requires UpToDateRun(w, run, l) && run != []
    ensures UpToDateRun(w, run[..|run| - 1], l) && UpToDate(Exec(w, run[..|run| - 1], l), run[|run| - 1])
  {
    ValidPrefix(w, run, l);
    ThroughoutPrefix(w, run, l, UpToDate);
  }

  /** Parties that read what is stored, outside a claim and its record, upset no stamp. */
  lemma {:induction false} UpToDateRunIsSafe(w: World, run: Run, l: Lifetimes)
    requires StampInv(w, l) && Current(w) && UpToDateRun(w, run, l)
    ensures SafeRun(w, run, l) && Current(Exec(w, run, l))
  {
    if run != [] {
      var prefix, s := run[..|run| - 1], run[|run| - 1];
      UpToDatePrefix(w, run, l);
      UpToDateRunIsSafe(w, prefix, l);
      RunStampsExactly(w, prefix, l);
      ValidPrefix(w, run, l);
      UpToDateStepIsSafe(Exec(w, prefix, l), s, l);
      UpToDateStepKeepsCurrent(Exec(w, prefix, l), s, l);
      SafePrefix(w, run, l);
    }
  }

  // ---- How long an object may be served ----

  predicate Recomputes(s: Step) {
    s.Record? && s.decision.outcome.Computed?
  }

  /** `s` is the record of a party that carries a stamp to an object that may have none. */
  predicate CarriesStamp(s: Step, l: Lifetimes) {
    s.PartyRecord? && Restamps(s.view, l)
  }

  /**
   * Only a Computed record moves an object's last computation, and besides it only a party's record that carries a stamp
   * gives an object its first.
   */
  lemma OnlyComputedStamps(w: World, s: Step, l: Lifetimes)
    requires StampInv(w, l) && Enabled(w, s) && !Recomputes(s) && !Replaces(w, Next(w, s, l))
    ensures var o, o' := w.stored.value, Next(w, s, l).stored.value;
            && o'.created == o.created && o'.status.observedAt == o.status.observedAt
            && (o'.status.servableUntil.Some? <==> o.status.servableUntil.Some? || CarriesStamp(s, l))
  {
    var o := w.stored.value;
    if s.EnsureStatus? || s.Record? {
      UncomputedWrite(w, s, l);
    } else if s.PartyRecord? {
      PartyRecordStampsExactly(o, s.view, s.now, l,
        if RecordWrites(s.view, CONFLICT, s.now, l) then Next(w, s, l).stored.value else o);
      PartyRecordKeepsNumbers(o, s.view, s.now, l, w.nextRv);
    } else if s.RequestSnapshot? {
      SnapshotChangesNothingElse(o, s.view, s.observed, w.nextRv);
    }
  }

  lemma UncomputedWrite(w: World, s: Step, l: Lifetimes)
    requires StampInv(w, l) && Enabled(w, s) && !Recomputes(s) && (s.EnsureStatus? || s.Record?)
    ensures w.stored.Some? && Next(w, s, l).stored.Some?
    ensures var o, o' := w.stored.value, Next(w, s, l).stored.value;
            && o'.created == o.created && o'.status.observedAt == o.status.observedAt
            && (o'.status.servableUntil.Some? <==> o.status.servableUntil.Some?)
  {
    var o, known := w.stored.value, w.pass.known;
    if s.EnsureStatus? && EnsureWrites(known, w.pass.observed) {
      EnsureIsStamped(known, w.pass.observed, l);
      UncomputedStamp(o, known, EnsureDesired(known, w.pass.observed, l), l, Next(w, s, l).stored.value);
    } else if s.Record? && RecordWrites(known, s.decision, s.now, l) {
      RecordIsStamped(known, s.decision, s.now, l);
      UncomputedStamp(o, known, RecordDesired(known, s.decision, s.now, l), l, Next(w, s, l).stored.value);
    }
  }

  lemma UncomputedStamp(o: Object, known: Object, desired: Status, l: Lifetimes, o': Object)
    requires OnSeconds(o) && OnSeconds(known) && SameNumbers(known, o) && Stamped(known, desired, false, l)
    requires StampAgrees(known, l) && (known.status.servableUntil.Some? ==> o.status.servableUntil.Some?)
    requires o' == o.(rv := o'.rv, status := PatchStatus(o.status, known.status, desired))
    ensures o'.created == o.created && o'.status.observedAt == o.status.observedAt
    ensures o'.status.servableUntil.Some? <==> o.status.servableUntil.Some?
  {
    WrittenStatus(o, known, desired, false, l, o');
    DesiredStamp(o', known, desired, false, l);
    StampOf(known, l);
  }

  lemma UidsGrow(w: World, s: Step, l: Lifetimes)
    requires Inv(w) && Enabled(w, s)
    ensures var w' := Next(w, s, l);
            && w.nextUid <= w'.nextUid
            && (w'.stored.Some? ==> (w.stored.Some? && w'.stored.value.uid == w.stored.value.uid) ||
                                    w'.stored.value.uid >= w.nextUid)
  {
  }

  /** `o'` is a later version of `o`, computed when it was, and unstamped if that was and none carried a stamp to it. */
  predicate NotRecomputed(o: Object, o': Object, carried: bool) {
    && o'.created == o.created && o'.status.observedAt == o.status.observedAt
    && (o.status.servableUntil.None? && !carried ==> o'.status.servableUntil.None?)
  }

  predicate Carried(run: Run, l: Lifetimes) {
    exists s :: s in run && CarriesStamp(s, l)
  }

  lemma {:induction false} RunNotRecomputed(w: World, run: Run, l: Lifetimes)
    requires StampInv(w, l) && SafeRun(w, run, l) && w.stored.Some?
    requires forall i :: 0 <= i < |run| ==> !Recomputes(run[i])
    ensures w.nextUid <= Exec(w, run, l).nextUid
    ensures var w' := Exec(w, run, l);
            w'.stored.Some? && w'.stored.value.uid == w.stored.value.uid ==>
              NotRecomputed(w.stored.value, w'.stored.value, Carried(run, l))
  {
    if run != [] {
      var prefix, s := run[..|run| - 1], run[|run| - 1];
      SafePrefix(w, run, l);
      ValidPrefix(w, run, l);
      RunNotRecomputed(w, prefix, l);
      RunStampsExactly(w, prefix, l);
      assert run == prefix + [s];
      StepNotRecomputed(w, Exec(w, prefix, l), s, l, Carried(prefix, l));
    }
  }

  lemma StepNotRecomputed(w: World, before: World, s: Step, l: Lifetimes, carried: bool)
    requires Inv(w) && StampInv(before, l) && Enabled(before, s) && !Recomputes(s) && w.stored.Some?
    requires w.nextUid <= before.nextUid
    requires before.stored.Some? && before.stored.value.uid == w.stored.value.uid ==>
               NotRecomputed(w.stored.value, before.stored.value, carried)
    ensures w.nextUid <= Next(before, s, l).nextUid
    ensures var after := Next(before, s, l);
            after.stored.Some? && after.stored.value.uid == w.stored.value.uid ==>
              NotRecomputed(w.stored.value, after.stored.value, carried || CarriesStamp(s, l))
  {
    UidsGrow(before, s, l);
    if !Replaces(before, Next(before, s, l)) {
      OnlyComputedStamps(before, s, l);
    }
  }

  /**
   * While nothing is computed anew, a safe run never serves an object past its last computation plus the longer window,
   * and never at all one it starts with unstamped, unless a party carries a stamp to it.
   */
  lemma StampIsBounded(w: World, run: Run, l: Lifetimes)
    requires StampInv(w, l) && SafeRun(w, run, l) && w.stored.Some?
    requires forall i :: 0 <= i < |run| ==> !Recomputes(run[i])
    ensures var w' := Exec(w, run, l);
            w'.stored.Some? && w'.stored.value.uid == w.stored.value.uid ==>
              var o, o' := w.stored.value, w'.stored.value;
              && TimeOf(o') == TimeOf(o)
              && (o.status.servableUntil.None? && !Carried(run, l) ==> o'.status.servableUntil.None?)
              && (o'.status.servableUntil.Some? ==>
                    o'.status.servableUntil.value <= TimeOf(o) + Max(l.StalenessBudget(), l.retention))
  {
    RunNotRecomputed(w, run, l);
    RunStampsExactly(w, run, l);
    var w' := Exec(w, run, l);
    if w'.stored.Some? {
      StampOf(w'.stored.value, l);
    }
  }

  // ---- Parties that record what is stored no longer ----

  /** An object swept and asked for again before the record of a party that had read it is stamped with nothing in it. */
  lemma PartyRecordStampsStub(w: World, view: Object, policy: string, created: Time, now: Time, l: Lifetimes)
    requires Inv(w) && w.stored.None? && view in w.versions && OnSeconds(view) && StampAgrees(view, l) && Restamps(view, l)
    ensures var o := Next(Next(w, RequestStub(policy, created), l), PartyRecord(policy, view, now), l).stored;
            && o.Some? && o.value.status.servableUntil.Some? && o.value.status.containers == map[]
            && !StampAgrees(o.value, l)
            && forall reader, at :: !Read(o, reader, at).verdict.Injects()
  {
    var w1 := Next(w, RequestStub(policy, created), l);
    CreateKeepsInv(w, policy, created);
    var o, o' := w1.stored.value, Next(w1, PartyRecord(policy, view, now), l).stored.value;
    PartyRecordStampsExactly(o, view, now, l, if RecordWrites(view, CONFLICT, now, l) then o' else o);
    PartyRecordKeepsNumbers(o, view, now, l, o'.rv);
  }

  /** `o` is a live `known` a party recorded into after the cycle read it. */
  predicate Overtaken(known: Object, o: Object, l: Lifetimes) {
    var s := known.status.(observed := o.status.observed, outcome := Some(Conflicted));
    && !Frozen(known.status)
    && o == known.(rv := o.rv, status := s.(servableUntil := Stamp(l, known, s, false)))
  }

  /**
   * Where the party had read what the cycle did, a live record keeps the stamp the formula's exactly when its patch
   * carries outcome and stamp both or neither: with one alone, the outcome is of one and the window of the other.
   */
  lemma OvertakenRecordStampsExactly(o: Object, known: Object, d: Decision, now: Time, l: Lifetimes, o': Object)
    requires OnSeconds(known) && StampAgrees(known, l) && Overtaken(known, o, l)
    requires !d.outcome.Conflicted? && !d.departed && RecordWrites(known, d, now, l)
    requires o' == o.(rv := o'.rv, status := PatchStatus(o.status, known.status, RecordDesired(known, d, now, l)))
    ensures StampAgrees(o', l) <==>
            || SameWindows(l) || RecordDesired(known, d, now, l).servableUntil.None?
            || (Some(d.outcome) == known.status.outcome <==>
                RecordDesired(known, d, now, l).servableUntil == known.status.servableUntil)
  {
    var desired := RecordDesired(known, d, now, l);
    OvertakenAgrees(o, known, l);
    RecordIsStamped(known, d, now, l);
    OvertakenSafe(o, known, d, now, l, o');
    GoverningWriteStampsExactly(o, known, desired, d.outcome.Computed?, l, o');
  }

  lemma OvertakenAgrees(o: Object, known: Object, l: Lifetimes)
    requires OnSeconds(known) && StampAgrees(known, l) && Overtaken(known, o, l)
    ensures OnSeconds(o) && SameNumbers(known, o) && StampAgrees(o, l) && Frozen(o.status)
    ensures o.status.servableUntil.None? <==> known.status.servableUntil.None?
  {
    StampSurvivesStorage(l, known.created, known.status.(outcome := Some(Conflicted)));
  }

  lemma OvertakenSafe(o: Object, known: Object, d: Decision, now: Time, l: Lifetimes, o': Object)
    requires OnSeconds(known) && StampAgrees(known, l) && Overtaken(known, o, l)
    requires !d.outcome.Conflicted? && !d.departed
    requires o' == o.(rv := o'.rv, status := PatchStatus(o.status, known.status, RecordDesired(known, d, now, l)))
    ensures WriteSafe(o, known, RecordDesired(known, d, now, l), l) <==>
            || SameWindows(l) || RecordDesired(known, d, now, l).servableUntil.None?
            || (Some(d.outcome) == known.status.outcome <==>
                RecordDesired(known, d, now, l).servableUntil == known.status.servableUntil)
  {
    var desired := RecordDesired(known, d, now, l);
    OvertakenAgrees(o, known, l);
    RecordIsStamped(known, d, now, l);
    WrittenStatus(o, known, desired, d.outcome.Computed?, l, o');
    DesiredStamp(o', known, desired, d.outcome.Computed?, l);
    StampOf(known, l);
  }

  // ---- Liveness ----

  /** `policy`'s own numbers are stored, stamped, and were computed less than the refresh interval before `t`. */
  ghost predicate HeldAt(o: Object, policy: string, t: Time, l: Lifetimes) {
    && o.policy == policy && o.status.computedBy == policy && o.status.containers != map[]
    && o.status.observedAt.Some? && t - o.status.observedAt.value < REFRESH_INTERVAL
    && o.status.servableUntil.Some? && OnSeconds(o) && StampAgrees(o, l)
  }

  /** What happens while a Policy goes on governing an identity, between two of its Computed records. */
  predicate Quiet(s: Step, policy: string) {
    match s
    case EnsureGet(p, _, _) => p == policy
    case TakeInventory(p, _) => p == policy
    case Record(d, _) => !d.outcome.Computed?
    case DeleteJudged(judged) => judged.policy != policy
    case _ => true
  }

  /** As quiet, and the identity has members that agree. */
  predicate Live(s: Step, policy: string) {
    Quiet(s, policy) && !s.PartyRecord? && (s.Record? ==> !s.decision.outcome.Conflicted? && !s.decision.departed)
  }

  lemma EncodedIsNonEmpty(recs: Recommendation)
    requires recs != map[]
    ensures EncodeAll(recs) != map[]
  {
    var name :| name in recs;
    assert name in EncodeAll(recs);
  }

  lemma EquivalentToNonEmpty(known: Object, d: Decision)
    requires RecsEquivalent(DecodeAll(known.status.containers), DecodeAll(EncodeAll(d.recs))) && d.recs != map[]
    ensures known.status.containers != map[]
  {
    DecodeEncode(d.recs);
    assert |DecodeAll(known.status.containers)| == |d.recs| > 0;
    assert DecodeAll(known.status.containers).Keys == known.status.containers.Keys;
  }

  /** A safe Computed record of something leaves it held, written or not. */
  lemma ComputedRecordIsHeld(w: World, d: Decision, t: Time, l: Lifetimes)
    requires StampInv(w, l) && w.pass.Holding? && d.outcome.Computed? && d.recs != map[] && Safe(w, Record(d, t), l)
    ensures var w' := NextRecord(w, d, t, l);
            w'.pass.Idle? && w'.stored.Some? && HeldAt(w'.stored.value, w.pass.policy, t, l)
  {
    StepStampsExactly(w, Record(d, t), l);
    EncodedIsNonEmpty(d.recs);
    if RecordWrites(w.pass.known, d, t, l) {
      WrittenIsHeld(w.stored.value, w.pass.known, d, t, l, NextRecord(w, d, t, l).stored.value);
    } else {
      UnwrittenIsHeld(w.stored.value, w.pass.known, d, t, l);
    }
  }

  lemma UnwrittenIsHeld(o: Object, known: Object, d: Decision, t: Time, l: Lifetimes)
    requires OnSeconds(o) && OnSeconds(known) && SameNumbers(known, o) && StampAgrees(o, l)
    requires d.outcome.Computed? && d.recs != map[] && !RecordWrites(known, d, t, l)
    requires known.status.servableUntil.Some? ==> o.status.servableUntil.Some?
    ensures HeldAt(o, o.policy, t, l)
  {
    UnwrittenIsEquivalent(known, d, t, l);
    EquivalentToNonEmpty(known, d);
    RecordIsStamped(known, d, t, l);
  }

  lemma WrittenIsHeld(o: Object, known: Object, d: Decision, t: Time, l: Lifetimes, o': Object)
    requires OnSeconds(o) && OnSeconds(known) && SameNumbers(known, o) && d.outcome.Computed? && EncodeAll(d.recs) != map[]
    requires known.status.servableUntil.Some? ==> o.status.servableUntil.Some?
    requires o' == o.(rv := o'.rv, status := PatchStatus(o.status, known.status, RecordDesired(known, d, t, l)))
    requires StampAgrees(o', l)
    ensures HeldAt(o', o.policy, t, l)
  {
    var desired := RecordDesired(known, d, t, l);
    ToSecondIsIdempotent(t);
    RecordIsStamped(known, d, t, l);
    WrittenStatus(o, known, desired, true, l, o');
    NumbersReach(o, known, desired);
  }

  /** A quiet, safe step leaves what is held held, and a live one leaves it live. */
  lemma QuietStepKeepsHeld(w: World, s: Step, policy: string, t: Time, l: Lifetimes)
    requires StampInv(w, l) && Enabled(w, s) && Safe(w, s, l) && Quiet(s, policy) && PolicyOf(w.pass) in {None, Some(policy)}
    requires w.stored.Some? && HeldAt(w.stored.value, policy, t, l)
    ensures var w' := Next(w, s, l);
            && w'.stored.Some? && HeldAt(w'.stored.value, policy, t, l) && PolicyOf(w'.pass) in {None, Some(policy)}
            && (Live(s, policy) && !Frozen(w.stored.value.status) ==> !Frozen(w'.stored.value.status))
  {
    StepStampsExactly(w, s, l);
    QuietStepStays(w, s, policy, l);
    if Next(w, s, l).stored.Some? {
      assert Next(w, s, l).stored.value in Next(w, s, l).versions;
      if !Replaces(w, Next(w, s, l)) {
        OnlyComputedStamps(w, s, l);
      }
    }
  }

  /** A quiet step leaves the object the Policy's, with its numbers. */
  lemma QuietStepStays(w: World, s: Step, policy: string, l: Lifetimes)
    requires Inv(w) && Enabled(w, s) && Quiet(s, policy) && PolicyOf(w.pass) in {None, Some(policy)}
    requires w.stored.Some? && w.stored.value.policy == policy
    ensures var w' := Next(w, s, l);
            && w'.stored.Some? && PolicyOf(w'.pass) in {None, Some(policy)}
            && KeepsNumbers(w.stored.value, w'.stored.value)
            && (Live(s, policy) && !Frozen(w.stored.value.status) ==> !Frozen(w'.stored.value.status))
  {
    var o := w.stored.value;
    if s.EnsureStatus? || s.Record? {
      QuietWriteStays(w, s, policy, l);
    } else if s.PartyRecord? {
      PartyRecordKeepsNumbers(o, s.view, s.now, l, w.nextRv);
    } else if s.RequestSnapshot? {
      SnapshotChangesNothingElse(o, s.view, s.observed, w.nextRv);
    } else if s.DeleteJudged? {
      DeleteKeepsInv(w, s.judged);
    }
  }

  /** The same object, as far as `SameNumbers` and the Policy it names go. */
  predicate KeepsNumbers(o: Object, o': Object) {
    && o'.uid == o.uid && o'.created == o.created && o'.policy == o.policy
    && o'.status.computedBy == o.status.computedBy && o'.status.containers == o.status.containers
    && o'.status.observedAt == o.status.observedAt
  }

  lemma QuietWriteStays(w: World, s: Step, policy: string, l: Lifetimes)
    requires Inv(w) && Enabled(w, s) && Quiet(s, policy) && (s.EnsureStatus? || s.Record?)
    requires w.stored.Some? && w.stored.value.policy == policy && w.pass.policy == policy
    ensures var w' := Next(w, s, l);
            && w'.stored.Some? && PolicyOf(w'.pass) in {None, Some(policy)}
            && KeepsNumbers(w.stored.value, w'.stored.value)
            && (Live(s, policy) && !Frozen(w.stored.value.status) ==> !Frozen(w'.stored.value.status))
  {
    var o, known := w.stored.value, w.pass.known;
    if s.EnsureStatus? {
      if EnsureWrites(known, w.pass.observed) {
        NumbersReach(o, known, EnsureDesired(known, w.pass.observed, l));
      }
    } else if RecordWrites(known, s.decision, s.now, l) {
      NumbersReach(o, known, RecordDesired(known, s.decision, s.now, l));
    }
  }

  lemma {:induction false} QuietRunKeepsHeld(w: World, run: Run, policy: string, t: Time, l: Lifetimes)
    requires StampInv(w, l) && SafeRun(w, run, l) && PolicyOf(w.pass) in {None, Some(policy)}
    requires forall i :: 0 <= i < |run| ==> Quiet(run[i], policy)
    requires w.stored.Some? && HeldAt(w.stored.value, policy, t, l)
    ensures var w' := Exec(w, run, l);
            && w'.stored.Some? && HeldAt(w'.stored.value, policy, t, l) && PolicyOf(w'.pass) in {None, Some(policy)}
            && ((forall i :: 0 <= i < |run| ==> Live(run[i], policy)) && !Frozen(w.stored.value.status) ==>
                  !Frozen(w'.stored.value.status))
  {
    if run != [] {
      var prefix, s := run[..|run| - 1], run[|run| - 1];
      SafePrefix(w, run, l);
      ValidPrefix(w, run, l);
      QuietRunKeepsHeld(w, prefix, policy, t, l);
      RunStampsExactly(w, prefix, l);
      QuietStepKeepsHeld(Exec(w, prefix, l), s, policy, t, l);
    }
  }

  lemma HeldIsInjected(o: Object, policy: string, t: Time, now: Time, gap: int, l: Lifetimes)
    requires HeldAt(o, policy, t, l) && now <= t + gap
    requires REFRESH_INTERVAL + gap + SECOND <= Window(l, o.status)
    ensures Read(Some(o), policy, now).verdict == if Frozen(o.status) then Retained else Fresh
  {
    StampOf(o, l);
    ToSecondIsIdempotent(Window(l, o.status));
  }

  /**
   * From a Computed record on, its Policy's pods are injected at every instant until the next one is due, whatever
   * requests, claims, other outcomes, safe records of parties and other Policies' deletions come in between.
   */
  lemma ServedBetweenRecords(w: World, d: Decision, t: Time, run: Run, now: Time, gap: int, l: Lifetimes)
    requires StampInv(w, l) && w.pass.Holding? && d.outcome.Computed? && d.recs != map[] && Safe(w, Record(d, t), l)
    requires SafeRun(NextRecord(w, d, t, l), run, l)
    requires forall i :: 0 <= i < |run| ==> Quiet(run[i], w.pass.policy)
    requires REFRESH_INTERVAL + gap + SECOND <= l.StalenessBudget() && REFRESH_INTERVAL + gap + SECOND <= l.retention
    requires now <= t + gap
    ensures Read(Exec(NextRecord(w, d, t, l), run, l).stored, w.pass.policy, now).verdict.Injects()
  {
    var w' := NextRecord(w, d, t, l);
    StepStampsExactly(w, Record(d, t), l);
    ComputedRecordIsHeld(w, d, t, l);
    QuietRunKeepsHeld(w', run, w.pass.policy, t, l);
    HeldIsInjected(Exec(w', run, l).stored.value, w.pass.policy, t, now, gap, l);
  }

  /** While the identity stays live the staleness budget alone bounds the gap, whatever the retention. */
  lemma FreshBetweenRecords(w: World, d: Decision, t: Time, run: Run, now: Time, gap: int, l: Lifetimes)
    requires StampInv(w, l) && Current(w) && w.pass.Holding? && d.outcome.Computed? && !d.departed && d.recs != map[]
    requires Valid(NextRecord(w, d, t, l), run, l)
    requires forall i :: 0 <= i < |run| ==> Live(run[i], w.pass.policy)
    requires REFRESH_INTERVAL + gap + SECOND <= l.StalenessBudget()
    requires now <= t + gap
    ensures Read(Exec(NextRecord(w, d, t, l), run, l).stored, w.pass.policy, now).verdict == Fresh
  {
    var s, w' := Record(d, t), NextRecord(w, d, t, l);
    UpToDateStepIsSafe(w, s, l);
    StepStampsExactly(w, s, l);
    ComputedRecordIsHeld(w, d, t, l);
    ComputedRecordIsLive(w, d, t, l);
    LiveIsUpToDate(w', run, w.pass.policy, l);
    UpToDateRunIsSafe(w', run, l);
    QuietRunKeepsHeld(w', run, w.pass.policy, t, l);
    HeldIsInjected(Exec(w', run, l).stored.value, w.pass.policy, t, now, gap, l);
  }

  lemma ComputedRecordIsLive(w: World, d: Decision, t: Time, l: Lifetimes)
    requires Inv(w) && Current(w) && w.pass.Holding? && d.outcome.Computed? && !d.departed
    ensures NextRecord(w, d, t, l).stored.Some? && !Frozen(NextRecord(w, d, t, l).stored.value.status)
  {
    if !RecordWrites(w.pass.known, d, t, l) {
      UnwrittenIsEquivalent(w.pass.known, d, t, l);
    }
  }

  lemma LiveIsUpToDate(w: World, run: Run, policy: string, l: Lifetimes)
    requires Valid(w, run, l) && forall i :: 0 <= i < |run| ==> Live(run[i], policy)
    ensures UpToDateRun(w, run, l)
  {
    forall i | 0 <= i < |run| ensures UpToDate(Exec(w, run[..i], l), run[i]) {
      assert Live(run[i], policy);
    }
  }

  /** One reconcile interval always fits the budget, whatever the interval. */
  lemma BudgetCoversInterval(l: Lifetimes)
    ensures REFRESH_INTERVAL + l.reconcileInterval + SECOND <= l.StalenessBudget()
  {
  }
}
