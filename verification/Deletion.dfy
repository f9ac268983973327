/** The deletion paths over every object of the cluster, with other writers in between (internal/wlrcache/delete.go). */
module Deletion {
  import opened Common
  import opened Lifecycle

  datatype Standing = Ungoverned | Governed | DepartedIdentity | ConflictedIdentity

  /** The judgement of one object: a governed one stays, one nobody governs goes, a frozen one outlives its retention. */
  predicate Expired(known: Object, policy: string, s: Standing, at: Time, l: Lifetimes) {
    && known.policy == policy
    && at - known.created >= SWEEP_GRACE
    && match s
       case Ungoverned => true
       case DepartedIdentity => at - LastComputed(known.created, known.status.observedAt) > l.retention
       case ConflictedIdentity => at - LastComputed(known.created, known.status.observedAt) > l.retention
       case Governed => false
  }

  /** What a sweep deletes of a frozen object under a frozen standing was no longer injected to anyone. */
  lemma ExpiredIsNotInjected(o: Object, policy: string, s: Standing, at: Time, l: Lifetimes, reader: string)
    requires OnSeconds(o) && StampAgrees(o, l) && Frozen(o.status)
    requires (s.DepartedIdentity? || s.ConflictedIdentity?) && Expired(o, policy, s, at, l)
    ensures !Read(Some(o), reader, at).verdict.Injects()
  {
    if o.status.servableUntil.Some? {
      ToSecondIsIdempotent(LastComputed(o.created, o.status.observedAt));
      ToSecondIsIdempotent(ToSecond(LastComputed(o.created, o.status.observedAt)) + l.retention);
    }
  }

  /** Nothing deleted under a frozen standing, however it is stored, is injected to anyone at that instant. */
  ghost predicate ExpiresOnlyUninjected(l: Lifetimes) {
    forall o, policy, s: Standing, at, reader ::
      OnSeconds(o) && StampAgrees(o, l) && (s.DepartedIdentity? || s.ConflictedIdentity?) && Expired(o, policy, s, at, l) ==>
        !Read(Some(o), reader, at).verdict.Injects()
  }

  /** Of an object still stored as live: it is injected until its staleness budget is over. */
  lemma ExpiredLiveIsNotInjected(o: Object, policy: string, s: Standing, at: Time, l: Lifetimes, reader: string)
    requires OnSeconds(o) && StampAgrees(o, l) && !Frozen(o.status)
    requires (s.DepartedIdentity? || s.ConflictedIdentity?) && Expired(o, policy, s, at, l)
    requires l.retention + 1 >= ToSecond(l.StalenessBudget())
    ensures !Read(Some(o), reader, at).verdict.Injects()
  {
    if o.status.containers != map[] {
      StampByWindow(l, o, o.status);
    }
  }

  /** With a shorter retention, some object stored as live is deleted as departed while it is injected. */
  lemma ExpiredLiveMayStillBeInjected(l: Lifetimes)
    requires l.Valid() && l.retention + 1 < ToSecond(l.StalenessBudget())
    ensures exists o, at ::
              && OnSeconds(o) && StampAgrees(o, l) && !Frozen(o.status)
              && Expired(o, "p", DepartedIdentity, at, l) && Read(Some(o), "p", at).verdict.Injects()
  {
    var until := Some(SWEEP_GRACE + ToSecond(l.StalenessBudget()));
    var o := Object("n", 0, 0, 0, "p", "p",
                    Status(Some(SWEEP_GRACE), Some(Computed), "p", false, until, map["app" := map[]], map[]));
    var at := SWEEP_GRACE + l.retention + 1;
    assert "app" in o.status.containers;
    assert OnSeconds(o) by {
      WholeSecondsShift(SWEEP_GRACE, ToSecond(l.StalenessBudget()));
      ToSecondIsIdempotent(l.StalenessBudget());
    }
    StampByWindow(l, o, o.status);
    assert Expired(o, "p", DepartedIdentity, at, l);
    assert Read(Some(o), "p", at).verdict.Injects();
  }

  /** What a sweep deletes under a frozen standing is never injected exactly when retention covers the staleness budget. */
  lemma ExpiredIsUninjectedExactly(l: Lifetimes)
    requires l.Valid()
    ensures ExpiresOnlyUninjected(l) <==> l.retention + 1 >= ToSecond(l.StalenessBudget())
  {
    if l.retention + 1 >= ToSecond(l.StalenessBudget()) {
      forall o, policy, s: Standing, at, reader |
        OnSeconds(o) && StampAgrees(o, l) && (s.DepartedIdentity? || s.ConflictedIdentity?) && Expired(o, policy, s, at, l)
        ensures !Read(Some(o), reader, at).verdict.Injects()
      {
        if Frozen(o.status) {
          ExpiredIsNotInjected(o, policy, s, at, l, reader);
        } else {
          ExpiredLiveIsNotInjected(o, policy, s, at, l, reader);
        }
      }
    } else {
      ExpiredLiveMayStillBeInjected(l);
    }
  }

  // ---- The cluster ----

  /** The objects stored by name, and the next UID and resourceVersion to be given out. */
  datatype Cluster = Cluster(objects: map<string, Object>, nextUid: nat, nextRv: nat)

  ghost predicate Wellformed(c: Cluster) {
    forall n :: n in c.objects ==>
      c.objects[n].name == n && c.objects[n].uid < c.nextUid && c.objects[n].rv < c.nextRv
  }

  /**
   * Any writes by others: every object is unchanged or a new revision, an object keeps its UID for life, and a UID once
   * given out is given to no other object.
   */
  ghost predicate Evolves(a: Cluster, b: Cluster) {
    && Wellformed(b) && a.nextUid <= b.nextUid && a.nextRv <= b.nextRv
    && forall n :: n in b.objects ==>
         && ((n in a.objects && b.objects[n] == a.objects[n]) || b.objects[n].rv >= a.nextRv)
         && ((n in a.objects && b.objects[n].uid == a.objects[n].uid) || b.objects[n].uid >= a.nextUid)
  }

  /** `o` is a version of an object some cache may hold: stored once, and not reused since. */
  ghost predicate PastVersion(o: Object, c: Cluster) {
    && o.uid < c.nextUid && o.rv < c.nextRv
    && forall n :: n in c.objects && c.objects[n].uid == o.uid ==>
         n == o.name && (c.objects[n].rv == o.rv ==> c.objects[n] == o)
  }

  ghost predicate PastVersions(items: seq<Object>, c: Cluster) {
    forall o :: o in items ==> PastVersion(o, c)
  }

  lemma EvolvesKeepsVersions(items: seq<Object>, a: Cluster, b: Cluster)
    requires PastVersions(items, a) && Evolves(a, b)
    ensures PastVersions(items, b)
  {
  }

  lemma EvolvesIsTransitive(a: Cluster, b: Cluster, c: Cluster)
    requires Evolves(a, b) && Evolves(b, c)
    ensures Evolves(a, c)
  {
  }

  /** No object with UID `uid` is stored under any name. */
  ghost predicate Gone(uid: nat, c: Cluster) {
    forall n :: n in c.objects ==> c.objects[n].uid != uid
  }

  lemma GoneForGood(uid: nat, a: Cluster, b: Cluster)
    requires Gone(uid, a) && uid < a.nextUid && Evolves(a, b)
    ensures Gone(uid, b)
  {
  }

  /** The version judged is stored no longer: the object is gone, or has been rewritten. */
  ghost predicate Superseded(o: Object, c: Cluster) {
    forall n :: n in c.objects && c.objects[n].uid == o.uid ==> c.objects[n].rv != o.rv
  }

  lemma SupersededForGood(o: Object, a: Cluster, b: Cluster)
    requires Superseded(o, a) && PastVersion(o, a) && Evolves(a, b)
    ensures Superseded(o, b)
  {
    forall n | n in b.objects && b.objects[n].uid == o.uid ensures b.objects[n].rv != o.rv {
      assert n in a.objects && a.objects[n].uid == o.uid;
    }
  }

  datatype Answer = Deleted | NotFound | Conflict | Unavailable

  /** A delete on condition of the UID and resourceVersion of `judged`. */
  function DeleteAnswer(c: Cluster, judged: Object, down: bool): Answer {
    if down then Unavailable
    else if judged.name !in c.objects then NotFound
    else if c.objects[judged.name].uid == judged.uid && c.objects[judged.name].rv == judged.rv then Deleted
    else Conflict
  }

  lemma DeletedIsJudged(c: Cluster, judged: Object, down: bool)
    requires PastVersion(judged, c) && Wellformed(c) && DeleteAnswer(c, judged, down).Deleted?
    ensures c.objects[judged.name] == judged
  {
  }

  lemma DeleteEvolves(c: Cluster, name: string)
    requires Wellformed(c)
    ensures Evolves(c, c.(objects := c.objects - {name}))
  {
  }

  /** Nobody else writes. */
  ghost predicate Alone(others: (nat, Cluster) -> Cluster) {
    forall i, a :: others(i, a) == a
  }

  ghost function NamesOf(os: seq<Object>): set<string> {
    set o | o in os :: o.name
  }

  datatype OnConflict = JudgeNextTime | FailRelease

  lemma DropBoth(objects: map<string, Object>, first: seq<Object>, more: seq<Object>)
    ensures objects - NamesOf(first) - NamesOf(more) == objects - NamesOf(first + more)
  {
    assert NamesOf(first + more) == NamesOf(first) + NamesOf(more);
  }

  /** One delete, on condition that the object is still the version judged. */
  method DeleteOne(c: Cluster, known: Object, onConflict: OnConflict, down: bool)
    returns (c1: Cluster, counted: nat, failed: bool, removed: seq<Object>)
    requires Wellformed(c) && PastVersion(known, c)
    ensures Evolves(c, c1) && c1 == c.(objects := c.objects - NamesOf(removed))
    ensures removed == [] || removed == [known]
    ensures |removed| <= counted
    ensures !failed && onConflict.FailRelease? ==> Gone(known.uid, c1)
    ensures !failed ==> Superseded(known, c1)
  {
    c1, counted, failed, removed := c, 0, false, [];
    match DeleteAnswer(c, known, down) {
      case Deleted =>
        DeletedIsJudged(c, known, down);
        DeleteEvolves(c, known.name);
        counted, removed := 1, [c.objects[known.name]];
        c1 := c.(objects := c.objects - {known.name});
        assert NamesOf(removed) == {known.name};
      case NotFound => counted := 1;
      case Conflict => failed := onConflict.FailRelease?;
      case Unavailable => failed := true;
    }
    assert removed == [] ==> c.objects - NamesOf(removed) == c.objects;
  }

  /** Every listed object judged expired is superseded and, when a conflict fails the path, gone. */
  ghost predicate Dealt(items: seq<Object>, expired: Object -> bool, onConflict: OnConflict, c: Cluster) {
    forall o :: o in items && expired(o) ==> Superseded(o, c) && (onConflict.FailRelease? ==> Gone(o.uid, c))
  }

  lemma DealtForGood(items: seq<Object>, expired: Object -> bool, onConflict: OnConflict, a: Cluster, b: Cluster)
    requires Dealt(items, expired, onConflict, a) && PastVersions(items, a) && Evolves(a, b)
    ensures Dealt(items, expired, onConflict, b)
  {
    forall o | o in items && expired(o) ensures Superseded(o, b) && (onConflict.FailRelease? ==> Gone(o.uid, b)) {
      SupersededForGood(o, a, b);
      if onConflict.FailRelease? {
        GoneForGood(o.uid, a, b);
      }
    }
  }

  /**
   * What the paths share: deletes the listed objects judged expired, each on condition that it is still the version
   * judged. `others` is what other writers do before each delete, and `down` when the apiserver fails one.
   */
  method DeleteWhere(c0: Cluster, items: seq<Object>, expired: Object -> bool, onConflict: OnConflict,
                     others: (nat, Cluster) -> Cluster, down: (nat, Cluster) -> bool)
    returns (c: Cluster, deleted: nat, failed: bool, removed: seq<Object>)
    requires Wellformed(c0) && PastVersions(items, c0)
    requires forall i, a :: Wellformed(a) ==> Evolves(a, others(i, a))
    ensures Evolves(c0, c)
    ensures forall o :: o in removed ==> o in items && expired(o)
    ensures Alone(others) ==> c == c0.(objects := c0.objects - NamesOf(removed))
    ensures |removed| <= deleted
    ensures !failed ==> Dealt(items, expired, onConflict, c)
  {
    c, deleted, failed, removed := c0, 0, false, [];
    for i := 0 to |items|
      invariant Evolves(c0, c) && Wellformed(c)
      invariant PastVersions(items, c)
      invariant forall o :: o in removed ==> o in items && expired(o)
      invariant |removed| <= deleted
      invariant Alone(others) ==> c == c0.(objects := c0.objects - NamesOf(removed))
      invariant !failed ==> Dealt(items[..i], expired, onConflict, c)
    {
      var known := items[i];
      assert items[..i + 1] == items[..i] + [known];
      if expired(known) {
        var c1 := others(i, c);
        EvolvesKeepsVersions(items, c, c1);
        EvolvesIsTransitive(c0, c, c1);
        var c2, counted, refused, gone := DeleteOne(c1, known, onConflict, down(i, c1));
        EvolvesKeepsVersions(items, c1, c2);
        EvolvesIsTransitive(c0, c1, c2);
        EvolvesIsTransitive(c, c1, c2);
        DropBoth(c0.objects, removed, gone);
        if !failed {
          DealtForGood(items[..i], expired, onConflict, c, c2);
        }
        c, deleted, failed, removed := c2, deleted + counted, failed || refused, removed + gone;
      }
    }
    assert items[..|items|] == items;
  }

  /** Deletes `policy`'s objects judged expired where their identities stand; one rewritten meanwhile is left alone. */
  method Sweep(c0: Cluster, items: seq<Object>, policy: string, standing: Object -> Standing, at: Time, l: Lifetimes,
               others: (nat, Cluster) -> Cluster, down: (nat, Cluster) -> bool)
    returns (c: Cluster, deleted: nat, failed: bool, removed: seq<Object>)
    requires Wellformed(c0) && PastVersions(items, c0)
    requires forall i, a :: Wellformed(a) ==> Evolves(a, others(i, a))
    ensures Evolves(c0, c) && (Alone(others) ==> c == c0.(objects := c0.objects - NamesOf(removed)))
    ensures forall o :: o in removed ==>
              o in items && o.policy == policy && !standing(o).Governed? && o.created <= at - 10 * MINUTE
    ensures forall o :: o in removed && !standing(o).Ungoverned? ==>
              o.created < at - l.retention && (o.status.observedAt.Some? ==> o.status.observedAt.value < at - l.retention)
    ensures !failed ==>
              forall o, n | && o in items && o.policy == policy && standing(o).Ungoverned? && o.created <= at - 10 * MINUTE
                            && n in c.objects && c.objects[n].uid == o.uid :: c.objects[n].rv != o.rv
    ensures !failed ==>
              forall o, n | && o in items && o.policy == policy && (standing(o).DepartedIdentity? || standing(o).ConflictedIdentity?)
                            && o.created <= at - 10 * MINUTE && o.created < at - l.retention
                            && (o.status.observedAt.Some? ==> o.status.observedAt.value < at - l.retention)
                            && n in c.objects && c.objects[n].uid == o.uid :: c.objects[n].rv != o.rv
  {
    c, deleted, failed, removed :=
      DeleteWhere(c0, items, (o: Object) => Expired(o, policy, standing(o), at, l), JudgeNextTime, others, down);
  }

  /** Deletes the objects still naming a Policy being deleted; success leaves none of those it listed. */
  method Release(c0: Cluster, items: seq<Object>, policy: string,
                 others: (nat, Cluster) -> Cluster, down: (nat, Cluster) -> bool)
    returns (c: Cluster, deleted: nat, failed: bool, removed: seq<Object>)
    requires Wellformed(c0) && PastVersions(items, c0)
    requires forall i, a :: Wellformed(a) ==> Evolves(a, others(i, a))
    ensures Evolves(c0, c) && (Alone(others) ==> c == c0.(objects := c0.objects - NamesOf(removed)))
    ensures forall o :: o in removed ==> o in items && o.policy == policy
    ensures !failed ==> forall o, n :: o in items && o.policy == policy && n in c.objects ==> c.objects[n].uid != o.uid
  {
    c, deleted, failed, removed := DeleteWhere(c0, items, (o: Object) => o.policy == policy, FailRelease, others, down);
  }

  /** `DeleteWhere` of what names a Policy outside `policies`; a conflict is no failure. */
  method Reap(c0: Cluster, items: seq<Object>, policies: set<string>,
              others: (nat, Cluster) -> Cluster, down: (nat, Cluster) -> bool)
    returns (c: Cluster, deleted: nat, failed: bool, removed: seq<Object>)
    requires Wellformed(c0) && PastVersions(items, c0)
    requires forall i, a :: Wellformed(a) ==> Evolves(a, others(i, a))
    ensures Evolves(c0, c) && (Alone(others) ==> c == c0.(objects := c0.objects - NamesOf(removed)))
    ensures forall o :: o in removed ==> o in items && o.policy != "" && o.policy !in policies
    ensures !failed ==>
              forall o, n | && o in items && o.policy != "" && o.policy !in policies
                            && n in c.objects && c.objects[n].uid == o.uid :: c.objects[n].rv != o.rv
  {
    c, deleted, failed, removed :=
      DeleteWhere(c0, items, (o: Object) => o.policy != "" && o.policy !in policies, JudgeNextTime, others, down);
  }
}
