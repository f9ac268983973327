/** Histories of results, and the memory, claims and health they come to (internal/ledger). */
module Ledger {
  import opened Arithmetic
  import opened Common
  import opened Ordering

  const BASE_RETRY_DELAY: int := 30 * SECOND
  const MAX_RETRY_DELAY: int := 5 * MINUTE
  const MAX_SHIFT: nat := 16

  datatype MemberKey = MemberKey(kind: string, namespace: string, name: string)

  datatype ApplyStep = PrometheusStep | PatchStep | ResizeStep | StoreStep

  datatype PodCounts = PodCounts(total: nat, stale: nat)

  // ---- Errors ----

  /** An error's tree: a refusal, an API status, a wrapper of one error or of several, or anything else. */
  datatype ErrorTree = Refused | ApiStatus(code: int) | Wrapped(inner: ErrorTree) | Joined(errors: seq<ErrorTree>) | OtherError

  predicate RejectingCode(code: int) {
    400 <= code < 500 && code != 404 && code != 409 && code != 429
  }

  /** A refusal or a rejecting API status anywhere in the tree. */
  predicate Permanent(e: ErrorTree) {
    match e
    case Refused => true
    case ApiStatus(code) => RejectingCode(code)
    case Wrapped(inner) => Permanent(inner)
    case Joined(errors) => exists i :: 0 <= i < |errors| && Permanent(errors[i])
    case OtherError => false
  }

  /** The errors an error is made of. */
  function Leaves(e: ErrorTree): set<ErrorTree> {
    match e
    case Wrapped(inner) => Leaves(inner)
    case Joined(errors) => set i, l | 0 <= i < |errors| && l in Leaves(errors[i]) :: l
    case _ => {e}
  }

  /** One refusal or rejection anywhere in the tree makes it permanent, and nothing else does. */
  lemma {:induction false} PermanentMeans(e: ErrorTree)
    ensures Permanent(e) <==> exists l :: l in Leaves(e) &&
                                           (l.Refused? || (l.ApiStatus? && 400 <= l.code < 500 && l.code !in {404, 409, 429}))
    ensures forall l :: l in Leaves(e) ==> !l.Wrapped? && !l.Joined?
  {
    match e
    case Wrapped(inner) => PermanentMeans(inner);
    case Joined(errors) =>
      forall i | 0 <= i < |errors|
        ensures Permanent(errors[i]) <==> exists l :: l in Leaves(errors[i]) &&
                                                       (l.Refused? || (l.ApiStatus? && 400 <= l.code < 500 && l.code !in {404, 409, 429}))
        ensures forall l :: l in Leaves(errors[i]) ==> !l.Wrapped? && !l.Joined?
      {
        PermanentMeans(errors[i]);
      }
    case Refused => assert e in Leaves(e);
    case ApiStatus(_) => assert e in Leaves(e);
    case OtherError =>
  }

  /** Wrapping an error keeps its kind, and joining others to it only adds theirs. */
  lemma WrappingKeepsKind(e: ErrorTree, before: seq<ErrorTree>, after: seq<ErrorTree>)
    ensures Permanent(Wrapped(e)) <==> Permanent(e)
    ensures Permanent(Joined(before + [e] + after)) <==>
              Permanent(e) || Permanent(Joined(before)) || Permanent(Joined(after))
  {
    var all := before + [e] + after;
    assert all[|before|] == e;
    forall i | 0 <= i < |after| ensures all[|before| + 1 + i] == after[i] {
    }
    forall i | 0 <= i < |before| ensures all[i] == before[i] {
    }
  }

  // ---- Results ----

  datatype ResultKind =
    | Done(pods: PodCounts)
    | Idle
    | Uncounted
    | Skipped
    | Failed(step: ApplyStep, error: ErrorTree)

  datatype Result = Result(member: MemberKey, kind: ResultKind)

  predicate TransientFailure(k: ResultKind) {
    k.Failed? && !Permanent(k.error)
  }


  datatype Event = RetryScheduled(attempt: nat, at: Time) | FailedPermanently

  /** With `permanent`, `attempts` and `due` are zero and mean nothing. */
  datatype Failure = Failure(step: ApplyStep, permanent: bool, attempts: nat, due: Time)

  datatype Entry = Entry(pods: PodCounts, measured: bool, failure: Option<Failure>)

  const NEW_ENTRY := Entry(PodCounts(0, 0), false, None)

  function Pow2(n: nat): (p: nat)
    ensures p >= 1
  {
    if n == 0 then 1 else 2 * Pow2(n - 1)
  }

  /** The delay after `attempts` consecutive transient failures, doubling, capped before the shift can overflow. */
  function Backoff(attempts: nat): int
    requires attempts >= 1
  {
    var shift := if attempts - 1 <= MAX_SHIFT then attempts - 1 else MAX_SHIFT;
    Min(BASE_RETRY_DELAY * Pow2(shift), MAX_RETRY_DELAY)
  }

  lemma {:induction false} Pow2Grows(a: nat, b: nat)
    requires a <= b
    ensures Pow2(a) <= Pow2(b)
  {
    if a < b {
      Pow2Grows(a, b - 1);
    }
  }

  lemma Pow2Sixteen()
    ensures Pow2(4) == 16 && Pow2(16) == 65536
  {
    assert Pow2(8) == 256;
    assert Pow2(12) == 4096;
  }

  lemma PowerFits(p: int)
    requires p <= 65536
    ensures BASE_RETRY_DELAY * p < 0x8000_0000_0000_0000
  {
  }

  lemma PowerIsCapped(p: int)
    requires p >= 16
    ensures Min(BASE_RETRY_DELAY * p, MAX_RETRY_DELAY) == MAX_RETRY_DELAY
  {
  }

  lemma DelayInRange(p: int)
    requires p >= 1
    ensures BASE_RETRY_DELAY <= Min(BASE_RETRY_DELAY * p, MAX_RETRY_DELAY) <= MAX_RETRY_DELAY
  {
  }

  /** The capped shift changes no delay and never leaves 64 bits, however many attempts there were. */
  lemma BackoffIsDoubling(attempts: nat)
    requires attempts >= 1
    ensures Backoff(attempts) == Min(30 * SECOND * Pow2(attempts - 1), 5 * MINUTE)
    ensures attempts - 1 <= MAX_SHIFT ==> BASE_RETRY_DELAY * Pow2(attempts - 1) < 0x8000_0000_0000_0000
    ensures BASE_RETRY_DELAY * Pow2(MAX_SHIFT) < 0x8000_0000_0000_0000
    ensures 30 * SECOND <= Backoff(attempts) <= 5 * MINUTE
  {
    var n := attempts - 1;
    Pow2Sixteen();
    PowerFits(Pow2(MAX_SHIFT));
    if n <= MAX_SHIFT {
      Pow2Grows(n, MAX_SHIFT);
      PowerFits(Pow2(n));
      DelayInRange(Pow2(n));
    } else {
      Pow2Grows(MAX_SHIFT, n);
      PowerIsCapped(Pow2(MAX_SHIFT));
      PowerIsCapped(Pow2(n));
    }
  }

  // ---- One member ----

  function FailureAfter(prev: Option<Failure>, step: ApplyStep, error: ErrorTree, now: Time): Failure {
    if Permanent(error) then Failure(step, true, 0, 0)
    else
      var attempts := 1 + if prev.Some? then prev.value.attempts else 0;
      Failure(step, false, attempts, now + Backoff(attempts))
  }

  /** What the ledger remembers of a member after one more result, nothing when `None`. */
  function EntryAfter(e: Option<Entry>, kind: ResultKind, now: Time): Option<Entry> {
    var was := if e.Some? then e.value else NEW_ENTRY;
    match kind
    case Skipped => e
    case Failed(step, error) => Some(was.(failure := Some(FailureAfter(was.failure, step, error, now))))
    case Done(pods) => Some(Entry(pods, true, None))
    case Idle => None
    case Uncounted => if was.measured then Some(was.(failure := None)) else None
  }

  /** The Warning a failure calls for. */
  function EventAfter(e: Option<Entry>, kind: ResultKind, now: Time): Option<Event> {
    if !kind.Failed? then None
    else
      var prev := if e.Some? then e.value.failure else None;
      var f := FailureAfter(prev, kind.step, kind.error, now);
      if !f.permanent then Some(RetryScheduled(f.attempts, f.due))
      else if prev.Some? && prev.value.permanent then None
      else Some(FailedPermanently)
  }

  /** A member's results, oldest first, and when each was settled. */
  type History = seq<(ResultKind, Time)>

  function Remembered(h: History): Option<Entry> {
    if h == [] then None else EntryAfter(Remembered(h[..|h| - 1]), h[|h| - 1].0, h[|h| - 1].1)
  }

  /** The places of the transient failures with nothing but transient failures and skips after them. */
  ghost function RecentTransients(h: History): set<nat> {
    set i | 0 <= i < |h| && TransientFailure(h[i].0) &&
            forall j :: i <= j < |h| ==> h[j].0.Skipped? || TransientFailure(h[j].0)
  }

  /** The last result that was not a skip, -1 when there is none. */
  function LastCounting(h: History): (i: int)
    ensures -1 <= i < |h|
    ensures i >= 0 ==> !h[i].0.Skipped?
    ensures forall j :: i < j < |h| ==> h[j].0.Skipped?
  {
    if h == [] then -1
    else if h[|h| - 1].0.Skipped? then LastCounting(h[..|h| - 1])
    else |h| - 1
  }

  /** The last result that says something about the pods, done or nothing to apply, -1 when there is none. */
  function LastMeasuring(h: History): (i: int)
    ensures -1 <= i < |h|
    ensures i >= 0 ==> h[i].0.Done? || h[i].0.Idle?
    ensures forall j :: i < j < |h| ==> !h[j].0.Done? && !h[j].0.Idle?
  {
    if h == [] then -1
    else if h[|h| - 1].0.Done? || h[|h| - 1].0.Idle? then |h| - 1
    else LastMeasuring(h[..|h| - 1])
  }

  /** The failure a history leaves, read off the results themselves. */
  ghost function DescribedFailure(h: History): Option<Failure> {
    var i := LastCounting(h);
    if i < 0 || !h[i].0.Failed? then None
    else if Permanent(h[i].0.error) then Some(Failure(h[i].0.step, true, 0, 0))
    else
      var n := |RecentTransients(h)|;
      Some(Failure(h[i].0.step, false, n, h[i].1 + if n >= 1 then Backoff(n) else 0))
  }

  function FailureOf(e: Option<Entry>): Option<Failure> {
    if e.Some? then e.value.failure else None
  }

  lemma TransientsStep(h: History)
    requires h != []
    ensures var k, before := h[|h| - 1].0, RecentTransients(h[..|h| - 1]);
            RecentTransients(h) ==
              if k.Skipped? then before
              else if TransientFailure(k) then before + {|h| - 1}
              else {}
  {
    var g := h[..|h| - 1];
    var n := |g|;
    forall i ensures i in RecentTransients(h) <==>
                       i in (if h[n].0.Skipped? then RecentTransients(g)
                             else if TransientFailure(h[n].0) then RecentTransients(g) + {n} else {})
    {
      if i in RecentTransients(h) && i < n {
        assert h[n].0.Skipped? || TransientFailure(h[n].0);
        forall j | i <= j < |g| ensures g[j].0.Skipped? || TransientFailure(g[j].0) {
          assert g[j] == h[j];
        }
      }
    }
  }

  lemma NoTransientsAfter(h: History)
    requires LastCounting(h) >= 0 ==> !TransientFailure(h[LastCounting(h)].0)
    ensures RecentTransients(h) == {}
  {
    var c := LastCounting(h);
    if c >= 0 {
      assert !(h[c].0.Skipped? || TransientFailure(h[c].0));
    }
    forall i | 0 <= i < |h| ensures i !in RecentTransients(h) {
    }
  }

  /**
   * A member's failure is a function of its results: which step the last counting one failed on, how many transient
   * failures in a row there were, and when the last of them may be retried.
   */
  lemma FailureIsHistory(h: History, i: int)
    requires -1 <= i < |h| && (i >= 0 ==> !h[i].0.Skipped?) && forall j :: i < j < |h| ==> h[j].0.Skipped?
    ensures var f := FailureOf(Remembered(h));
            && (f.Some? <==> i >= 0 && h[i].0.Failed?)
            && (f.Some? ==> f.value.step == h[i].0.step && (f.value.permanent <==> Permanent(h[i].0.error)))
            && (f.Some? && !f.value.permanent ==>
                  && f.value.attempts == |RecentTransients(h)| >= 1
                  && f.value.due == h[i].1 + Backoff(f.value.attempts))
    ensures forall k :: k in RecentTransients(h) <==>
                          0 <= k < |h| && h[k].0.Failed? && !Permanent(h[k].0.error) &&
                          forall j :: k <= j < |h| ==> h[j].0.Skipped? || (h[j].0.Failed? && !Permanent(h[j].0.error))
  {
    RemembersFailure(h);
    assert LastCounting(h) == i;
    if i >= 0 && TransientFailure(h[i].0) {
      assert i in RecentTransients(h);
    }
  }

  lemma {:induction false} RemembersFailure(h: History)
    ensures FailureOf(Remembered(h)) == DescribedFailure(h)
  {
    if h != [] {
      var g, n := h[..|h| - 1], |h| - 1;
      var k := h[n].0;
      RemembersFailure(g);
      TransientsStep(h);
      if k.Skipped? {
        SkipKeepsDescription(h);
      } else if TransientFailure(k) {
        TransientExtends(h);
      }
    }
  }

  /** A transient failure last is described by the run it ends. */
  lemma TransientDescribed(h: History)
    requires h != [] && TransientFailure(h[|h| - 1].0)
    ensures var n := |RecentTransients(h[..|h| - 1])| + 1;
            DescribedFailure(h) == Some(Failure(h[|h| - 1].0.step, false, n, h[|h| - 1].1 + Backoff(n)))
  {
    var g, n := h[..|h| - 1], |h| - 1;
    TransientsStep(h);
    assert n !in RecentTransients(g);
    assert |RecentTransients(h)| == |RecentTransients(g)| + 1;
  }

  lemma TransientExtends(h: History)
    requires h != [] && TransientFailure(h[|h| - 1].0)
    requires FailureOf(Remembered(h[..|h| - 1])) == DescribedFailure(h[..|h| - 1])
    ensures FailureOf(Remembered(h)) == DescribedFailure(h)
  {
    var g, n := h[..|h| - 1], |h| - 1;
    AttemptsBefore(g);
    TransientDescribed(h);
    TransientEntry(Remembered(g), h[n].0, h[n].1, |RecentTransients(g)|);
  }

  lemma TransientEntry(e: Option<Entry>, kind: ResultKind, now: Time, n: nat)
    requires TransientFailure(kind) && (if FailureOf(e).Some? then FailureOf(e).value.attempts else 0) == n
    ensures FailureOf(EntryAfter(e, kind, now)) == Some(Failure(kind.step, false, n + 1, now + Backoff(n + 1)))
  {
  }

  lemma SkipKeepsDescription(h: History)
    requires h != [] && h[|h| - 1].0.Skipped?
    ensures DescribedFailure(h) == DescribedFailure(h[..|h| - 1])
  {
    TransientsStep(h);
  }

  /** The attempts carried into a new transient failure are the run of transient failures before it. */
  lemma AttemptsBefore(h: History)
    ensures var f := DescribedFailure(h);
            (if f.Some? then f.value.attempts else 0) == |RecentTransients(h)|
  {
    var i := LastCounting(h);
    if i < 0 || !TransientFailure(h[i].0) {
      NoTransientsAfter(h);
    }
  }

  /** The pod counts remembered are those of the last pass that measured them, none once there was nothing to apply. */
  lemma {:induction false} PodsAreHistory(h: History, i: int)
    requires -1 <= i < |h| && (i >= 0 ==> h[i].0.Done? || h[i].0.Idle?)
    requires forall j :: i < j < |h| ==> !h[j].0.Done? && !h[j].0.Idle?
    ensures var e := Remembered(h);
            && (e.Some? && e.value.measured <==> i >= 0 && h[i].0.Done?)
            && (e.Some? && e.value.measured ==> e.value.pods == h[i].0.pods)
  {
    if h != [] && i < |h| - 1 {
      PodsAreHistory(h[..|h| - 1], i);
    }
  }

  /** Something is remembered exactly while there are counts or a failure to remember. */
  lemma {:induction false} RememberedExactly(h: History)
    ensures Remembered(h).Some? <==>
              || (exists i :: 0 <= i < |h| && h[i].0.Done? && forall j :: i < j < |h| ==> !h[j].0.Done? && !h[j].0.Idle?)
              || (exists i :: 0 <= i < |h| && h[i].0.Failed? && forall j :: i < j < |h| ==> h[j].0.Skipped?)
  {
    RemembersSomething(h);
    PodsAreHistory(h, LastMeasuring(h));
    FailureIsHistory(h, LastCounting(h));
  }

  lemma {:induction false} RemembersSomething(h: History)
    ensures var e := Remembered(h); e.Some? ==> e.value.measured || e.value.failure.Some?
  {
    if h != [] {
      RemembersSomething(h[..|h| - 1]);
    }
  }

  /** A permanent Warning is emitted exactly on entry into permanent failure, a retry's on every transient failure. */
  lemma EventsAreTransitions(h: History, i: int, kind: ResultKind, now: Time)
    requires -1 <= i < |h| && (i >= 0 ==> !h[i].0.Skipped?) && forall j :: i < j < |h| ==> h[j].0.Skipped?
    ensures var ev := EventAfter(Remembered(h), kind, now);
            && (ev == Some(FailedPermanently) <==>
                  && kind.Failed? && Permanent(kind.error)
                  && !(i >= 0 && h[i].0.Failed? && Permanent(h[i].0.error)))
            && (kind.Failed? && !Permanent(kind.error) <==> ev.Some? && ev.value.RetryScheduled?)
            && (ev.Some? && ev.value.RetryScheduled? ==>
                  && ev.value.attempt == |RecentTransients(h)| + 1
                  && ev.value.at == now + Backoff(|RecentTransients(h)| + 1))
  {
    RemembersFailure(h);
    AttemptsBefore(h);
    assert LastCounting(h) == i;
  }

  // ---- Claims ----

  type Claims = map<Identity, seq<MemberKey>>

  predicate ClaimedIn(c: Claims, m: MemberKey) {
    exists id :: id in c && m in c[id]
  }

  predicate Claimed(claims: map<string, Claims>, m: MemberKey) {
    exists p :: p in claims && ClaimedIn(claims[p], m)
  }

  predicate ClaimsFor(c: Claims, id: Identity, m: MemberKey) {
    id in c && m in c[id]
  }

  predicate ClaimedFor(claims: map<string, Claims>, id: Identity, m: MemberKey) {
    exists p :: p in claims && ClaimsFor(claims[p], id, m)
  }

  function EntryOf(members: map<MemberKey, Entry>, m: MemberKey): Option<Entry> {
    if m in members then Some(members[m]) else None
  }

  function HistoryOf(histories: map<MemberKey, History>, m: MemberKey): History {
    if m in histories then histories[m] else []
  }

  /** Every member's entry is what its results since it was last unclaimed leave. */
  ghost predicate Synced(members: map<MemberKey, Entry>, histories: map<MemberKey, History>) {
    forall m :: EntryOf(members, m) == Remembered(HistoryOf(histories, m))
  }

  // ---- Health ----

  datatype Health = Health(pods: PodCounts, measured: bool, blockedOn: Option<ApplyStep>, attempts: nat)

  function Measured(members: map<MemberKey, Entry>, m: MemberKey): PodCounts {
    if m in members && members[m].measured then members[m].pods else PodCounts(0, 0)
  }

  function Totals(members: map<MemberKey, Entry>): MemberKey -> int {
    m => Measured(members, m).total
  }

  function Stales(members: map<MemberKey, Entry>): MemberKey -> int {
    m => Measured(members, m).stale
  }

  predicate Blocked(members: map<MemberKey, Entry>, m: MemberKey) {
    m in members && members[m].failure.Some?
  }

  function KeyOf(m: MemberKey): seq<string> {
    [m.kind, m.namespace, m.name]
  }

  /** The step the Blocked member first in key order failed on, if any of `ms` is Blocked. */
  ghost predicate BlockedStepOf(members: map<MemberKey, Entry>, ms: set<MemberKey>, step: Option<ApplyStep>) {
    && (step.None? <==> forall m :: m in ms ==> !Blocked(members, m))
    && (step.Some? ==> exists m :: m in ms && Blocked(members, m) && step == Some(members[m].failure.value.step) &&
                                   forall n :: n in ms && Blocked(members, n) && n != m ==> KeyLess(KeyOf(m), KeyOf(n)))
  }

  /** The health of an identity whose claimed members are `ms`. */
  ghost predicate HealthDescribed(members: map<MemberKey, Entry>, ms: set<MemberKey>, h: Health) {
    && h.pods.total == SumOf(Totals(members), ms) && h.pods.stale == SumOf(Stales(members), ms)
    && (h.measured <==> exists m :: m in ms && m in members && members[m].measured)
    && BlockedStepOf(members, ms, h.blockedOn)
  }

  lemma StepIsDetermined(members: map<MemberKey, Entry>, ms: set<MemberKey>, s: Option<ApplyStep>, t: Option<ApplyStep>)
    requires BlockedStepOf(members, ms, s) && BlockedStepOf(members, ms, t)
    ensures s == t
  {
    if s.Some? && t.Some? {
      var m :| m in ms && Blocked(members, m) && s == Some(members[m].failure.value.step) &&
               forall n :: n in ms && Blocked(members, n) && n != m ==> KeyLess(KeyOf(m), KeyOf(n));
      var n :| n in ms && Blocked(members, n) && t == Some(members[n].failure.value.step) &&
               forall k :: k in ms && Blocked(members, k) && k != n ==> KeyLess(KeyOf(n), KeyOf(k));
      KeyLessTotal(KeyOf(m), KeyOf(n));
    }
  }

  /** The description leaves one health, whatever order the members were visited in. */
  lemma HealthIsDetermined(members: map<MemberKey, Entry>, ms: set<MemberKey>, h: Health, g: Health)
    requires HealthDescribed(members, ms, h) && HealthDescribed(members, ms, g) && h.attempts == g.attempts
    ensures h == g
  {
    StepIsDetermined(members, ms, h.blockedOn, g.blockedOn);
  }

  /** What one more claimed member adds to the counts: its own, where it was measured. */
  lemma CountsAdd(members: map<MemberKey, Entry>, ms: set<MemberKey>, m: MemberKey, h: Health, h': Health)
    requires m !in ms && HealthDescribed(members, ms, h) && HealthDescribed(members, ms + {m}, h')
    ensures var counted := m in members && members[m].measured;
            && h'.pods.total == h.pods.total + (if counted then members[m].pods.total else 0)
            && h'.pods.stale == h.pods.stale + (if counted then members[m].pods.stale else 0)
            && (h'.measured <==> h.measured || counted)
  {
    SumOfAdd(Totals(members), ms, m);
    SumOfAdd(Stales(members), ms, m);
  }

  /** Of two members the one with a failure names the step, and of two with one the first in key order. */
  lemma StepAdds(members: map<MemberKey, Entry>, ms: set<MemberKey>, m: MemberKey, h: Health, h': Health)
    requires m !in ms && HealthDescribed(members, ms, h) && HealthDescribed(members, ms + {m}, h')
    ensures var failed := m in members && members[m].failure.Some?;
            && (!failed ==> h'.blockedOn == h.blockedOn)
            && (failed && (forall n :: n in ms && n in members && members[n].failure.Some? ==> KeyLess(KeyOf(m), KeyOf(n))) ==>
                  h'.blockedOn == Some(members[m].failure.value.step))
  {
    if !Blocked(members, m) {
      if h.blockedOn.Some? {
        var n :| n in ms && Blocked(members, n) && h.blockedOn == Some(members[n].failure.value.step) &&
                 forall k :: k in ms && Blocked(members, k) && k != n ==> KeyLess(KeyOf(n), KeyOf(k));
        assert n in ms + {m};
      }
      assert BlockedStepOf(members, ms + {m}, h.blockedOn);
      StepIsDetermined(members, ms + {m}, h.blockedOn, h'.blockedOn);
    } else if forall n :: n in ms && Blocked(members, n) ==> KeyLess(KeyOf(m), KeyOf(n)) {
      assert m in ms + {m};
      assert BlockedStepOf(members, ms + {m}, Some(members[m].failure.value.step));
      StepIsDetermined(members, ms + {m}, Some(members[m].failure.value.step), h'.blockedOn);
    }
  }

  /** An identity no member reports into. */
  lemma HealthOfNone(members: map<MemberKey, Entry>, h: Health)
    requires HealthDescribed(members, {}, h)
    ensures h.pods == PodCounts(0, 0) && !h.measured && h.blockedOn.None?
  {
  }

  lemma KeysIdentify(xs: seq<MemberKey>)
    ensures KeyIdentifies(multiset(xs), KeyOf)
  {
    forall a, b | KeyOf(a) == KeyOf(b) ensures a == b {
      assert KeyOf(a)[0] == KeyOf(b)[0] && KeyOf(a)[1] == KeyOf(b)[1] && KeyOf(a)[2] == KeyOf(b)[2];
    }
  }

  ghost predicate Ascending(xs: seq<MemberKey>) {
    forall i, j :: 0 <= i < j < |xs| ==> KeyLess(KeyOf(xs[i]), KeyOf(xs[j]))
  }

  lemma SortedKeysAscend(xs: seq<MemberKey>)
    requires Sorted(xs, KeyOf) && NoDuplicates(xs)
    ensures Ascending(xs)
  {
    forall i, j | 0 <= i < j < |xs| ensures KeyLess(KeyOf(xs[i]), KeyOf(xs[j])) {
      KeyLessTotal(KeyOf(xs[i]), KeyOf(xs[j]));
      KeysIdentify(xs);
      assert xs[i] in multiset(xs) && xs[j] in multiset(xs);
    }
  }

  // ---- A pass ----

  /** The results a pass hands over, under the identity each member reports into. */
  type Pass = map<Identity, seq<Result>>

  datatype Verdict = Verdict(identities: map<Identity, Health>, events: map<MemberKey, Event>)

  function Keys(results: seq<Result>): seq<MemberKey> {
    seq(|results|, i requires 0 <= i < |results| => results[i].member)
  }

  function ClaimsOf(pass: Pass): Claims {
    map id | id in pass :: Keys(pass[id])
  }

  function FailedCount(results: seq<Result>): nat {
    if results == [] then 0
    else FailedCount(results[..|results| - 1]) + if results[|results| - 1].kind.Failed? then 1 else 0
  }

  lemma TallyNext(results: seq<Result>, i: nat)
    requires i < |results|
    ensures Keys(results[..i + 1]) == Keys(results[..i]) + [results[i].member]
    ensures FailedCount(results[..i + 1]) == FailedCount(results[..i]) + if results[i].kind.Failed? then 1 else 0
  {
    assert results[..i + 1][..i] == results[..i];
  }

  /** A result and the clock reading it is recorded at. */
  datatype Timed = Timed(result: Result, at: Time)

  /** One identity's results in their order, `at(id, i)` being the clock when the `i`-th is recorded. */
  function TimedOf(results: seq<Result>, id: Identity, at: (Identity, nat) -> Time): seq<Timed> {
    seq(|results|, i requires 0 <= i < |results| => Timed(results[i], at(id, i)))
  }

  /** A pass's results, identity by identity in the order of `ids`. */
  function InOrder(pass: Pass, ids: seq<Identity>, at: (Identity, nat) -> Time): seq<Timed>
    requires forall id :: id in ids ==> id in pass
  {
    if ids == [] then []
    else
      var id := ids[|ids| - 1];
      InOrder(pass, ids[..|ids| - 1], at) + TimedOf(pass[id], id, at)
  }

  /** What `order` adds to a member's history. */
  function Of(order: seq<Timed>, m: MemberKey): History {
    if order == [] then []
    else
      var t := order[|order| - 1];
      Of(order[..|order| - 1], m) + if t.result.member == m then [(t.result.kind, t.at)] else []
  }

  /** The last Warning that `more`, recorded after `h`, calls for. */
  function LastEvent(h: History, more: History): Option<Event> {
    if more == [] then None
    else
      var n := |more| - 1;
      var ev := EventAfter(Remembered(h + more[..n]), more[n].0, more[n].1);
      if ev.Some? then ev else LastEvent(h, more[..n])
  }

  function EventFor(events: map<MemberKey, Event>, m: MemberKey): Option<Event> {
    if m in events then Some(events[m]) else None
  }

  lemma {:induction false} OfAppend(a: seq<Timed>, b: seq<Timed>, m: MemberKey)
    ensures Of(a + b, m) == Of(a, m) + Of(b, m)
  {
    if b == [] {
      assert a + b == a;
    } else {
      OfAppend(a, b[..|b| - 1], m);
      assert (a + b)[..|a + b| - 1] == a + b[..|b| - 1];
    }
  }

  /** A member's history takes something of `order` only where it is reported there. */
  lemma {:induction false} OfSome(order: seq<Timed>, m: MemberKey)
    ensures Of(order, m) != [] ==> exists k :: 0 <= k < |order| && order[k].result.member == m
  {
    if order != [] {
      OfSome(order[..|order| - 1], m);
    }
  }

  /** Every result of the pass taken in order is one of an identity's. */
  lemma {:induction false} InOrderFrom(pass: Pass, ids: seq<Identity>, at: (Identity, nat) -> Time, k: nat)
    returns (id: Identity, i: nat)
    requires forall id :: id in ids ==> id in pass
    requires k < |InOrder(pass, ids, at)|
    ensures id in ids && i < |pass[id]| && InOrder(pass, ids, at)[k] == Timed(pass[id][i], at(id, i))
  {
    var before, last := InOrder(pass, ids[..|ids| - 1], at), ids[|ids| - 1];
    if k < |before| {
      id, i := InOrderFrom(pass, ids[..|ids| - 1], at, k);
    } else {
      id, i := last, k - |before|;
    }
  }

  lemma ReportedIn(pass: Pass, ids: seq<Identity>, at: (Identity, nat) -> Time, m: MemberKey) returns (id: Identity, i: nat)
    requires forall id :: id in ids ==> id in pass
    requires Of(InOrder(pass, ids, at), m) != []
    ensures id in ids && i < |pass[id]| && pass[id][i].member == m
  {
    OfSome(InOrder(pass, ids, at), m);
    var k :| 0 <= k < |InOrder(pass, ids, at)| && InOrder(pass, ids, at)[k].result.member == m;
    id, i := InOrderFrom(pass, ids, at, k);
  }

  lemma {:induction false} OfIdentity(results: seq<Result>, id: Identity, at: (Identity, nat) -> Time, i: nat, n: nat)
    requires i < |results| && n <= |results|
    requires forall j :: 0 <= j < |results| && results[j].member == results[i].member ==> j == i
    ensures Of(TimedOf(results, id, at)[..n], results[i].member) == if i < n then [(results[i].kind, at(id, i))] else []
  {
    if n > 0 {
      OfIdentity(results, id, at, i, n - 1);
      assert TimedOf(results, id, at)[..n][..n - 1] == TimedOf(results, id, at)[..n - 1];
    }
  }

  /** The member of the `i`-th result under `id` is reported nowhere else in the pass. */
  ghost predicate ReportedOnce(pass: Pass, id: Identity, i: nat) {
    && id in pass && i < |pass[id]|
    && forall jd, j :: jd in pass && 0 <= j < |pass[jd]| && pass[jd][j].member == pass[id][i].member ==> jd == id && j == i
  }

  lemma OfOwn(pass: Pass, at: (Identity, nat) -> Time, id: Identity, i: nat)
    requires ReportedOnce(pass, id, i)
    ensures Of(TimedOf(pass[id], id, at), pass[id][i].member) == [(pass[id][i].kind, at(id, i))]
  {
    OfIdentity(pass[id], id, at, i, |pass[id]|);
    assert TimedOf(pass[id], id, at)[..|pass[id]|] == TimedOf(pass[id], id, at);
  }

  lemma OfAnother(pass: Pass, at: (Identity, nat) -> Time, id: Identity, i: nat, jd: Identity)
    requires ReportedOnce(pass, id, i) && jd in pass && jd != id
    ensures Of(TimedOf(pass[jd], jd, at), pass[id][i].member) == []
  {
    OfSome(TimedOf(pass[jd], jd, at), pass[id][i].member);
  }

  lemma OfLast(pass: Pass, ids: seq<Identity>, at: (Identity, nat) -> Time, m: MemberKey)
    requires ids != [] && forall id :: id in ids ==> id in pass
    ensures var last := ids[|ids| - 1];
            Of(InOrder(pass, ids, at), m) == Of(InOrder(pass, ids[..|ids| - 1], at), m) + Of(TimedOf(pass[last], last, at), m)
  {
    var last := ids[|ids| - 1];
    OfAppend(InOrder(pass, ids[..|ids| - 1], at), TimedOf(pass[last], last, at), m);
  }

  /**
   * A member reported once is given that one result at its own clock reading, in whichever order the identities are
   * taken, so with one result each the pass does not depend on the order.
   */
  lemma {:induction false} OneResultEach(pass: Pass, ids: seq<Identity>, at: (Identity, nat) -> Time, id: Identity, i: nat)
    requires NoDuplicates(ids) && (forall jd :: jd in ids ==> jd in pass) && id in ids && ReportedOnce(pass, id, i)
    ensures Of(InOrder(pass, ids, at), pass[id][i].member) == [(pass[id][i].kind, at(id, i))]
  {
    var n := |ids| - 1;
    OfLast(pass, ids, at, pass[id][i].member);
    if ids[n] == id {
      NothingBefore(pass, ids[..n], at, id, i);
      OfOwn(pass, at, id, i);
    } else {
      OneResultEach(pass, ids[..n], at, id, i);
      OfAnother(pass, at, id, i, ids[n]);
    }
  }

  lemma NothingBefore(pass: Pass, ids: seq<Identity>, at: (Identity, nat) -> Time, id: Identity, i: nat)
    requires (forall jd :: jd in ids ==> jd in pass) && id !in ids && ReportedOnce(pass, id, i)
    ensures Of(InOrder(pass, ids, at), pass[id][i].member) == []
  {
    if Of(InOrder(pass, ids, at), pass[id][i].member) != [] {
      var jd, j := ReportedIn(pass, ids, at, pass[id][i].member);
    }
  }

  ghost function ClaimedMembers(claims: map<string, Claims>, id: Identity): set<MemberKey> {
    set p, m | p in claims && id in claims[p] && m in claims[p][id] :: m
  }

  /** The members that may run again before the Policy's next interval, and when. */
  predicate Retrying(members: map<MemberKey, Entry>, claims: map<string, Claims>, policy: string, m: MemberKey) {
    && policy in claims && ClaimedIn(claims[policy], m)
    && m in members && members[m].failure.Some? && !members[m].failure.value.permanent
  }

  function DueOf(members: map<MemberKey, Entry>, m: MemberKey): Time
    requires m in members && members[m].failure.Some?
  {
    members[m].failure.value.due
  }

  lemma RememberedNext(h: History, kind: ResultKind, now: Time)
    ensures Remembered(h + [(kind, now)]) == EntryAfter(Remembered(h), kind, now)
  {
    assert (h + [(kind, now)])[..|h|] == h;
  }

  // ---- The ledger ----

  /** Entries agree with the results behind them, and nothing is remembered of a member no Policy claims. */
  ghost predicate Consistent(members: map<MemberKey, Entry>, claims: map<string, Claims>,
                             histories: map<MemberKey, History>) {
    && Synced(members, histories)
    && (forall m :: m in members ==> Claimed(claims, m))
    && (forall m :: m in histories ==> Claimed(claims, m))
  }

  class Ledger {
    var members: map<MemberKey, Entry>
    var claims: map<string, Claims>
    /** Every claimed member's results since it was last unclaimed. */
    ghost var histories: map<MemberKey, History>

    ghost predicate Valid()
      reads this
    {
      Consistent(members, claims, histories)
    }

    constructor ()
      ensures Valid() && members == map[] && claims == map[] && histories == map[]
    {
      members, claims, histories := map[], map[], map[];
    }

    /** A member waits only while its last counting result was a transient failure whose backoff has not passed. */
    method MayRun(member: MemberKey, now: Time) returns (may: bool)
      requires Valid()
      ensures var h := HistoryOf(histories, member);
              !may <==> exists i :: 0 <= i < |h| && h[i].0.Failed? && !Permanent(h[i].0.error) &&
                                    (forall j :: i < j < |h| ==> h[j].0.Skipped?) &&
                                    |RecentTransients(h)| >= 1 && now < h[i].1 + Backoff(|RecentTransients(h)|)
    {
      FailureIsHistory(HistoryOf(histories, member), LastCounting(HistoryOf(histories, member)));
      assert EntryOf(members, member) == Remembered(HistoryOf(histories, member));
      if member !in members {
        return true;
      }
      var e := members[member];
      may := e.failure.None? || e.failure.value.permanent || !(now < e.failure.value.due);
    }

    method FailLocked(member: MemberKey, step: ApplyStep, error: ErrorTree, now: Time) returns (ev: Option<Event>)
      modifies this`members
      ensures forall m :: EntryOf(members, m) ==
                            if m == member then EntryAfter(EntryOf(old(members), m), Failed(step, error), now)
                            else EntryOf(old(members), m)
      ensures ev == EventAfter(EntryOf(old(members), member), Failed(step, error), now)
    {
      var e := if member in members then members[member] else NEW_ENTRY;
      var prev := e.failure;
      if Permanent(error) {
        members := members[member := e.(failure := Some(Failure(step, true, 0, 0)))];
        if prev.Some? && prev.value.permanent {
          return None;
        }
        return Some(FailedPermanently);
      }
      var attempts := 1;
      if prev.Some? {
        attempts := attempts + prev.value.attempts;
      }
      var due := now + Backoff(attempts);
      members := members[member := e.(failure := Some(Failure(step, false, attempts, due)))];
      ev := Some(RetryScheduled(attempts, due));
    }

    method RecordLocked(res: Result, now: Time) returns (ev: Option<Event>, failed: bool)
      requires Synced(members, histories)
      modifies this`members, this`histories
      ensures Synced(members, histories)
      ensures forall m :: EntryOf(members, m) ==
                            if m == res.member then EntryAfter(EntryOf(old(members), m), res.kind, now)
                            else EntryOf(old(members), m)
      ensures histories == old(histories)[res.member := HistoryOf(old(histories), res.member) + [(res.kind, now)]]
      ensures failed <==> res.kind.Failed?
      ensures ev == EventAfter(EntryOf(old(members), res.member), res.kind, now)
    {
      ghost var h := HistoryOf(histories, res.member);
      assert EntryOf(members, res.member) == Remembered(h);
      RememberedNext(h, res.kind, now);
      histories := histories[res.member := h + [(res.kind, now)]];
      ev, failed := None, false;
      if res.kind.Failed? {
        ev := FailLocked(res.member, res.kind.step, res.kind.error, now);
        failed := true;
      } else if !res.kind.Skipped? {
        var e := if res.member in members then members[res.member] else NEW_ENTRY;
        e := e.(failure := None);
        if res.kind.Done? {
          e := e.(pods := res.kind.pods, measured := true);
        } else if res.kind.Idle? {
          e := e.(measured := false);
        }
        members := members[res.member := e];
        if !e.measured {
          members := members - {res.member};
        }
      }
      assert EntryOf(members, res.member) == EntryAfter(EntryOf(old(members), res.member), res.kind, now);
      forall m | m != res.member ensures EntryOf(members, m) == Remembered(HistoryOf(histories, m)) {
        assert EntryOf(old(members), m) == Remembered(HistoryOf(old(histories), m));
      }
    }

    /** Every member some Policy claims. */
    method ClaimedSet() returns (claimed: set<MemberKey>)
      ensures forall m :: m in claimed <==> exists p, id :: p in claims && id in claims[p] && m in claims[p][id]
    {
      claimed := {};
      var policies := claims.Keys;
      while policies != {}
        invariant policies <= claims.Keys
        invariant forall m :: m in claimed <==> exists p :: p in claims && p !in policies && ClaimedIn(claims[p], m)
      {
        var p :| p in policies;
        ghost var before := claimed;
        var ids := claims[p].Keys;
        while ids != {}
          invariant ids <= claims[p].Keys
          invariant forall m :: m in claimed <==> m in before || exists id :: id in claims[p] && id !in ids && m in claims[p][id]
        {
          var id :| id in ids;
          claimed := claimed + set m | m in claims[p][id];
          ids := ids - {id};
        }
        policies := policies - {p};
      }
    }

    /** Drops from the memory what `prev` holds and `claimed` does not. */
    method DropUnclaimed(prev: Claims, claimed: set<MemberKey>)
      modifies this`members
      ensures Dropped(old(members), prev, claimed, members)
    {
      var ids := prev.Keys;
      while ids != {}
        invariant ids <= prev.Keys
        invariant forall m :: EntryOf(members, m) ==
                                if m !in claimed && (exists id :: id in prev && id !in ids && m in prev[id]) then None
                                else EntryOf(old(members), m)
      {
        var id :| id in ids;
        ghost var before := members;
        for i := 0 to |prev[id]|
          invariant forall m :: EntryOf(members, m) == if m !in claimed && m in prev[id][..i] then None else EntryOf(before, m)
        {
          if prev[id][i] !in claimed {
            members := members - {prev[id][i]};
          }
        }
        ids := ids - {id};
      }
    }

    /** `ClaimsAfter`, then `Restricted` to what that still reaches. */
    method ClaimLocked(policy: string, next: Option<Claims>)
      requires Synced(members, histories)
      requires Claimable(members, claims, next)
      modifies this
      ensures Valid()
      ensures claims == ClaimsAfter(old(claims), policy, next)
      ensures Restricted(old(members), old(histories), claims, members, histories)
    {
      ghost var members0, claims0 := members, claims;
      var prev := if policy in claims then claims[policy] else map[];
      if next.None? {
        claims := claims - {policy};
      } else {
        claims := claims[policy := next.value];
      }
      var claimed := ClaimedSet();
      DropUnclaimed(prev, claimed);
      DroppingRestricts(members0, histories, claims0, policy, next, claimed, members);
      histories := KeepClaimed(histories, claimed);
    }

    /** Drops what the Policy claims, as when it is deleted. */
    method Forget(policy: string)
      requires Valid()
      modifies this
      ensures Valid()
      ensures claims == old(claims) - {policy}
      ensures Restricted(old(members), old(histories), claims, members, histories)
    {
      ClaimLocked(policy, None);
    }

    /** `ClaimedMembers` as a sorted sequence. */
    method ClaimedLocked(id: Identity) returns (out: seq<MemberKey>)
      ensures forall m :: m in out <==> exists p :: p in claims && id in claims[p] && m in claims[p][id]
      ensures NoDuplicates(out) && Ascending(out)
    {
      out := [];
      var policies := claims.Keys;
      while policies != {}
        invariant policies <= claims.Keys
        invariant NoDuplicates(out)
        invariant forall m :: m in out <==> exists p :: p in claims && p !in policies && ClaimsFor(claims[p], id, m)
      {
        var p :| p in policies;
        var ids := claims[p];
        ghost var before := out;
        if id in ids {
          for i := 0 to |ids[id]|
            invariant NoDuplicates(out)
            invariant forall m :: m in out <==> m in before || m in ids[id][..i]
          {
            if ids[id][i] !in out {
              out := out + [ids[id][i]];
            }
          }
        }
        policies := policies - {p};
      }
      SortsTo(out);
      out := Sort(out, KeyOf);
    }

    method VisitLocked(m: MemberKey, before: Health) returns (h: Health)
      ensures Visited(members, m, before, h)
    {
      h := before;
      if m in members {
        var e := members[m];
        if e.measured {
          h := h.(pods := PodCounts(h.pods.total + e.pods.total, h.pods.stale + e.pods.stale), measured := true);
        }
        if h.blockedOn.None? && e.failure.Some? {
          h := h.(blockedOn := Some(e.failure.value.step));
        }
      }
    }

    method HealthOver(out: seq<MemberKey>) returns (h: Health)
      requires NoDuplicates(out)
      ensures HealthSoFar(members, out, h) && h.attempts == 0
    {
      h := Health(PodCounts(0, 0), false, None, 0);
      for i := 0 to |out|
        invariant HealthSoFar(members, out[..i], h) && h.attempts == 0
      {
        ghost var before := h;
        h := VisitLocked(out[i], h);
        HealthStep(members, out, i, before, h);
      }
      assert out[..|out|] == out;
    }

    /** The health of an identity, its failed attempts aside. */
    method HealthLocked(id: Identity) returns (h: Health)
      ensures HealthDescribed(members, ClaimedMembers(claims, id), h) && h.attempts == 0
    {
      var out := ClaimedLocked(id);
      h := HealthOver(out);
      HealthComplete(members, out, ClaimedMembers(claims, id), h);
    }

    method RecordNext(results: seq<Result>, id: Identity, i: nat, at: (Identity, nat) -> Time, events0: map<MemberKey,
                      Event>,
                      ghost histories0: map<MemberKey, History>, ghost done: seq<Timed>)
      returns (events: map<MemberKey, Event>, failed: bool)
      requires i < |results| && Settled(histories0, done + TimedOf(results, id, at)[..i], members, histories, events0)
      modifies this`members, this`histories
      ensures Settled(histories0, done + TimedOf(results, id, at)[..i + 1], members, histories, events)
      ensures failed <==> results[i].kind.Failed?
    {
      var res := results[i];
      ghost var members1, histories1 := members, histories;
      var ev;
      ev, failed := RecordLocked(res, at(id, i));
      events := if ev.Some? then events0[res.member := ev.value] else events0;
      ghost var order := done + TimedOf(results, id, at)[..i];
      SettledStep(histories0, order, Timed(res, at(id, i)), members1, histories1, events0, members, histories, ev);
      TimedNext(done, results, id, at, i);
    }

    /** Records one identity's results after those already recorded. */
    method RecordAll(results: seq<Result>, id: Identity, at: (Identity, nat) -> Time, events0: map<MemberKey, Event>,
                     ghost histories0: map<MemberKey, History>, ghost done: seq<Timed>)
      returns (keys: seq<MemberKey>, attempts: nat, events: map<MemberKey, Event>)
      requires Settled(histories0, done, members, histories, events0)
      modifies this`members, this`histories
      ensures keys == Keys(results) && attempts == FailedCount(results)
      ensures Settled(histories0, done + TimedOf(results, id, at), members, histories, events)
    {
      keys, attempts, events := [], 0, events0;
      assert done + TimedOf(results, id, at)[..0] == done;
      for i := 0 to |results|
        invariant keys == Keys(results[..i]) && attempts == FailedCount(results[..i])
        invariant Settled(histories0, done + TimedOf(results, id, at)[..i], members, histories, events)
      {
        TallyNext(results, i);
        keys := keys + [results[i].member];
        var failed;
        events, failed := RecordNext(results, id, i, at, events, histories0, done);
        if failed {
          attempts := attempts + 1;
        }
      }
      assert results[..|results|] == results;
      assert TimedOf(results, id, at)[..|results|] == TimedOf(results, id, at);
    }

    /**
     * Every result appended to its member's history in the order of `order`, whichever it is, and what the Policy no
     * longer claims forgotten; then the health of each identity, and per member the last Warning its results call for.
     */
    method Settle(policy: string, pass: Pass, at: (Identity, nat) -> Time) returns (v: Verdict, ghost order: seq<Identity>)
      requires Valid()
      modifies this
      ensures Valid()
      ensures claims == old(claims)[policy := ClaimsOf(pass)]
      ensures NoDuplicates(order) && forall id :: id in order <==> id in pass
      ensures SettledPass(old(histories), InOrder(pass, order, at), claims, histories, v.events)
      ensures v.identities.Keys == pass.Keys
      ensures forall id :: id in pass ==>
                && HealthDescribed(members, ClaimedMembers(claims, id), v.identities[id])
                && v.identities[id].attempts == FailedCount(pass[id])
    {
      ghost var members0, histories0, claims0 := members, histories, claims;
      var next, attempts, events;
      next, attempts, events, order := RecordPass(pass, at);
      ghost var members1, histories1 := members, histories;
      PassIsClaimable(members0, histories0, claims0, pass, order, at, members1, histories1, events);
      ClaimLocked(policy, Some(next));
      RestrictedPass(histories0, InOrder(pass, order, at), members1, histories1, events, claims, members, histories);
      var identities := HealthOfAll(pass.Keys, attempts);
      v := Verdict(identities, events);
    }

    /** Records every result of the pass, identity by identity in any order. */
    method RecordPass(pass: Pass, at: (Identity, nat) -> Time)
      returns (next: Claims, attempts: map<Identity, nat>, events: map<MemberKey, Event>, ghost order: seq<Identity>)
      requires Synced(members, histories)
      modifies this`members, this`histories
      ensures next == ClaimsOf(pass)
      ensures attempts.Keys == pass.Keys && forall id :: id in pass ==> attempts[id] == FailedCount(pass[id])
      ensures NoDuplicates(order) && forall id :: id in order <==> id in pass
      ensures Settled(old(histories), InOrder(pass, order, at), members, histories, events)
    {
      next, attempts, events, order := map[], map[], map[], [];
      var ids := pass.Keys;
      while ids != {}
        invariant ids <= pass.Keys
        invariant NoDuplicates(order) && forall id :: id in order <==> id in pass.Keys - ids
        invariant Tallied(pass, pass.Keys - ids, next, attempts)
        invariant Settled(old(histories), InOrder(pass, order, at), members, histories, events)
      {
        var id :| id in ids;
        var keys, n;
        keys, n, events := RecordAll(pass[id], id, at, events, old(histories), InOrder(pass, order, at));
        TalliedNext(pass, ids, next, attempts, id);
        next, attempts := next[id := keys], attempts[id := n];
        OrderNext(pass, ids, order, id, at);
        order := order + [id];
        ids := ids - {id};
      }
    }

    method HealthOfAll(keys: set<Identity>, attempts: map<Identity, nat>) returns (identities: map<Identity, Health>)
      requires attempts.Keys == keys
      ensures identities.Keys == keys
      ensures forall id :: id in keys ==>
                && HealthDescribed(members, ClaimedMembers(claims, id), identities[id])
                && identities[id].attempts == attempts[id]
    {
      identities := map[];
      var ids := keys;
      while ids != {}
        invariant ids <= keys && identities.Keys == keys - ids
        invariant forall id :: id in identities ==>
                    && HealthDescribed(members, ClaimedMembers(claims, id), identities[id])
                    && identities[id].attempts == attempts[id]
      {
        var id :| id in ids;
        var h := HealthLocked(id);
        identities := identities[id := h.(attempts := attempts[id])];
        ids := ids - {id};
      }
    }

    /** How long until the Policy's next pass: its interval, or the earliest retry it claims when that comes first. */
    method RequeueAfter(policy: string, interval: int, now: Time, floor: int) returns (d: int)
      ensures d <= interval
      ensures interval > 0 && floor > 0 ==> d > 0
      ensures forall id, m :: policy in claims && id in claims[policy] && m in claims[policy][id] && m in members &&
                              members[m].failure.Some? && !members[m].failure.value.permanent ==>
                                d <= Max(members[m].failure.value.due - now, floor)
      ensures d == interval ||
              exists id, m :: policy in claims && id in claims[policy] && m in claims[policy][id] && m in members &&
                              members[m].failure.Some? && !members[m].failure.value.permanent &&
                              d == Max(members[m].failure.value.due - now, floor)
    {
      var earliest: Option<Time> := None;
      var owned := if policy in claims then claims[policy] else map[];
      var ids := owned.Keys;
      while ids != {}
        invariant ids <= owned.Keys
        invariant earliest.Some? ==> exists m :: Retrying(members, claims, policy, m) && DueOf(members, m) == earliest.value
        invariant forall id, m :: id in owned && id !in ids && m in owned[id] && Retrying(members, claims, policy, m) ==>
                    earliest.Some? && earliest.value <= DueOf(members, m)
      {
        var id :| id in ids;
        ghost var before := earliest;
        for i := 0 to |owned[id]|
          invariant earliest.Some? ==> exists m :: Retrying(members, claims, policy, m) && DueOf(members, m) == earliest.value
          invariant before.Some? ==> earliest.Some? && earliest.value <= before.value
          invariant forall m :: m in owned[id][..i] && Retrying(members, claims, policy, m) ==>
                      earliest.Some? && earliest.value <= DueOf(members, m)
        {
          var m := owned[id][i];
          if m in members && members[m].failure.Some? && !members[m].failure.value.permanent {
            assert Retrying(members, claims, policy, m);
            if earliest.None? || members[m].failure.value.due < earliest.value {
              earliest := Some(members[m].failure.value.due);
            }
          }
        }
        ids := ids - {id};
      }
      forall id, m | id in owned && m in owned[id] && m in members && members[m].failure.Some? &&
                     !members[m].failure.value.permanent
        ensures Retrying(members, claims, policy, m)
      {
      }
      if earliest.None? {
        return interval;
      }
      d := Min(interval, Max(earliest.value - now, floor));
    }
  }

  /** The keys and failures of the identities taken so far. */
  ghost predicate Tallied(pass: Pass, done: set<Identity>, next: Claims, attempts: map<Identity, nat>)
    requires done <= pass.Keys
  {
    next.Keys == attempts.Keys == done && forall id :: id in done ==> next[id] == Keys(pass[id]) && attempts[id] == FailedCount(pass[id])
  }

  lemma TalliedNext(pass: Pass, ids: set<Identity>, next: Claims, attempts: map<Identity, nat>, id: Identity)
    requires ids <= pass.Keys && id in ids && Tallied(pass, pass.Keys - ids, next, attempts)
    ensures Tallied(pass, pass.Keys - (ids - {id}), next[id := Keys(pass[id])], attempts[id := FailedCount(pass[id])])
  {
    assert pass.Keys - (ids - {id}) == pass.Keys - ids + {id};
  }

  /** A pass settled: histories and Warnings by the results of `order`, and nothing kept of a member no Policy claims. */
  ghost predicate SettledPass(histories0: map<MemberKey, History>, order: seq<Timed>, claims: map<string, Claims>,
                              histories: map<MemberKey, History>, events: map<MemberKey, Event>)
  {
    forall m ::
      && HistoryOf(histories, m) == (if Claimed(claims, m) then HistoryOf(histories0, m) + Of(order, m) else [])
      && EventFor(events, m) == LastEvent(HistoryOf(histories0, m), Of(order, m))
  }

  lemma PassIsClaimable(members0: map<MemberKey, Entry>, histories0: map<MemberKey, History>, claims: map<string, Claims>,
                        pass: Pass, order: seq<Identity>, at: (Identity, nat) -> Time, members: map<MemberKey, Entry>,
                        histories: map<MemberKey, History>, events: map<MemberKey, Event>)
    requires Consistent(members0, claims, histories0)
    requires forall id :: id in order ==> id in pass
    requires Settled(histories0, InOrder(pass, order, at), members, histories, events)
    ensures Claimable(members, claims, Some(ClaimsOf(pass)))
  {
    forall m | m in members ensures Claimed(claims, m) || ClaimedIn(ClaimsOf(pass), m) {
      if Of(InOrder(pass, order, at), m) == [] {
        assert SettledFor(m, histories0, InOrder(pass, order, at), histories, events);
        assert HistoryOf(histories0, m) + [] == HistoryOf(histories0, m);
        assert EntryOf(members, m) == EntryOf(members0, m);
      } else {
        var id, i := ReportedIn(pass, order, at, m);
        assert Keys(pass[id])[i] == m;
        assert m in ClaimsOf(pass)[id];
      }
    }
  }

  lemma RestrictedPass(histories0: map<MemberKey, History>, order: seq<Timed>, members1: map<MemberKey, Entry>,
                       histories1: map<MemberKey, History>, events: map<MemberKey, Event>, claims: map<string, Claims>,
                       members: map<MemberKey, Entry>, histories: map<MemberKey, History>)
    requires Settled(histories0, order, members1, histories1, events)
    requires Restricted(members1, histories1, claims, members, histories)
    ensures SettledPass(histories0, order, claims, histories, events)
  {
    forall m
      ensures HistoryOf(histories, m) == (if Claimed(claims, m) then HistoryOf(histories0, m) + Of(order, m) else [])
      ensures EventFor(events, m) == LastEvent(HistoryOf(histories0, m), Of(order, m))
    {
      assert SettledFor(m, histories0, order, histories1, events);
    }
  }

  ghost function Elements<T>(xs: seq<T>): set<T> {
    set x | x in xs
  }

  /** Exactly `order` has been recorded of `m`, with the last Warning it called for. */
  ghost predicate SettledFor(m: MemberKey, histories0: map<MemberKey, History>, order: seq<Timed>,
                             histories: map<MemberKey, History>, events: map<MemberKey, Event>)
  {
    && HistoryOf(histories, m) == HistoryOf(histories0, m) + Of(order, m)
    && EventFor(events, m) == LastEvent(HistoryOf(histories0, m), Of(order, m))
  }

  ghost predicate Settled(histories0: map<MemberKey, History>, order: seq<Timed>, members: map<MemberKey, Entry>,
                          histories: map<MemberKey, History>, events: map<MemberKey, Event>)
  {
    Synced(members, histories) && forall m :: SettledFor(m, histories0, order, histories, events)
  }

  lemma LastEventNext(h: History, more: History, kind: ResultKind, at: Time)
    ensures var ev := EventAfter(Remembered(h + more), kind, at);
            LastEvent(h, more + [(kind, at)]) == if ev.Some? then ev else LastEvent(h, more)
  {
    assert (more + [(kind, at)])[..|more|] == more;
  }

  lemma TimedNext(done: seq<Timed>, results: seq<Result>, id: Identity, at: (Identity, nat) -> Time, i: nat)
    requires i < |results|
    ensures done + TimedOf(results, id, at)[..i + 1] == done + TimedOf(results, id, at)[..i] + [Timed(results[i], at(id, i))]
  {
    var ts := TimedOf(results, id, at);
    assert ts[..i + 1] == ts[..i] + [ts[i]];
  }

  lemma OfNext(order: seq<Timed>, t: Timed, m: MemberKey)
    ensures Of(order + [t], m) == Of(order, m) + if t.result.member == m then [(t.result.kind, t.at)] else []
  {
    assert (order + [t])[..|order|] == order;
  }

  /** One more result of the member: its history grows by it, and its Warning, if it calls for one, is the last. */
  lemma SettledNext(histories0: map<MemberKey, History>, order: seq<Timed>, t: Timed, midHistories: map<MemberKey, History>,
                    events: map<MemberKey, Event>, histories: map<MemberKey, History>, ev: Option<Event>,
                    events': map<MemberKey, Event>)
    requires SettledFor(t.result.member, histories0, order, midHistories, events)
    requires HistoryOf(histories, t.result.member) == HistoryOf(midHistories, t.result.member) + [(t.result.kind, t.at)]
    requires ev == EventAfter(Remembered(HistoryOf(midHistories, t.result.member)), t.result.kind, t.at)
    requires EventFor(events', t.result.member) == if ev.Some? then ev else EventFor(events, t.result.member)
    ensures SettledFor(t.result.member, histories0, order + [t], histories, events')
  {
    var m := t.result.member;
    var before, more := HistoryOf(histories0, m), Of(order, m);
    OfNext(order, t, m);
    LastEventNext(before, more, t.result.kind, t.at);
    Associates(before, more, [(t.result.kind, t.at)]);
  }

  lemma SettledSame(m: MemberKey, histories0: map<MemberKey, History>, order: seq<Timed>, t: Timed,
                    midHistories: map<MemberKey, History>, events: map<MemberKey, Event>, histories: map<MemberKey, History>,
                    events': map<MemberKey, Event>)
    requires SettledFor(m, histories0, order, midHistories, events) && m != t.result.member
    requires HistoryOf(histories, m) == HistoryOf(midHistories, m) && EventFor(events', m) == EventFor(events, m)
    ensures SettledFor(m, histories0, order + [t], histories, events')
  {
    OfNext(order, t, m);
    assert Of(order + [t], m) == Of(order, m);
  }

  lemma SettledStep(histories0: map<MemberKey, History>, order: seq<Timed>, t: Timed, mid: map<MemberKey, Entry>,
                    midHistories: map<MemberKey, History>, events: map<MemberKey, Event>, members: map<MemberKey, Entry>,
                    histories: map<MemberKey, History>, ev: Option<Event>)
    requires Settled(histories0, order, mid, midHistories, events) && Synced(members, histories)
    requires var m := t.result.member;
             && histories == midHistories[m := HistoryOf(midHistories, m) + [(t.result.kind, t.at)]]
             && ev == EventAfter(EntryOf(mid, m), t.result.kind, t.at)
    ensures Settled(histories0, order + [t], members, histories, if ev.Some? then events[t.result.member := ev.value] else events)
  {
    var events' := if ev.Some? then events[t.result.member := ev.value] else events;
    assert EntryOf(mid, t.result.member) == Remembered(HistoryOf(midHistories, t.result.member));
    forall m ensures SettledFor(m, histories0, order + [t], histories, events') {
      assert SettledFor(m, histories0, order, midHistories, events);
      if m == t.result.member {
        SettledNext(histories0, order, t, midHistories, events, histories, ev, events');
      } else {
        SettledSame(m, histories0, order, t, midHistories, events, histories, events');
      }
    }
  }

  lemma OrderNext(pass: Pass, ids: set<Identity>, order: seq<Identity>, id: Identity, at: (Identity, nat) -> Time)
    requires ids <= pass.Keys && id in ids && NoDuplicates(order) && forall jd :: jd in order <==> jd in pass.Keys - ids
    ensures NoDuplicates(order + [id]) && forall jd :: jd in order + [id] <==> jd in pass.Keys - (ids - {id})
    ensures InOrder(pass, order + [id], at) == InOrder(pass, order, at) + TimedOf(pass[id], id, at)
  {
    assert (order + [id])[..|order|] == order;
    assert id !in order;
  }

  /** Health over the members seen so far, in key order. */
  ghost predicate HealthSoFar(members: map<MemberKey, Entry>, seen: seq<MemberKey>, h: Health) {
    && h.pods.total == SumOf(Totals(members), Elements(seen)) && h.pods.stale == SumOf(Stales(members), Elements(seen))
    && MeasuredSoFar(members, seen, h.measured) && BlockedSoFar(members, seen, h.blockedOn)
  }

  ghost predicate MeasuredSoFar(members: map<MemberKey, Entry>, seen: seq<MemberKey>, measured: bool) {
    measured <==> exists m :: m in seen && m in members && members[m].measured
  }

  /** What one more member adds to a health. */
  ghost predicate Visited(members: map<MemberKey, Entry>, m: MemberKey, before: Health, h: Health) {
    && h.pods.total == before.pods.total + Measured(members, m).total
    && h.pods.stale == before.pods.stale + Measured(members, m).stale
    && (h.measured <==> before.measured || (m in members && members[m].measured))
    && h.blockedOn == (if before.blockedOn.None? && Blocked(members, m) then Some(members[m].failure.value.step) else before.blockedOn)
    && h.attempts == before.attempts
  }

  lemma SumsStep(members: map<MemberKey, Entry>, out: seq<MemberKey>, i: nat, f: MemberKey -> int)
    requires i < |out| && NoDuplicates(out)
    ensures SumOf(f, Elements(out[..i + 1])) == SumOf(f, Elements(out[..i])) + f(out[i])
  {
    assert Elements(out[..i + 1]) == Elements(out[..i]) + {out[i]};
    SumOfAdd(f, Elements(out[..i]), out[i]);
  }

  lemma HealthStep(members: map<MemberKey, Entry>, out: seq<MemberKey>, i: nat, before: Health, h: Health)
    requires i < |out| && NoDuplicates(out) && HealthSoFar(members, out[..i], before) && Visited(members, out[i], before, h)
    ensures HealthSoFar(members, out[..i + 1], h)
  {
    SumsStep(members, out, i, Totals(members));
    SumsStep(members, out, i, Stales(members));
    assert out[..i + 1] == out[..i] + [out[i]];
    MeasuredStep(members, out[..i], out[i], before.measured, h.measured);
    BlockedStep(members, out[..i], out[i], before.blockedOn, h.blockedOn);
  }

  lemma MeasuredStep(members: map<MemberKey, Entry>, seen: seq<MemberKey>, m: MemberKey, before: bool, measured: bool)
    requires MeasuredSoFar(members, seen, before)
    requires measured <==> before || (m in members && members[m].measured)
    ensures MeasuredSoFar(members, seen + [m], measured)
  {
    assert m in seen + [m];
  }

  ghost predicate BlockedSoFar(members: map<MemberKey, Entry>, seen: seq<MemberKey>, step: Option<ApplyStep>) {
    && (step.None? <==> forall i :: 0 <= i < |seen| ==> !Blocked(members, seen[i]))
    && (step.Some? ==>
          exists i :: 0 <= i < |seen| && Blocked(members, seen[i]) && step == Some(members[seen[i]].failure.value.step) &&
                      forall j :: 0 <= j < i ==> !Blocked(members, seen[j]))
  }

  lemma BlockedStep(members: map<MemberKey, Entry>, seen: seq<MemberKey>, m: MemberKey, before: Option<ApplyStep>,
                    step: Option<ApplyStep>)
    requires BlockedSoFar(members, seen, before)
    requires step == if before.None? && Blocked(members, m) then Some(members[m].failure.value.step) else before
    ensures BlockedSoFar(members, seen + [m], step)
  {
    var next := seen + [m];
    if before.Some? {
      var i :| 0 <= i < |seen| && Blocked(members, seen[i]) && before == Some(members[seen[i]].failure.value.step) &&
               forall j :: 0 <= j < i ==> !Blocked(members, seen[j]);
      assert next[i] == seen[i];
    } else if Blocked(members, m) {
      assert next[|seen|] == m;
    }
  }

  lemma HealthComplete(members: map<MemberKey, Entry>, out: seq<MemberKey>, ms: set<MemberKey>, h: Health)
    requires HealthSoFar(members, out, h) && forall m :: m in out <==> m in ms
    requires Ascending(out)
    ensures HealthDescribed(members, ms, h)
  {
    assert ms == Elements(out);
  }

  /** Sorting keeps the members and puts them in ascending key order. */
  lemma SortsTo(xs: seq<MemberKey>)
    requires NoDuplicates(xs)
    ensures forall m :: m in Sort(xs, KeyOf) <==> m in xs
    ensures NoDuplicates(Sort(xs, KeyOf))
    ensures Ascending(Sort(xs, KeyOf))
  {
    var ys := Sort(xs, KeyOf);
    SortSorts(xs, KeyOf);
    NoDuplicatesCounts(xs);
    NoDuplicatesCounts(ys);
    SortedKeysAscend(ys);
    forall m ensures m in ys <==> m in xs {
      assert m in ys <==> m in multiset(ys);
      assert m in xs <==> m in multiset(xs);
    }
  }

  /** What is left once everything about the members no Policy claims is forgotten. */
  ghost predicate Restricted(members: map<MemberKey, Entry>, histories: map<MemberKey, History>, claims: map<string, Claims>,
                             members': map<MemberKey, Entry>, histories': map<MemberKey, History>)
  {
    && (forall m :: EntryOf(members', m) == if Claimed(claims, m) then EntryOf(members, m) else None)
    && (forall m :: HistoryOf(histories', m) == if Claimed(claims, m) then HistoryOf(histories, m) else [])
  }

  lemma ClaimStays(after: map<string, Claims>, p: string, m: MemberKey)
    requires p in after && ClaimedIn(after[p], m)
    ensures Claimed(after, m)
  {
  }

  lemma ClaimLost(before: map<string, Claims>, policy: string, after: map<string, Claims>, m: MemberKey)
    requires !Claimed(after, m) && forall p :: p in before && p != policy ==> p in after && after[p] == before[p]
    ensures Claimed(before, m) ==> policy in before && ClaimedIn(before[policy], m)
  {
    if Claimed(before, m) {
      var p :| p in before && ClaimedIn(before[p], m);
      if p != policy {
        ClaimStays(after, p, m);
      }
    }
  }

  ghost predicate Dropped(members: map<MemberKey, Entry>, prev: Claims, claimed: set<MemberKey>,
                          members': map<MemberKey, Entry>) {
    forall m :: EntryOf(members', m) == if m !in claimed && ClaimedIn(prev, m) then None else EntryOf(members, m)
  }

  /** Nothing is remembered but of members claimed already or about to be. */
  ghost predicate Claimable(members: map<MemberKey, Entry>, claims: map<string, Claims>, next: Option<Claims>) {
    forall m :: m in members ==> Claimed(claims, m) || (next.Some? && ClaimedIn(next.value, m))
  }

  function ClaimsAfter(claims: map<string, Claims>, policy: string, next: Option<Claims>): map<string, Claims> {
    if next.Some? then claims[policy := next.value] else claims - {policy}
  }

  ghost function KeepClaimed(histories: map<MemberKey, History>, claimed: set<MemberKey>): map<MemberKey, History> {
    map m | m in histories && m in claimed :: histories[m]
  }

  /** Dropping what the Policy claimed before and nobody claims now forgets every unclaimed member. */
  lemma DroppingRestricts(members: map<MemberKey, Entry>, histories: map<MemberKey, History>, before: map<string, Claims>,
                          policy: string, next: Option<Claims>, claimed: set<MemberKey>, members': map<MemberKey, Entry>)
    requires Synced(members, histories) && Claimable(members, before, next)
    requires forall m :: m in claimed <==> Claimed(ClaimsAfter(before, policy, next), m)
    requires Dropped(members, if policy in before then before[policy] else map[], claimed, members')
    ensures Consistent(members', ClaimsAfter(before, policy, next), KeepClaimed(histories, claimed))
    ensures Restricted(members, histories, ClaimsAfter(before, policy, next), members', KeepClaimed(histories, claimed))
  {
    var after := ClaimsAfter(before, policy, next);
    forall m ensures EntryOf(members', m) == if Claimed(after, m) then EntryOf(members, m) else None {
      if !Claimed(after, m) {
        if next.Some? && ClaimedIn(next.value, m) {
          ClaimStays(after, policy, m);
        } else {
          ClaimLost(before, policy, after, m);
        }
      }
    }
    RestrictedSynced(members, histories, after, members', KeepClaimed(histories, claimed));
  }

  lemma RestrictedSynced(members: map<MemberKey, Entry>, histories: map<MemberKey, History>, claims: map<string, Claims>,
                         members': map<MemberKey, Entry>, histories': map<MemberKey, History>)
    requires Synced(members, histories)
    requires Restricted(members, histories, claims, members', histories')
    ensures Synced(members', histories')
    ensures forall m :: m in members' ==> Claimed(claims, m)
  {
    forall m ensures EntryOf(members', m) == Remembered(HistoryOf(histories', m)) {
      assert EntryOf(members, m) == Remembered(HistoryOf(histories, m));
    }
    forall m | m in members' ensures Claimed(claims, m) {
      assert EntryOf(members', m).Some?;
    }
  }
}
